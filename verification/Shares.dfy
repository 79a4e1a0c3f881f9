/** Sharing a removal out over gaps in proportion to their size, remainder included. */
module Shares {
  import opened Basics

  function Sum(s: seq<nat>): nat {
    if s == [] then 0 else Sum(s[..|s| - 1]) + s[|s| - 1]
  }

  function Next(i: nat, n: nat): (r: nat)
    requires n > 0
    ensures i + 1 < n ==> r == i + 1
  {
    (i + 1) % n
  }

  function Share(len: nat, remove: nat, capacity: nat): nat
    requires capacity > 0
  {
    remove * len / capacity
  }

  function SharesOf(lens: seq<nat>, remove: nat, capacity: nat): seq<nat>
    requires capacity > 0
  {
    seq(|lens|, i requires 0 <= i < |lens| => Share(lens[i], remove, capacity))
  }

  lemma SumNext(s: seq<nat>, i: nat)
    requires i < |s|
    ensures Sum(s[..i + 1]) == Sum(s[..i]) + s[i]
  {
    assert s[..i + 1][..i] == s[..i];
  }

  lemma DivBounds(x: nat, c: nat)
    requires c > 0
    ensures c * (x / c) <= x < c * (x / c) + c
  {
  }

  lemma ShareFits(len: nat, remove: nat, capacity: nat)
    requires 0 < capacity && remove <= capacity
    ensures Share(len, remove, capacity) <= len
  {
    var share := Share(len, remove, capacity);
    DivBounds(remove * len, capacity);
    MulMono(len, remove, capacity);
    if len < share {
      MulMono(capacity, len + 1, share);
    }
  }

  lemma SharesStep(c: nat, remove: nat, got: nat, g: nat, all: nat, len: nat, i: nat)
    requires 0 < c && 0 < i
    requires c * got <= remove * all <= c * got + (i - 1) * (c - 1)
    requires c * g <= remove * len < c * g + c
    ensures c * (got + g) <= remove * (all + len) <= c * (got + g) + i * (c - 1)
  {
    assert c * (got + g) == c * got + c * g;
    assert remove * (all + len) == remove * all + remove * len;
    assert i * (c - 1) == (i - 1) * (c - 1) + (c - 1);
  }

  /** Rounding down loses less than one unit a gap. */
  lemma {:induction false} SharesSum(lens: seq<nat>, remove: nat, capacity: nat, i: nat)
    requires capacity > 0 && i <= |lens|
    ensures var got := Sum(SharesOf(lens, remove, capacity)[..i]);
            capacity * got <= remove * Sum(lens[..i]) <= capacity * got + i * (capacity - 1)
  {
    if i > 0 {
      var shares := SharesOf(lens, remove, capacity);
      SharesSum(lens, remove, capacity, i - 1);
      SumNext(shares, i - 1);
      SumNext(lens, i - 1);
      DivBounds(remove * lens[i - 1], capacity);
      SharesStep(capacity, remove, Sum(shares[..i - 1]), shares[i - 1], Sum(lens[..i - 1]), lens[i - 1], i);
    }
  }

  lemma Scaled(c: nat, remove: nat, got: nat, n: nat)
    requires c > 0 && n > 0 && c * got <= remove * c <= c * got + n * (c - 1)
    ensures 0 <= remove - got < n
  {
    if remove < got {
      MulMono(c, remove + 1, got);
    } else if remove - got >= n {
      MulMono(c, got + n, remove);
    }
  }

  /** What rounding leaves over is less than the number of gaps. */
  lemma RemainderSmall(lens: seq<nat>, remove: nat)
    requires 0 < remove <= Sum(lens)
    ensures lens != []
    ensures 0 <= remove - Sum(SharesOf(lens, remove, Sum(lens))) < |lens|
  {
    var c := Sum(lens);
    var shares := SharesOf(lens, remove, c);
    SharesSum(lens, remove, c, |lens|);
    assert lens[..|lens|] == lens && shares[..|lens|] == shares;
    Scaled(c, remove, Sum(shares), |lens|);
  }

  // ------------------------------------------------------------ the loop

  lemma {:induction false} SumUpdate(s: seq<nat>, i: nat, v: nat)
    requires i < |s|
    ensures Sum(s[i := v]) == Sum(s) - s[i] + v
  {
    var n := |s| - 1;
    if i < n {
      SumUpdate(s[..n], i, v);
      assert s[i := v][..n] == s[..n][i := v];
    } else {
      assert s[i := v][..n] == s[..n];
    }
  }

  lemma {:induction false} SumLe(a: seq<nat>, b: seq<nat>)
    requires |a| == |b| && forall i :: 0 <= i < |a| ==> a[i] <= b[i]
    ensures Sum(a) <= Sum(b)
    ensures Sum(a) == Sum(b) ==> a == b
  {
    if a != [] {
      var n := |a| - 1;
      SumLe(a[..n], b[..n]);
      assert a == a[..n] + [a[n]] && b == b[..n] + [b[n]];
    }
  }

  /** Hands `extra` to the gaps in turn, as far as each has room; the `rounds` of the loop make at most one pass. */
  method HandOut(lens: seq<nat>, base: seq<nat>, extra: nat) returns (taken: seq<nat>, ghost rounds: nat)
    requires |base| == |lens| && Sum(base) + extra <= Sum(lens)
    requires forall i :: 0 <= i < |lens| ==> base[i] <= lens[i]
    ensures |taken| == |lens| && Sum(taken) == Sum(base) + extra && rounds <= |lens|
    ensures forall i :: 0 <= i < |lens| ==> base[i] <= taken[i] <= lens[i] && taken[i] <= base[i] + extra
  {
    taken := base;
    var left, index := extra, 0;
    rounds := 0;
    FullSums(base, lens);
    while left > 0
      invariant 0 <= left <= extra && |taken| == |lens| && Sum(taken) + left == Sum(base) + extra
      invariant rounds <= |lens| && (left > 0 ==> index == rounds && rounds < |lens|)
      invariant forall i :: 0 <= i < |lens| ==> base[i] <= taken[i] <= lens[i] && taken[i] + left <= base[i] + extra
      invariant left > 0 ==> forall i :: 0 <= i < rounds ==> taken[i] == lens[i]
      decreases |lens| - rounds
    {
      var step := Min(lens[index] - taken[index], left);
      SumUpdate(taken, index, taken[index] + step);
      taken := taken[index := taken[index] + step];
      left := left - step;
      FullSums(taken, lens);
      index := Next(index, |lens|);
      rounds := rounds + 1;
    }
  }

  /** A total short of what all gaps have means some gap has room. */
  lemma FullSums(a: seq<nat>, b: seq<nat>)
    requires |a| == |b| && forall i :: 0 <= i < |a| ==> a[i] <= b[i]
    ensures Sum(a) <= Sum(b)
    ensures Sum(a) < Sum(b) ==> exists i :: 0 <= i < |a| && a[i] < b[i]
  {
    SumLe(a, b);
    if forall i :: 0 <= i < |a| ==> a[i] == b[i] {
      assert a == b;
    }
  }

  /** Of `capacity`, `remove` go; a gap of size len gives its share of that, at most one less and `slop` more. */
  ghost predicate ShareOf(taken: int, len: int, remove: int, capacity: int, slop: int) {
    && taken <= len
    && remove * len - capacity < taken * capacity <= remove * len + slop * capacity
  }

  ghost predicate Proportional(taken: seq<nat>, lens: seq<nat>, remove: nat, slop: int) {
    && |taken| == |lens|
    && forall i :: 0 <= i < |lens| ==> ShareOf(taken[i], lens[i], remove, Sum(lens), slop)
  }

  lemma ShareIsShare(taken: nat, len: nat, remove: nat, capacity: nat, slop: nat)
    requires capacity > 0 && taken <= len
    requires Share(len, remove, capacity) <= taken <= Share(len, remove, capacity) + slop
    ensures ShareOf(taken, len, remove, capacity, slop)
  {
    var share := Share(len, remove, capacity);
    DivBounds(remove * len, capacity);
    MulMono(capacity, share, taken);
    MulMono(capacity, taken, share + slop);
    assert capacity * (share + slop) == capacity * share + slop * capacity;
  }

  /**
   How much each gap gives up. The amounts add up to `remove`, no gap gives more than it has,
   and each gives its proportional share to within the number of gaps less one.
   */
  method Apportion(lens: seq<nat>, remove: nat) returns (taken: seq<nat>)
    requires 0 < remove <= Sum(lens)
    ensures lens != [] && Sum(taken) == remove
    ensures Proportional(taken, lens, remove, |lens| - 1)
  {
    RemainderSmall(lens, remove);
    var shares := RoundedShares(lens, remove);
    ghost var rounds;
    taken, rounds := HandOut(lens, shares, remove - Sum(shares));
    forall i | 0 <= i < |lens|
      ensures ShareOf(taken[i], lens[i], remove, Sum(lens), |lens| - 1)
    {
      ShareIsShare(taken[i], lens[i], remove, Sum(lens), |lens| - 1);
    }
  }

  method RoundedShares(lens: seq<nat>, remove: nat) returns (taken: seq<nat>)
    requires 0 < remove <= Sum(lens)
    ensures taken == SharesOf(lens, remove, Sum(lens))
    ensures forall i :: 0 <= i < |lens| ==> taken[i] <= lens[i]
  {
    var capacity := Sum(lens);
    taken := [];
    for i := 0 to |lens|
      invariant taken == SharesOf(lens, remove, capacity)[..i]
      invariant forall j :: 0 <= j < i ==> taken[j] <= lens[j]
    {
      ShareFits(lens[i], remove, capacity);
      var share := Share(lens[i], remove, capacity);
      taken := taken + [Min(lens[i], share)];
    }
  }
}
