/**
 Deleting a set of positions from a sequence. `Rank` says where a position goes and `Sift`
 what is left. Compaction of a shard is one such deletion, over the whole byte space.
 */
module Deletion {

  /** How many positions below `p` survive. */
  function Rank(dead: set<int>, p: int): nat
    decreases p
  {
    if p <= 0 then 0 else Rank(dead, p - 1) + if p - 1 in dead then 0 else 1
  }

  /** The surviving elements, in order. */
  function Sift<T>(dead: set<int>, s: seq<T>): seq<T> {
    if s == [] then [] else
      var n := |s| - 1;
      Sift(dead, s[..n]) + if n in dead then [] else [s[n]]
  }

  ghost predicate AllKept(dead: set<int>, a: int, b: int) {
    forall p :: a <= p < b ==> p !in dead
  }

  ghost predicate AllDead(dead: set<int>, a: int, b: int) {
    forall p :: a <= p < b ==> p in dead
  }

  lemma {:induction false} RankMonotone(dead: set<int>, a: int, b: int)
    requires 0 <= a <= b
    ensures Rank(dead, a) <= Rank(dead, b) <= Rank(dead, a) + b - a
    decreases b
  {
    if a < b {
      RankMonotone(dead, a, b - 1);
    }
  }

  lemma {:induction false} RankKept(dead: set<int>, a: int, b: int)
    requires 0 <= a <= b && AllKept(dead, a, b)
    ensures Rank(dead, b) == Rank(dead, a) + b - a
    decreases b
  {
    if a < b {
      RankKept(dead, a, b - 1);
    }
  }

  lemma {:induction false} RankDead(dead: set<int>, a: int, b: int)
    requires 0 <= a <= b && AllDead(dead, a, b)
    ensures Rank(dead, b) == Rank(dead, a)
    decreases b
  {
    if a < b {
      RankDead(dead, a, b - 1);
    }
  }

  /** A surviving position keeps its order relative to every other position. */
  lemma RankReflects(dead: set<int>, p: int, q: int)
    requires 0 <= p && 0 <= q && p !in dead
    ensures Rank(dead, p) < Rank(dead, q) <==> p < q
    ensures Rank(dead, q) <= Rank(dead, p) <==> q <= p
  {
    if p < q {
      RankMonotone(dead, p + 1, q);
    } else {
      RankMonotone(dead, q, p);
    }
  }

  /** Every position of the result is the image of a surviving one. */
  lemma {:induction false} RankOnto(dead: set<int>, n: int, q: int) returns (p: int)
    requires 0 <= n && 0 <= q < Rank(dead, n)
    ensures 0 <= p < n && p !in dead && Rank(dead, p) == q
    decreases n
  {
    if q < Rank(dead, n - 1) {
      p := RankOnto(dead, n - 1, q);
    } else {
      p := n - 1;
    }
  }

  lemma {:induction false} SiftPrefix<T>(dead: set<int>, s: seq<T>, n: nat)
    requires n <= |s|
    ensures |Sift(dead, s)| == Rank(dead, |s|)
    ensures Rank(dead, n) <= |Sift(dead, s)|
    ensures Sift(dead, s)[..Rank(dead, n)] == Sift(dead, s[..n])
    decreases |s|
  {
    if s == [] {
    } else {
      var m := |s| - 1;
      if n == |s| {
        assert s[..n] == s;
        SiftPrefix(dead, s[..m], m);
      } else {
        SiftPrefix(dead, s[..m], n);
        assert s[..m][..n] == s[..n];
      }
    }
  }

  /** Cutting the result at the rank of b is sifting the first b elements. */
  lemma SiftTo<T>(dead: set<int>, s: seq<T>, b: nat)
    requires 0 < b <= |s| && b - 1 !in dead
    ensures Rank(dead, b) == Rank(dead, b - 1) + 1 <= |Sift(dead, s)|
    ensures Sift(dead, s)[Rank(dead, b) - 1] == s[b - 1]
  {
    SiftPrefix(dead, s, b);
    var t := s[..b];
    assert t[..b - 1] == s[..b - 1];
    SiftPrefix(dead, s, b - 1);
    assert Sift(dead, t) == Sift(dead, s[..b - 1]) + [s[b - 1]];
    assert Sift(dead, s)[Rank(dead, b) - 1] == Sift(dead, t)[Rank(dead, b) - 1];
  }

  /** A run of survivors is found unchanged at its new place. */
  lemma {:induction false} SiftSlice<T>(dead: set<int>, s: seq<T>, a: nat, b: nat)
    requires a <= b <= |s| && AllKept(dead, a, b)
    ensures Rank(dead, a) <= Rank(dead, b) == Rank(dead, a) + b - a <= |Sift(dead, s)|
    ensures Sift(dead, s)[Rank(dead, a)..Rank(dead, b)] == s[a..b]
    decreases b
  {
    RankKept(dead, a, b);
    SiftPrefix(dead, s, b);
    if a < b {
      SiftSlice(dead, s, a, b - 1);
      SiftTo(dead, s, b);
      SlicesGrow(Sift(dead, s), Rank(dead, a), Rank(dead, b), s, a, b);
    }
  }

  lemma SlicesGrow<T>(x: seq<T>, i: nat, j: nat, y: seq<T>, a: nat, b: nat)
    requires i < j <= |x| && a < b <= |y| && x[i..j - 1] == y[a..b - 1] && x[j - 1] == y[b - 1]
    ensures x[i..j] == y[a..b]
  {
    assert x[i..j] == x[i..j - 1] + [x[j - 1]];
    assert y[a..b] == y[a..b - 1] + [y[b - 1]];
  }

  /** `later` is what remains to be deleted of `all` once `first` has been deleted from [0, n). */
  ghost predicate Residue(first: set<int>, later: set<int>, all: set<int>, n: int) {
    && first <= all
    && forall p :: 0 <= p < n ==> Settled(first, later, all, p)
  }

  ghost predicate Settled(first: set<int>, later: set<int>, all: set<int>, p: int) {
    p !in first ==> (Rank(first, p) in later <==> p in all)
  }

  /** Deleting in two rounds moves every position where one round would. */
  lemma {:induction false} RankComposes(first: set<int>, later: set<int>, all: set<int>, n: int, p: int)
    requires Residue(first, later, all, n)
    requires 0 <= p <= n
    ensures Rank(later, Rank(first, p)) == Rank(all, p)
    decreases p
  {
    if p > 0 {
      RankComposes(first, later, all, n, p - 1);
      assert Settled(first, later, all, p - 1);
    }
  }

  lemma SiftNext<T>(dead: set<int>, s: seq<T>, x: T)
    ensures Sift(dead, s + [x]) == if |s| in dead then Sift(dead, s) else Sift(dead, s) + [x]
  {
    assert (s + [x])[..|s|] == s;
  }

  /** Deleting in two rounds leaves what one round would. */
  lemma {:induction false} SiftComposes<T>(first: set<int>, later: set<int>, all: set<int>, s: seq<T>)
    requires Residue(first, later, all, |s|)
    ensures Sift(later, Sift(first, s)) == Sift(all, s)
    decreases |s|
  {
    if s != [] {
      var n := |s| - 1;
      var init := s[..n];
      assert s == init + [s[n]];
      SiftComposes(first, later, all, init);
      SiftPrefix(first, init, n);
      assert Settled(first, later, all, n);
      SiftNext(first, init, s[n]);
      SiftNext(all, init, s[n]);
      SiftNext(later, Sift(first, init), s[n]);
    }
  }

  lemma {:induction false} RankNothing(p: int)
    requires 0 <= p
    ensures Rank({}, p) == p
    decreases p
  {
    if p > 0 {
      RankNothing(p - 1);
    }
  }

  lemma {:induction false} SiftNothing<T>(s: seq<T>)
    ensures Sift({}, s) == s
  {
    if s != [] {
      SiftNothing(s[..|s| - 1]);
    }
  }
}
