/**
 The owned byte ranges of a shard, the shards that hold unowned bytes, and the lookup that
 moves an offset. Each is proved to agree with the set-based meaning in `Compaction`.
 */
module LiveRanges {
  import opened Sorting
  import opened Intervals
  import opened Layout
  import opened Deletion
  import opened Compaction

  /** Non-empty ranges inside [s0, s1), ascending, with a gap between neighbours. */
  ghost predicate Canonical(rs: seq<Range>, s0: int, s1: int) {
    Spaced(rs, s0, s1) && NonEmpty(rs)
  }

  /** The ranges are the owned bytes of [s0, s1), no more and no less. */
  ghost predicate Exact(rs: seq<Range>, ts: seq<Entry>, s0: int, s1: int) {
    forall p :: InSome(rs, p) <==> s0 <= p < s1 && Live(ts, p)
  }

  lemma LiveAppend(ts: seq<Entry>, e: Entry, p: int)
    ensures Live(ts + [e], p) <==> Live(ts, p) || e.Covers(p)
  {
    var all := ts + [e];
    if Live(ts, p) {
      var i :| 0 <= i < |ts| && ts[i].Covers(p);
      assert all[i].Covers(p);
    }
    if e.Covers(p) {
      assert all[|ts|].Covers(p);
    }
  }

  /** The clipped padded blocks, one per entry that meets [s0, s1). */
  method Clip(ts: seq<Entry>, s0: int, s1: int) returns (rs: seq<Range>)
    ensures Exact(rs, ts, s0, s1)
    ensures forall i :: 0 <= i < |rs| ==> s0 <= rs[i].lo < rs[i].hi <= s1
  {
    rs := [];
    for i := 0 to |ts|
      invariant Exact(rs, ts[..i], s0, s1)
      invariant forall i :: 0 <= i < |rs| ==> s0 <= rs[i].lo < rs[i].hi <= s1
    {
      var e := ts[i];
      var a := if e.off < s0 then s0 else e.off;
      var b := if e.End() < s1 then e.End() else s1;
      assert ts[..i + 1] == ts[..i] + [e];
      ghost var before := rs;
      if a < b {
        rs := rs + [Range(a, b)];
      }
      forall p
        ensures InSome(rs, p) <==> s0 <= p < s1 && Live(ts[..i + 1], p)
      {
        assert InSome(before, p) <==> s0 <= p < s1 && Live(ts[..i], p);
        LiveAppend(ts[..i], e, p);
        InSomeAppend(before, Range(a, b), p);
      }
    }
    assert ts[..|ts|] == ts;
  }

  /** Referenced byte ranges of [s0, s1), merged and sorted. */
  method LiveRanges(ts: seq<Entry>, s0: int, s1: int) returns (merged: seq<Range>)
    ensures Canonical(merged, s0, s1)
    ensures Exact(merged, ts, s0, s1)
  {
    var rs := Clip(ts, s0, s1);
    var sorted := Sort(RangeLe, rs);
    SortCorrect(RangeLe, rs);
    forall i | 0 <= i < |sorted|
      ensures s0 <= sorted[i].lo < sorted[i].hi <= s1
    {
      SortMembers(RangeLe, rs, sorted[i]);
    }
    merged := Merge(sorted, s0, s1);
    forall p
      ensures InSome(merged, p) <==> s0 <= p < s1 && Live(ts, p)
    {
      InSomeSorted(rs, p);
      assert InSome(merged, p) <==> InSome(sorted, p);
      assert InSome(rs, p) <==> s0 <= p < s1 && Live(ts, p);
    }
  }

  // ------------------------------------------------------------ ranges and ranks

  /** The gap in front of range i, the last gap included, runs from `GapLo` to `GapHi`. */
  function GapLo(rs: seq<Range>, s0: int, i: nat): int
    requires i <= |rs|
  {
    if i == 0 then s0 else rs[i - 1].hi
  }

  function GapHi(rs: seq<Range>, s1: int, i: nat): int
    requires i <= |rs|
  {
    if i < |rs| then rs[i].lo else s1
  }

  lemma GapOrder(rs: seq<Range>, s0: int, s1: int, i: nat)
    requires Canonical(rs, s0, s1) && s0 <= s1 && i <= |rs|
    ensures s0 <= GapLo(rs, s0, i) <= GapHi(rs, s1, i) <= s1
    ensures i < |rs| ==> rs[i].lo < rs[i].hi
  {
  }

  lemma GapDead(rs: seq<Range>, ts: seq<Entry>, s0: int, s1: int, i: nat)
    requires Canonical(rs, s0, s1) && Exact(rs, ts, s0, s1) && i <= |rs|
    ensures AllDead(DeadIn(ts, s0, s1), GapLo(rs, s0, i), GapHi(rs, s1, i))
  {
    forall p | GapLo(rs, s0, i) <= p < GapHi(rs, s1, i)
      ensures p in DeadIn(ts, s0, s1)
    {
      forall j | 0 <= j < |rs|
        ensures !rs[j].Has(p)
      {
        if j < i {
          assert j < i - 1 ==> rs[j].hi < rs[i - 1].lo;
        } else {
          assert i < j ==> rs[i].hi < rs[j].lo;
        }
      }
      assert !InSome(rs, p);
    }
  }

  lemma RangeKept(rs: seq<Range>, ts: seq<Entry>, s0: int, s1: int, i: nat)
    requires Exact(rs, ts, s0, s1) && i < |rs|
    ensures AllKept(DeadIn(ts, s0, s1), rs[i].lo, rs[i].hi)
  {
    forall p | rs[i].lo <= p < rs[i].hi
      ensures p !in DeadIn(ts, s0, s1)
    {
      assert rs[i].Has(p);
      assert InSome(rs, p);
    }
  }

  /** Running length sums are ranks, at both ends of every gap. */
  lemma {:induction false} PrefixRanks(rs: seq<Range>, ts: seq<Entry>, s0: int, s1: int, i: nat)
    requires 0 <= s0 <= s1 && Canonical(rs, s0, s1) && Exact(rs, ts, s0, s1) && i <= |rs|
    ensures Rank(DeadIn(ts, s0, s1), GapLo(rs, s0, i)) == s0 + SumLengths(rs[..i])
    ensures Rank(DeadIn(ts, s0, s1), GapHi(rs, s1, i)) == s0 + SumLengths(rs[..i])
  {
    var dead := DeadIn(ts, s0, s1);
    if i == 0 {
      RankKept(dead, 0, s0);
    } else {
      PrefixRanks(rs, ts, s0, s1, i - 1);
      RangeKept(rs, ts, s0, s1, i - 1);
      GapOrder(rs, s0, s1, i - 1);
      RankKept(dead, rs[i - 1].lo, rs[i - 1].hi);
      assert rs[..i][..i - 1] == rs[..i - 1];
    }
    GapOrder(rs, s0, s1, i);
    GapDead(rs, ts, s0, s1, i);
    RankDead(dead, GapLo(rs, s0, i), GapHi(rs, s1, i));
  }

  /** The owned bytes of [s0, s1). */
  ghost function OwnedIn(ts: seq<Entry>, s0: int, s1: int): set<int> {
    set p | s0 <= p < s1 && Live(ts, p)
  }

  /** The lengths add up to the owned byte count of the shard, wherever it lies. */
  lemma RangesSum(rs: seq<Range>, ts: seq<Entry>, sh: Shard)
    requires sh.off <= sh.End() && Canonical(rs, sh.off, sh.End()) && Exact(rs, ts, sh.off, sh.End())
    ensures SumLengths(rs) == LiveBytes(ts, sh)
  {
    var owned, dead := OwnedIn(ts, sh.off, sh.End()), DeadOf(ts, sh);
    PositionsSize(rs, sh.off, sh.End());
    assert owned == Positions(rs, sh.off, sh.End());
    assert Interval(sh.off, sh.End()) == owned + dead && owned !! dead;
  }

  /** The lengths are also how far the end of the shard is from its start among the surviving bytes. */
  lemma RangesRank(rs: seq<Range>, ts: seq<Entry>, sh: Shard)
    requires 0 <= sh.off <= sh.End() && Canonical(rs, sh.off, sh.End()) && Exact(rs, ts, sh.off, sh.End())
    ensures SumLengths(rs) == Rank(DeadOf(ts, sh), sh.End()) - sh.off
  {
    PrefixRanks(rs, ts, sh.off, sh.End(), |rs|);
    assert rs[..|rs|] == rs;
  }

  // ------------------------------------------------------------ dirty shards

  datatype DirtyShard = DirtyShard(sh: Shard, live: seq<Range>, liveBytes: int)

  ghost function DirtyOf(ts: seq<Entry>, ss: seq<Shard>): seq<Shard> {
    if ss == [] then [] else
      var n := |ss| - 1;
      DirtyOf(ts, ss[..n]) + if DeadOf(ts, ss[n]) != {} then [ss[n]] else []
  }

  lemma {:induction false} DirtyOfSize(ts: seq<Entry>, ss: seq<Shard>)
    ensures |DirtyOf(ts, ss)| == Trues(Dirtiness(ts, ss))
  {
    if ss != [] {
      var n := |ss| - 1;
      DirtyOfSize(ts, ss[..n]);
      var flags := Dirtiness(ts, ss);
      assert flags == Dirtiness(ts, ss[..n]) + [flags[n]];
      TruesConcat(Dirtiness(ts, ss[..n]), [flags[n]]);
    }
  }

  lemma {:induction false} DirtyOfMember(ts: seq<Entry>, ss: seq<Shard>, i: nat) returns (k: nat)
    requires i < |DirtyOf(ts, ss)|
    ensures k < |ss| && ss[k] == DirtyOf(ts, ss)[i] && DeadOf(ts, ss[k]) != {}
  {
    var n := |ss| - 1;
    if i < |DirtyOf(ts, ss[..n])| {
      k := DirtyOfMember(ts, ss[..n], i);
    } else {
      k := n;
    }
  }

  ghost predicate Describes(d: DirtyShard, ts: seq<Entry>) {
    && Canonical(d.live, d.sh.off, d.sh.End())
    && Exact(d.live, ts, d.sh.off, d.sh.End())
    && d.liveBytes == LiveBytes(ts, d.sh) == SumLengths(d.live)
  }

  /** Shards holding unowned bytes, in offset order, with their owned ranges and byte count. */
  method DirtyShards(index: Index) returns (out: seq<DirtyShard>)
    ensures seq(|out|, i requires 0 <= i < |out| => out[i].sh) == DirtyOf(index.tensors, Ordered(index))
    ensures forall i :: 0 <= i < |out| ==> Describes(out[i], index.tensors)
    ensures |out| == DirtyCount(index)
  {
    out := [];
    var ss := Ordered(index);
    for k := 0 to |ss|
      invariant |out| == |DirtyOf(index.tensors, ss[..k])|
      invariant forall i :: 0 <= i < |out| ==> out[i].sh == DirtyOf(index.tensors, ss[..k])[i]
      invariant forall i :: 0 <= i < |out| ==> Describes(out[i], index.tensors)
    {
      var sh := ss[k];
      var live := LiveRanges(index.tensors, sh.off, sh.End());
      var liveBytes := SumLengths(live);
      if 0 <= sh.nbytes {
        RangesSum(live, index.tensors, sh);
      }
      assert ss[..k + 1][..k] == ss[..k];
      if liveBytes < sh.nbytes {
        out := out + [DirtyShard(sh, live, liveBytes)];
      }
    }
    assert ss[..|ss|] == ss;
    DirtyOfSize(index.tensors, ss);
  }

  // ------------------------------------------------------------ remap

  /** The number of leading elements not above `x`, by bisection of [lo, hi). */
  function BisectRight(a: seq<int>, x: int, lo: nat, hi: nat): (r: nat)
    requires lo <= hi <= |a| && forall i, j :: 0 <= i < j < |a| ==> a[i] <= a[j]
    requires forall i :: 0 <= i < lo ==> a[i] <= x
    requires forall i :: hi <= i < |a| ==> x < a[i]
    ensures r <= |a|
    ensures forall i :: 0 <= i < r ==> a[i] <= x
    ensures forall i :: r <= i < |a| ==> x < a[i]
    decreases hi - lo
  {
    if lo == hi then lo else
      var mid := (lo + hi) / 2;
      if x < a[mid] then BisectRight(a, x, lo, mid) else BisectRight(a, x, mid + 1, hi)
  }

  /** Where an offset of the rewritten shard goes; an offset in a dead gap goes to the next owned block. */
  function Remap(starts: seq<int>, live: seq<Range>, prefix: seq<int>, s0: int, go: int): int
    requires |starts| == |live| && |prefix| == |live| + 1
    requires forall i, j :: 0 <= i < j < |starts| ==> starts[i] <= starts[j]
  {
    RemapFrom(BisectRight(starts, go, 0, |starts|), starts, live, prefix, s0, go)
  }

  /** The same, once it is known that r of the ranges start at or before the offset. */
  function RemapFrom(r: nat, starts: seq<int>, live: seq<Range>, prefix: seq<int>, s0: int, go: int): int
    requires r <= |starts| == |live| && |prefix| == |live| + 1
  {
    var i := r - 1;
    if i < 0 || go >= live[i].hi then s0 + prefix[i + 1] else s0 + prefix[i] + (go - starts[i])
  }

  /** The lookup over ranges is the rank among surviving bytes, gaps included. */
  lemma RemapIsRank(starts: seq<int>, live: seq<Range>, prefix: seq<int>, ts: seq<Entry>, s0: int, s1: int, go: int)
    requires 0 <= s0 <= go <= s1 && Canonical(live, s0, s1) && Exact(live, ts, s0, s1)
    requires |starts| == |live| && forall i :: 0 <= i < |live| ==> starts[i] == live[i].lo
    requires |prefix| == |live| + 1 && forall i :: 0 <= i <= |live| ==> prefix[i] == SumLengths(live[..i])
    ensures forall i, j :: 0 <= i < j < |starts| ==> starts[i] <= starts[j]
    ensures Remap(starts, live, prefix, s0, go) == Rank(DeadIn(ts, s0, s1), go)
  {
    StartsAscend(starts, live, s0, s1);
    RemapFromIsRank(BisectRight(starts, go, 0, |starts|), starts, live, prefix, ts, s0, s1, go);
  }

  lemma RemapFromIsRank(r: nat, starts: seq<int>, live: seq<Range>, prefix: seq<int>, ts: seq<Entry>, s0: int, s1: int, go: int)
    requires 0 <= s0 <= go <= s1 && Canonical(live, s0, s1) && Exact(live, ts, s0, s1)
    requires |starts| == |live| && forall i :: 0 <= i < |live| ==> starts[i] == live[i].lo
    requires |prefix| == |live| + 1 && forall i :: 0 <= i <= |live| ==> prefix[i] == SumLengths(live[..i])
    requires r <= |starts| && (r < |starts| ==> go < starts[r]) && (0 < r ==> starts[r - 1] <= go)
    ensures RemapFrom(r, starts, live, prefix, s0, go) == Rank(DeadIn(ts, s0, s1), go)
  {
    RankAround(live, ts, s0, s1, r, go);
  }

  lemma StartsAscend(starts: seq<int>, live: seq<Range>, s0: int, s1: int)
    requires Canonical(live, s0, s1) && |starts| == |live| && forall i :: 0 <= i < |live| ==> starts[i] == live[i].lo
    ensures forall i, j :: 0 <= i < j < |starts| ==> starts[i] <= starts[j]
  {
    forall i, j | 0 <= i < j < |starts|
      ensures starts[i] <= starts[j]
    {
      assert live[i].lo < live[i].hi && live[i].hi < live[j].lo;
    }
  }

  /** The rank of an offset with r ranges starting at or before it. */
  lemma RankAround(rs: seq<Range>, ts: seq<Entry>, s0: int, s1: int, r: nat, go: int)
    requires 0 <= s0 <= go <= s1 && Canonical(rs, s0, s1) && Exact(rs, ts, s0, s1) && r <= |rs|
    requires (r < |rs| ==> go < rs[r].lo) && (0 < r ==> rs[r - 1].lo <= go)
    ensures Rank(DeadIn(ts, s0, s1), go) ==
              if r == 0 || go >= rs[r - 1].hi then s0 + SumLengths(rs[..r])
              else s0 + SumLengths(rs[..r - 1]) + (go - rs[r - 1].lo)
  {
    if r == 0 || go >= rs[r - 1].hi {
      RankInGap(rs, ts, s0, s1, r, go);
    } else {
      RankInRange(rs, ts, s0, s1, r - 1, go);
    }
  }

  /** In the gap before range i the rank is what the ranges before it add up to. */
  lemma RankInGap(rs: seq<Range>, ts: seq<Entry>, s0: int, s1: int, i: nat, go: int)
    requires 0 <= s0 <= s1 && Canonical(rs, s0, s1) && Exact(rs, ts, s0, s1) && i <= |rs|
    requires GapLo(rs, s0, i) <= go <= GapHi(rs, s1, i)
    ensures Rank(DeadIn(ts, s0, s1), go) == s0 + SumLengths(rs[..i])
  {
    PrefixRanks(rs, ts, s0, s1, i);
    GapOrder(rs, s0, s1, i);
    GapDead(rs, ts, s0, s1, i);
    RankDead(DeadIn(ts, s0, s1), GapLo(rs, s0, i), go);
  }

  /** Inside range i the rank counts on from there. */
  lemma RankInRange(rs: seq<Range>, ts: seq<Entry>, s0: int, s1: int, i: nat, go: int)
    requires 0 <= s0 <= s1 && Canonical(rs, s0, s1) && Exact(rs, ts, s0, s1) && i < |rs|
    requires rs[i].lo <= go <= rs[i].hi
    ensures Rank(DeadIn(ts, s0, s1), go) == s0 + SumLengths(rs[..i]) + (go - rs[i].lo)
  {
    PrefixRanks(rs, ts, s0, s1, i);
    RangeKept(rs, ts, s0, s1, i);
    RankKept(DeadIn(ts, s0, s1), rs[i].lo, go);
  }
}
