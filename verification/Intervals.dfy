/** Half-open integer ranges: membership, length, and merging of sorted ranges. */
module Intervals {
  import opened Sorting

  datatype Range = Range(lo: int, hi: int) {
    ghost predicate Has(p: int) {
      lo <= p < hi
    }
  }

  predicate RangeLe(a: Range, b: Range) {
    a.lo < b.lo || (a.lo == b.lo && a.hi <= b.hi)
  }

  ghost predicate InSome(rs: seq<Range>, p: int) {
    exists i :: 0 <= i < |rs| && rs[i].Has(p)
  }

  /** The positions from a to b - 1. */
  ghost function Interval(a: int, b: int): (s: set<int>)
    requires a <= b
    ensures forall p :: p in s <==> a <= p < b
    ensures |s| == b - a
    decreases b - a
  {
    if a == b then {} else Interval(a, b - 1) + {b - 1}
  }

  /** Ranges inside [s0, s1], ascending, with a gap between neighbours. */
  ghost predicate Spaced(rs: seq<Range>, s0: int, s1: int) {
    && (forall i :: 0 <= i < |rs| ==> s0 <= rs[i].lo <= rs[i].hi <= s1)
    && (forall i, j :: 0 <= i < j < |rs| ==> rs[i].hi < rs[j].lo)
  }

  ghost predicate NonEmpty(rs: seq<Range>) {
    forall i :: 0 <= i < |rs| ==> rs[i].lo < rs[i].hi
  }

  function SumLengths(rs: seq<Range>): int {
    if rs == [] then 0 else SumLengths(rs[..|rs| - 1]) + rs[|rs| - 1].hi - rs[|rs| - 1].lo
  }

  lemma {:induction false} SumGrows(rs: seq<Range>, i: nat)
    requires i <= |rs| && forall k :: 0 <= k < |rs| ==> rs[k].lo <= rs[k].hi
    ensures 0 <= SumLengths(rs[..i])
    ensures i < |rs| ==> SumLengths(rs[..i + 1]) == SumLengths(rs[..i]) + rs[i].hi - rs[i].lo
  {
    if i > 0 {
      SumGrows(rs, i - 1);
    }
    if i < |rs| {
      assert rs[..i + 1][..i] == rs[..i];
    }
  }

  /** The positions the ranges cover. */
  ghost function Positions(rs: seq<Range>, s0: int, s1: int): set<int> {
    set p | s0 <= p < s1 && InSome(rs, p)
  }

  /** Ranges inside [s0, s1], in order; they may touch. */
  ghost predicate InRow(rs: seq<Range>, s0: int, s1: int) {
    && (forall i :: 0 <= i < |rs| ==> s0 <= rs[i].lo <= rs[i].hi <= s1)
    && (forall i, j :: 0 <= i < j < |rs| ==> rs[i].hi <= rs[j].lo)
  }

  lemma PositionsSplit(rs: seq<Range>, s0: int, s1: int)
    requires InRow(rs, s0, s1) && rs != []
    ensures var init, last := rs[..|rs| - 1], rs[|rs| - 1];
            && Positions(rs, s0, s1) == Positions(init, s0, s1) + Interval(last.lo, last.hi)
            && Positions(init, s0, s1) !! Interval(last.lo, last.hi)
  {
    var init, last := rs[..|rs| - 1], rs[|rs| - 1];
    assert rs == init + [last];
    AppendCovers(init, last);
    forall p | InSome(init, p)
      ensures p < last.lo
    {
      var i :| 0 <= i < |init| && init[i].Has(p);
      assert rs[i] == init[i];
    }
  }

  /** Ranges in a row cover as many positions as their lengths add up to. */
  lemma {:induction false} PositionsSize(rs: seq<Range>, s0: int, s1: int)
    requires InRow(rs, s0, s1)
    ensures |Positions(rs, s0, s1)| == SumLengths(rs)
  {
    if rs == [] {
      assert Positions(rs, s0, s1) == {};
    } else {
      PositionsSize(rs[..|rs| - 1], s0, s1);
      PositionsSplit(rs, s0, s1);
    }
  }

  lemma InSomeAppend(rs: seq<Range>, r: Range, p: int)
    ensures InSome(rs + [r], p) <==> InSome(rs, p) || r.Has(p)
  {
    var all := rs + [r];
    if InSome(rs, p) {
      var i :| 0 <= i < |rs| && rs[i].Has(p);
      assert all[i].Has(p);
    }
    if r.Has(p) {
      assert all[|rs|].Has(p);
    }
  }

  lemma InSomeSorted(rs: seq<Range>, p: int)
    ensures InSome(Sort(RangeLe, rs), p) <==> InSome(rs, p)
  {
    var sorted := Sort(RangeLe, rs);
    if InSome(sorted, p) {
      var i :| 0 <= i < |sorted| && sorted[i].Has(p);
      SortMembers(RangeLe, rs, sorted[i]);
    }
    if InSome(rs, p) {
      var i :| 0 <= i < |rs| && rs[i].Has(p);
      SortMembers(RangeLe, rs, rs[i]);
    }
  }

  /** Nothing reaches beyond the last range. */
  ghost predicate EndsLast(rs: seq<Range>, merged: seq<Range>) {
    forall i :: 0 <= i < |rs| ==> merged != [] && rs[i].hi <= merged[|merged| - 1].hi
  }

  /** Joins sorted ranges that touch or overlap. */
  method Merge(rs: seq<Range>, ghost s0: int, ghost s1: int) returns (merged: seq<Range>)
    requires Sorted(RangeLe, rs)
    requires forall i :: 0 <= i < |rs| ==> s0 <= rs[i].lo <= rs[i].hi <= s1
    ensures Spaced(merged, s0, s1) && (NonEmpty(rs) ==> NonEmpty(merged))
    ensures forall p :: InSome(merged, p) <==> InSome(rs, p)
    ensures |merged| <= |rs| && EndsLast(rs, merged)
    ensures rs != [] ==> merged != [] && merged[0].lo == rs[0].lo
  {
    merged := [];
    for k := 0 to |rs|
      invariant Spaced(merged, s0, s1) && (NonEmpty(rs) ==> NonEmpty(merged))
      invariant |merged| <= k && EndsLast(rs[..k], merged)
      invariant k > 0 ==> merged != [] && merged[0].lo == rs[0].lo && merged[|merged| - 1].lo <= rs[k - 1].lo
      invariant forall p :: InSome(merged, p) <==> InSome(rs[..k], p)
    {
      ghost var before := merged;
      var r := rs[k];
      assert k > 0 ==> RangeLe(rs[k - 1], r);
      merged := MergeOne(merged, r, s0, s1);
      assert rs[..k + 1] == rs[..k] + [r];
      forall p
        ensures InSome(merged, p) <==> InSome(rs[..k + 1], p)
      {
        assert InSome(before, p) <==> InSome(rs[..k], p);
        InSomeAppend(rs[..k], r, p);
      }
    }
    assert rs[..|rs|] == rs;
  }

  /** Extends the last range by r, or adds r behind it. */
  method MergeOne(merged: seq<Range>, r: Range, ghost s0: int, ghost s1: int) returns (out: seq<Range>)
    requires Spaced(merged, s0, s1) && s0 <= r.lo <= r.hi <= s1
    requires merged != [] ==> merged[|merged| - 1].lo <= r.lo
    ensures Spaced(out, s0, s1) && (r.lo < r.hi && NonEmpty(merged) ==> NonEmpty(out))
    ensures forall p :: InSome(out, p) <==> InSome(merged, p) || r.Has(p)
    ensures out != [] && |out| <= |merged| + 1 && out[|out| - 1].lo <= r.lo && r.hi <= out[|out| - 1].hi
    ensures merged != [] ==> out[0].lo == merged[0].lo && merged[|merged| - 1].hi <= out[|out| - 1].hi
    ensures merged == [] ==> out == [r]
  {
    var n := |merged| - 1;
    if merged != [] && r.lo <= merged[n].hi {
      var wide := Range(merged[n].lo, if merged[n].hi < r.hi then r.hi else merged[n].hi);
      out := merged[..n] + [wide];
      WidenCovers(merged, r, wide);
      SpacedAppend(merged[..n], wide, s0, s1);
    } else {
      out := merged + [r];
      AppendCovers(merged, r);
      SpacedAppend(merged, r, s0, s1);
    }
  }

  lemma SpacedAppend(rs: seq<Range>, r: Range, s0: int, s1: int)
    requires Spaced(rs, s0, s1) && s0 <= r.lo <= r.hi <= s1 && forall i :: 0 <= i < |rs| ==> rs[i].hi < r.lo
    ensures Spaced(rs + [r], s0, s1)
  {
  }

  lemma AppendCovers(rs: seq<Range>, r: Range)
    ensures forall p :: InSome(rs + [r], p) <==> InSome(rs, p) || r.Has(p)
  {
    forall p
      ensures InSome(rs + [r], p) <==> InSome(rs, p) || r.Has(p)
    {
      InSomeAppend(rs, r, p);
    }
  }

  /** Widening the last range by one that touches it covers just both. */
  lemma WidenCovers(merged: seq<Range>, r: Range, wide: Range)
    requires merged != [] && merged[|merged| - 1].lo <= r.lo <= merged[|merged| - 1].hi
    requires merged[|merged| - 1].lo <= merged[|merged| - 1].hi && r.lo <= r.hi
    requires wide.lo == merged[|merged| - 1].lo
    requires wide.hi == if merged[|merged| - 1].hi < r.hi then r.hi else merged[|merged| - 1].hi
    ensures forall p :: InSome(merged[..|merged| - 1] + [wide], p) <==> InSome(merged, p) || r.Has(p)
  {
    var init, last := merged[..|merged| - 1], merged[|merged| - 1];
    assert merged == init + [last];
    forall p
      ensures InSome(init + [wide], p) <==> InSome(merged, p) || r.Has(p)
    {
      InSomeAppend(init, last, p);
      InSomeAppend(init, wide, p);
    }
  }
}
