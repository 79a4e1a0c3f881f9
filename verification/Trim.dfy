/**
 Cutting filler out of a long prompt, in token space: protected spans stay, and the gaps
 between them give up tokens in proportion to their size.
 */
module Trim {
  import opened Basics
  import opened Sorting
  import opened Intervals
  import opened Deletion
  import opened Shares

  datatype TrimError = TargetTooSmall | NeedleAbsent | TargetBelowProtected

  datatype Trimmed = Kept(ids: seq<int>) | Failed(error: TrimError)

  // ------------------------------------------------------------ the needle

  ghost predicate OccursAt(ids: seq<int>, needle: seq<int>, i: int) {
    0 <= i && i + |needle| <= |ids| && ids[i..i + |needle|] == needle
  }

  /** The first place the needle occurs, or -1. */
  method NeedleIndex(ids: seq<int>, needle: seq<int>) returns (at: int)
    ensures at == -1 || OccursAt(ids, needle, at)
    ensures forall i :: 0 <= i < (if at < 0 then |ids| + 1 else at) ==> !OccursAt(ids, needle, i)
  {
    var i := 0;
    while i < |ids| - |needle| + 1
      invariant 0 <= i
      invariant forall j :: 0 <= j < i ==> !OccursAt(ids, needle, j)
    {
      if ids[i..i + |needle|] == needle {
        return i;
      }
      i := i + 1;
    }
    return -1;
  }

  // ------------------------------------------------------------ protected spans and gaps

  function Protected(n: nat, at: int, width: nat, prefix: nat, context: nat, tail: nat): seq<Range>
    requires 0 <= at && at + width <= n
  {
    [Range(0, if prefix < n then prefix else n),
     Range(if at < context then 0 else at - context, if n < at + width + context then n else at + width + context),
     Range(if n < tail then 0 else n - tail, n)]
  }

  /** Non-empty stretches of [0, n), in order; they may touch. */
  ghost predicate InSequence(gaps: seq<Range>, n: int) {
    InRow(gaps, 0, n) && NonEmpty(gaps)
  }

  ghost predicate Complement(gaps: seq<Range>, spans: seq<Range>, n: int) {
    forall p :: InSome(gaps, p) <==> 0 <= p < n && !InSome(spans, p)
  }

  lemma AscendingPrefix(spans: seq<Range>, n: int, k: nat, p: int)
    requires Spaced(spans, 0, n) && k <= |spans| && k > 0
    ensures p >= spans[k - 1].hi ==> !InSome(spans[..k], p)
    ensures p < spans[k - 1].hi ==> (InSome(spans[..k], p) <==> InSome(spans, p))
  {
    if p >= spans[k - 1].hi {
      forall i | 0 <= i < k
        ensures !spans[i].Has(p)
      {
        assert i < k - 1 ==> spans[i].hi < spans[k - 1].lo;
      }
    }
    if p < spans[k - 1].hi && InSome(spans, p) {
      var i :| 0 <= i < |spans| && spans[i].Has(p);
      assert spans[..k][i].Has(p);
    }
    if InSome(spans[..k], p) {
      var i :| 0 <= i < k && spans[..k][i].Has(p);
      assert spans[i].Has(p);
    }
  }

  /** The stretches between ascending spans that reach both ends of [0, n). */
  method Gaps(spans: seq<Range>, n: nat) returns (gaps: seq<Range>)
    requires spans != [] && Spaced(spans, 0, n) && spans[0].lo == 0 && spans[|spans| - 1].hi == n
    ensures InSequence(gaps, n) && Complement(gaps, spans, n)
    ensures |gaps| <= |spans| - 1
  {
    gaps := [];
    var cursor := 0;
    for k := 0 to |spans|
      invariant cursor == if k == 0 then 0 else spans[k - 1].hi
      invariant InSequence(gaps, n) && (k == 0 ==> gaps == []) && (k > 0 ==> |gaps| <= k - 1)
      invariant forall i :: 0 <= i < |gaps| ==> k > 0 && gaps[i].hi <= spans[k - 1].lo
      invariant forall p :: InSome(gaps, p) <==> 0 <= p < cursor && !InSome(spans[..k], p)
    {
      ghost var before := gaps;
      var span := spans[k];
      assert k > 0 ==> spans[k - 1].hi < span.lo;
      if cursor < span.lo {
        gaps := gaps + [Range(cursor, span.lo)];
      }
      assert spans[..k + 1] == spans[..k] + [span];
      forall p
        ensures InSome(gaps, p) <==> 0 <= p < span.hi && !InSome(spans[..k + 1], p)
      {
        assert InSome(before, p) <==> 0 <= p < cursor && !InSome(spans[..k], p);
        InSomeAppend(before, Range(cursor, span.lo), p);
        InSomeAppend(spans[..k], span, p);
        if k > 0 {
          AscendingPrefix(spans, n, k, p);
        }
      }
      cursor := span.hi;
    }
    assert spans[..|spans|] == spans;
  }

  // ------------------------------------------------------------ cutting

  ghost function Covered(r: Range): set<int> {
    set p | r.lo <= p < r.hi && r.Has(p)
  }

  /** The positions cut from the gaps from the j-th on: the first taken[i] of gap i. */
  ghost function CutFrom(gaps: seq<Range>, taken: seq<nat>, j: nat): set<int>
    requires |gaps| == |taken| && j <= |gaps|
    decreases |gaps| - j
  {
    if j == |gaps| then {} else CutFrom(gaps, taken, j + 1) + Covered(Range(gaps[j].lo, gaps[j].lo + taken[j]))
  }

  lemma {:induction false} CutInside(gaps: seq<Range>, taken: seq<nat>, n: int, j: nat, p: int)
    requires |gaps| == |taken| && j <= |gaps| && InSequence(gaps, n)
    requires forall i :: 0 <= i < |gaps| ==> taken[i] <= gaps[i].hi - gaps[i].lo
    requires p in CutFrom(gaps, taken, j)
    ensures InSome(gaps, p) && (j < |gaps| ==> gaps[j].lo <= p)
    decreases |gaps| - j
  {
    if p in Covered(Range(gaps[j].lo, gaps[j].lo + taken[j])) {
      assert gaps[j].Has(p);
    } else {
      CutInside(gaps, taken, n, j + 1, p);
      assert j + 1 < |gaps|;
    }
  }

  lemma SiftHead(all: set<int>, ids: seq<int>, lo: nat)
    requires lo <= |ids| && AllKept(all, 0, lo) && AllDead(all, lo, |ids|)
    ensures Sift(all, ids) == ids[..lo]
  {
    RankKept(all, 0, lo);
    RankDead(all, lo, |ids|);
    SiftSlice(all, ids, 0, lo);
    SiftPrefix(all, ids, lo);
  }

  /** Cutting a stretch in front of everything cut so far. */
  lemma {:induction false} SiftCut(dead: set<int>, ids: seq<int>, lo: nat, hi: nat, all: set<int>)
    requires lo <= hi <= |ids| && (forall p :: p in dead ==> hi <= p)
    requires forall p :: 0 <= p < |ids| ==> (p in all <==> p in dead || lo <= p < hi)
    ensures hi <= |Sift(dead, ids)|
    ensures Sift(all, ids) == Sift(dead, ids)[..lo] + Sift(dead, ids)[hi..]
    decreases |ids|
  {
    if |ids| == hi {
      SiftHead(dead, ids, hi);
      SiftHead(all, ids, lo);
    } else {
      var n := |ids| - 1;
      var init := ids[..n];
      SiftCut(dead, init, lo, hi, all);
      assert ids == init + [ids[n]];
      SiftNext(dead, init, ids[n]);
      SiftNext(all, init, ids[n]);
      CutNext(Sift(dead, init), ids[n], lo, hi);
    }
  }

  lemma CutNext(s: seq<int>, x: int, lo: nat, hi: nat)
    requires lo <= hi <= |s|
    ensures (s + [x])[..lo] + (s + [x])[hi..] == s[..lo] + s[hi..] + [x]
  {
  }

  /** Deletes the cuts from the last to the first. */
  method DeleteCuts(ids: seq<int>, gaps: seq<Range>, taken: seq<nat>) returns (out: seq<int>)
    requires |gaps| == |taken| && InSequence(gaps, |ids|)
    requires forall i :: 0 <= i < |gaps| ==> taken[i] <= gaps[i].hi - gaps[i].lo
    ensures out == Sift(CutFrom(gaps, taken, 0), ids)
    ensures |out| == |ids| - Sum(taken)
  {
    out := ids;
    SiftNothing(ids);
    var j := |gaps|;
    assert taken[j..] == [];
    while j > 0
      invariant 0 <= j <= |gaps| && out == Sift(CutFrom(gaps, taken, j), ids)
      invariant |out| + Sum(taken[j..]) == |ids|
    {
      j := j - 1;
      var lo, hi := gaps[j].lo, gaps[j].lo + taken[j];
      ghost var dead := CutFrom(gaps, taken, j + 1);
      forall p | p in dead
        ensures hi <= p
      {
        CutInside(gaps, taken, |ids|, j + 1, p);
        assert j + 1 < |gaps|;
      }
      SiftCut(dead, ids, lo, hi, CutFrom(gaps, taken, j));
      SumFront(taken, j);
      out := out[..lo] + out[hi..];
    }
    assert taken[0..] == taken;
  }

  lemma {:induction false} SumFront(s: seq<nat>, j: nat)
    requires j < |s|
    ensures Sum(s[j..]) == s[j] + Sum(s[j + 1..])
    decreases |s|
  {
    var n := |s| - 1;
    if j < n {
      SumFront(s[..n], j);
      assert s[j..][..n - j] == s[..n][j..] && s[j + 1..][..n - j - 1] == s[..n][j + 1..];
    } else {
      assert s[j..] == [s[j]] && s[j + 1..] == [];
      assert [s[j]][..0] == [];
    }
  }

  // ------------------------------------------------------------ the whole cut

  ghost predicate IsFirst(ids: seq<int>, needle: seq<int>, at: int) {
    OccursAt(ids, needle, at) && forall i :: 0 <= i < at ==> !OccursAt(ids, needle, i)
  }

  /** The positions that may not go: the beginning, the needle with its context, and the tail. */
  ghost predicate MustStay(n: nat, at: int, width: nat, prefix: nat, context: nat, tail: nat, p: int) {
    p < prefix || at - context <= p < at + width + context || n - tail <= p
  }

  ghost function Staying(n: nat, at: int, width: nat, prefix: nat, context: nat, tail: nat): set<int> {
    set p | 0 <= p < n && MustStay(n, at, width, prefix, context, tail, p)
  }

  function Lens(gaps: seq<Range>): seq<nat>
    requires forall i :: 0 <= i < |gaps| ==> gaps[i].lo <= gaps[i].hi
  {
    seq(|gaps|, i requires 0 <= i < |gaps| => gaps[i].hi - gaps[i].lo)
  }

  lemma LensNext(gaps: seq<Range>, n: nat)
    requires InSequence(gaps, n) && gaps != []
    ensures var init, last := gaps[..|gaps| - 1], gaps[|gaps| - 1];
            InSequence(init, n) && Sum(Lens(gaps)) == Sum(Lens(init)) + (last.hi - last.lo)
  {
    var init := gaps[..|gaps| - 1];
    assert InSequence(init, n);
    assert Lens(gaps)[..|gaps| - 1] == Lens(init);
  }

  lemma {:induction false} LensSum(gaps: seq<Range>, n: nat)
    requires InSequence(gaps, n)
    ensures SumLengths(gaps) == Sum(Lens(gaps))
  {
    if gaps != [] {
      LensNext(gaps, n);
      LensSum(gaps[..|gaps| - 1], n);
    }
  }

  /** The gaps have room for everything that may go. */
  lemma Capacity(gaps: seq<Range>, staying: set<int>, n: nat)
    requires InSequence(gaps, n) && Between(gaps, staying, n) && forall p :: p in staying ==> 0 <= p < n
    ensures Sum(Lens(gaps)) == n - |staying|
  {
    LensSum(gaps, n);
    PositionsSize(gaps, 0, n);
    var free := Positions(gaps, 0, n);
    assert Interval(0, n) == free + staying && free !! staying;
  }

  /** Sorting keeps the bounds; a span that starts at 0 comes to the front. */
  lemma SortedSpans(spans: seq<Range>, n: nat, first: nat, last: nat)
    requires first < |spans| && last < |spans| && spans[first].lo == 0 && spans[last].hi == n
    requires forall i :: 0 <= i < |spans| ==> 0 <= spans[i].lo <= spans[i].hi <= n
    ensures var sorted := Sort(RangeLe, spans);
            && |sorted| == |spans| && Sorted(RangeLe, sorted) && sorted[0].lo == 0
            && (forall i :: 0 <= i < |sorted| ==> 0 <= sorted[i].lo <= sorted[i].hi <= n)
            && (exists i :: 0 <= i < |sorted| && sorted[i].hi == n)
  {
    var sorted := Sort(RangeLe, spans);
    SortCorrect(RangeLe, spans);
    forall i | 0 <= i < |sorted|
      ensures 0 <= sorted[i].lo <= sorted[i].hi <= n
    {
      SortMembers(RangeLe, spans, sorted[i]);
    }
    SortMembers(RangeLe, spans, spans[first]);
    SortMembers(RangeLe, spans, spans[last]);
    var i :| 0 <= i < |sorted| && sorted[i] == spans[first];
    assert i == 0 || RangeLe(sorted[0], sorted[i]);
    var j :| 0 <= j < |sorted| && sorted[j] == spans[last];
    assert sorted[j].hi == n;
  }

  /** The merged spans cover just the positions that may not go. */
  method MergedProtected(n: nat, at: int, width: nat, prefix: nat, context: nat, tail: nat) returns (merged: seq<Range>)
    requires 0 <= at && at + width <= n
    ensures merged != [] && |merged| <= 3 && Spaced(merged, 0, n) && merged[0].lo == 0 && merged[|merged| - 1].hi == n
    ensures forall p :: InSome(merged, p) <==> p in Staying(n, at, width, prefix, context, tail)
  {
    var spans := Protected(n, at, width, prefix, context, tail);
    merged := MergeSpans(spans, n, 0, 2);
    forall p
      ensures InSome(merged, p) <==> p in Staying(n, at, width, prefix, context, tail)
    {
      assert InSome(spans, p) <==> spans[0].Has(p) || spans[1].Has(p) || spans[2].Has(p);
    }
  }

  method MergeSpans(spans: seq<Range>, n: nat, ghost first: nat, ghost last: nat) returns (merged: seq<Range>)
    requires first < |spans| && last < |spans| && spans[first].lo == 0 && spans[last].hi == n
    requires forall i :: 0 <= i < |spans| ==> 0 <= spans[i].lo <= spans[i].hi <= n
    ensures merged != [] && |merged| <= |spans| && Spaced(merged, 0, n) && merged[0].lo == 0 && merged[|merged| - 1].hi == n
    ensures forall p :: InSome(merged, p) <==> InSome(spans, p)
  {
    SortedSpans(spans, n, first, last);
    var sorted := Sort(RangeLe, spans);
    merged := Merge(sorted, 0, n);
    forall p
      ensures InSome(merged, p) <==> InSome(spans, p)
    {
      InSomeSorted(spans, p);
    }
  }

  /** The cut as made: which positions went, from which gaps, and how many from each. */
  datatype Cut = Cut(positions: set<int>, gaps: seq<Range>, taken: seq<nat>)

  /** The gaps are the stretches of [0, n) that may go. */
  ghost predicate Between(gaps: seq<Range>, staying: set<int>, n: nat) {
    forall p :: InSome(gaps, p) <==> 0 <= p < n && p !in staying
  }

  /** p is among the first taken[i] positions of gap i. */
  ghost predicate InFront(gaps: seq<Range>, taken: seq<nat>, i: nat, p: int)
    requires i < |gaps| == |taken|
  {
    gaps[i].lo <= p < gaps[i].lo + taken[i]
  }

  ghost predicate InSomeFront(gaps: seq<Range>, taken: seq<nat>, p: int)
    requires |gaps| == |taken|
  {
    exists i :: 0 <= i < |gaps| && InFront(gaps, taken, i, p)
  }

  /** Just the first taken[i] positions of each gap went. */
  ghost predicate Fronts(cut: Cut)
    requires |cut.gaps| == |cut.taken|
  {
    forall p :: p in cut.positions <==> InSomeFront(cut.gaps, cut.taken, p)
  }

  /** Each gap loses tokens from its front: its share of what must go, to within one. */
  ghost predicate FairCut(cut: Cut, staying: set<int>, n: nat, remove: nat) {
    && InSequence(cut.gaps, n) && Between(cut.gaps, staying, n) && |cut.gaps| == |cut.taken| && Fronts(cut)
    && forall i :: 0 <= i < |cut.gaps| ==>
      ShareOf(cut.taken[i], cut.gaps[i].hi - cut.gaps[i].lo, remove, n - |staying|, 1)
  }

  lemma CutFromNext(gaps: seq<Range>, taken: seq<nat>, j: nat, p: int)
    requires j < |gaps| == |taken|
    ensures p in CutFrom(gaps, taken, j) <==> p in CutFrom(gaps, taken, j + 1) || InFront(gaps, taken, j, p)
  {
  }

  lemma {:induction false} CutFromFound(gaps: seq<Range>, taken: seq<nat>, j: nat, p: int) returns (i: nat)
    requires |gaps| == |taken| && j <= |gaps| && p in CutFrom(gaps, taken, j)
    ensures i < |gaps| && InFront(gaps, taken, i, p)
    decreases |gaps| - j
  {
    if j == |gaps| {
      assert false;
    } else {
      CutFromNext(gaps, taken, j, p);
      if InFront(gaps, taken, j, p) {
        i := j;
      } else {
        i := CutFromFound(gaps, taken, j + 1, p);
      }
    }
  }

  lemma {:induction false} CutFromHas(gaps: seq<Range>, taken: seq<nat>, j: nat, i: nat, p: int)
    requires |gaps| == |taken| && j <= i < |gaps| && InFront(gaps, taken, i, p)
    ensures p in CutFrom(gaps, taken, j)
    decreases i - j
  {
    CutFromNext(gaps, taken, j, p);
    if j < i {
      CutFromHas(gaps, taken, j + 1, i, p);
    }
  }

  lemma CutFromFronts(cut: Cut)
    requires |cut.gaps| == |cut.taken| && cut.positions == CutFrom(cut.gaps, cut.taken, 0)
    ensures Fronts(cut)
  {
    forall p | p in cut.positions
      ensures InSomeFront(cut.gaps, cut.taken, p)
    {
      var i := CutFromFound(cut.gaps, cut.taken, 0, p);
    }
    forall p | InSomeFront(cut.gaps, cut.taken, p)
      ensures p in cut.positions
    {
      var i :| 0 <= i < |cut.gaps| && InFront(cut.gaps, cut.taken, i, p);
      CutFromHas(cut.gaps, cut.taken, 0, i, p);
    }
  }

  lemma SharesFair(gaps: seq<Range>, taken: seq<nat>, n: nat, remove: nat, capacity: nat)
    requires InSequence(gaps, n) && |gaps| == |taken| <= 2 && capacity == Sum(Lens(gaps))
    requires Proportional(taken, Lens(gaps), remove, |gaps| - 1)
    ensures forall i :: 0 <= i < |gaps| ==> ShareOf(taken[i], gaps[i].hi - gaps[i].lo, remove, capacity, 1)
  {
    forall i | 0 <= i < |gaps|
      ensures ShareOf(taken[i], gaps[i].hi - gaps[i].lo, remove, capacity, 1)
    {
      assert ShareOf(taken[i], Lens(gaps)[i], remove, capacity, |gaps| - 1);
      MulMono(capacity, |gaps| - 1, 1);
    }
  }

  /** No position that may not go is cut. */
  lemma CutIsFree(cut: Cut, staying: set<int>, n: nat, remove: nat, p: int)
    requires FairCut(cut, staying, n, remove) && p in cut.positions
    ensures p !in staying
  {
    assert InSomeFront(cut.gaps, cut.taken, p);
    var i :| 0 <= i < |cut.gaps| && InFront(cut.gaps, cut.taken, i, p);
    assert ShareOf(cut.taken[i], cut.gaps[i].hi - cut.gaps[i].lo, remove, n - |staying|, 1);
    assert cut.gaps[i].Has(p);
    assert InSome(cut.gaps, p);
  }

  lemma CutSpares(cut: Cut, staying: set<int>, n: nat, remove: nat, lo: int, hi: int)
    requires FairCut(cut, staying, n, remove) && forall p :: lo <= p < hi ==> p in staying
    ensures AllKept(cut.positions, lo, hi)
  {
    forall p | p in cut.positions
      ensures p !in staying
    {
      CutIsFree(cut, staying, n, remove, p);
    }
  }

  /** Removes `remove` tokens from the gaps, or reports that too few may go. */
  method CutGaps(ids: seq<int>, merged: seq<Range>, remove: nat, ghost staying: set<int>) returns (r: Trimmed, ghost cut: Cut)
    requires remove > 0 && merged != [] && |merged| <= 3
    requires Spaced(merged, 0, |ids|) && merged[0].lo == 0 && merged[|merged| - 1].hi == |ids|
    requires (forall p :: p in staying ==> 0 <= p < |ids|) && forall p :: InSome(merged, p) <==> p in staying
    ensures r.Failed? <==> |ids| - remove < |staying|
    ensures r.Failed? ==> r.error == TargetBelowProtected
    ensures r.Kept? ==> FairCut(cut, staying, |ids|, remove) && r.ids == Sift(cut.positions, ids) && |r.ids| == |ids| - remove
  {
    var gaps := Gaps(merged, |ids|);
    var lens := Lens(gaps);
    cut := Cut({}, gaps, []);
    assert Between(gaps, staying, |ids|);
    Capacity(gaps, staying, |ids|);
    if remove > Sum(lens) {
      return Failed(TargetBelowProtected), cut;
    }
    var out;
    out, cut := CutFairly(ids, gaps, remove);
    return Kept(out), cut;
  }

  /** Takes `remove` tokens from gaps that have as many. */
  method CutFairly(ids: seq<int>, gaps: seq<Range>, remove: nat) returns (out: seq<int>, ghost cut: Cut)
    requires InSequence(gaps, |ids|) && |gaps| <= 2 && 0 < remove <= Sum(Lens(gaps))
    ensures cut.gaps == gaps && |cut.taken| == |gaps| && Fronts(cut)
    ensures forall i :: 0 <= i < |gaps| ==> ShareOf(cut.taken[i], gaps[i].hi - gaps[i].lo, remove, Sum(Lens(gaps)), 1)
    ensures out == Sift(cut.positions, ids) && |out| == |ids| - remove
  {
    var taken := Apportion(Lens(gaps), remove);
    SharesFair(gaps, taken, |ids|, remove, Sum(Lens(gaps)));
    out := DeleteCuts(ids, gaps, taken);
    cut := Cut(CutFrom(gaps, taken, 0), gaps, taken);
    CutFromFronts(cut);
  }

  // ------------------------------------------------------------ what comes through

  /** The needle stands at `q` in the result, with up to `context` tokens of its old surroundings on each side. */
  ghost predicate ShownInContext(ids: seq<int>, out: seq<int>, at: int, q: int, width: nat, context: nat) {
    var before, after := Min(context, at), Min(context, |ids| - at - width);
    && 0 <= before <= at && 0 <= after <= |ids| - at - width && before <= q && q + width + after <= |out|
    && out[q - before..q + width + after] == ids[at - before..at + width + after]
  }

  /** The result begins and ends like the original. */
  ghost predicate EndsAlike(ids: seq<int>, out: seq<int>, prefix: nat, tail: nat) {
    var p, t := Min(prefix, |ids|), Min(tail, |ids|);
    && p <= |out| && out[..p] == ids[..p]
    && t <= |out| && out[|out| - t..] == ids[|ids| - t..]
  }

  lemma ContextComesThrough(ids: seq<int>, dead: set<int>, at: nat, width: nat, context: nat)
    requires at + width <= |ids|
    requires AllKept(dead, at - Min(context, at), at + width + Min(context, |ids| - at - width))
    ensures ShownInContext(ids, Sift(dead, ids), at, Rank(dead, at), width, context)
  {
    var before, after := Min(context, at), Min(context, |ids| - at - width);
    SiftSlice(dead, ids, at - before, at + width + after);
    RankKept(dead, at - before, at);
    RankKept(dead, at, at + width + after);
  }

  lemma NeedleComesThrough(ids: seq<int>, out: seq<int>, needle: seq<int>, at: int, q: int, context: nat)
    requires OccursAt(ids, needle, at) && ShownInContext(ids, out, at, q, |needle|, context)
    ensures OccursAt(out, needle, q)
  {
    var before, after := Min(context, at), Min(context, |ids| - at - |needle|);
    SliceOfSlice(out, q - before, q + |needle| + after, before, before + |needle|);
    SliceOfSlice(ids, at - before, at + |needle| + after, before, before + |needle|);
  }

  lemma BeginningComesThrough(ids: seq<int>, dead: set<int>, p: nat)
    requires p <= |ids| && AllKept(dead, 0, p)
    ensures p <= |Sift(dead, ids)| && Sift(dead, ids)[..p] == ids[..p]
  {
    SiftSlice(dead, ids, 0, p);
    assert Rank(dead, 0) == 0;
  }

  lemma TailComesThrough(ids: seq<int>, dead: set<int>, t: nat)
    requires t <= |ids| && AllKept(dead, |ids| - t, |ids|)
    ensures t <= |Sift(dead, ids)| && Sift(dead, ids)[|Sift(dead, ids)| - t..] == ids[|ids| - t..]
  {
    var n, out := |ids|, Sift(dead, ids);
    SiftSlice(dead, ids, n - t, n);
    SiftPrefix(dead, ids, n);
    assert out[Rank(dead, n - t)..Rank(dead, n)] == ids[n - t..n];
    assert Rank(dead, n) == |out| && Rank(dead, n - t) == |out| - t;
  }

  /**
   Trims to `target` tokens, or says why not. When it cuts, the result has exactly `target`
   tokens; the first occurrence of the needle is there with its context, the beginning and
   the tail are there, and every gap in between gives up its proportional share to within
   one token.
   */
  method TrimFiller(ids: seq<int>, needle: seq<int>, target: nat, prefix: nat, context: nat, tail: nat)
    returns (r: Trimmed, ghost at: int, ghost cut: Cut)
    ensures |ids| <= target ==> r == Kept(ids)
    ensures |ids| > target ==> (r == Failed(TargetTooSmall) <==> target < prefix + 2 * context + tail)
    ensures |ids| > target >= prefix + 2 * context + tail ==>
              (r == Failed(NeedleAbsent) <==> forall i :: 0 <= i <= |ids| ==> !OccursAt(ids, needle, i))
    ensures |ids| > target && r != Failed(TargetTooSmall) && r != Failed(NeedleAbsent) ==>
              && IsFirst(ids, needle, at)
              && var staying := Staying(|ids|, at, |needle|, prefix, context, tail);
              && (r == Failed(TargetBelowProtected) <==> target < |staying|)
              && (r.Kept? ==>
                && |r.ids| == target && r.ids == Sift(cut.positions, ids)
                && FairCut(cut, staying, |ids|, |ids| - target)
                && OccursAt(r.ids, needle, Rank(cut.positions, at))
                && ShownInContext(ids, r.ids, at, Rank(cut.positions, at), |needle|, context)
                && EndsAlike(ids, r.ids, prefix, tail))
  {
    at, cut := -1, Cut({}, [], []);
    if |ids| <= target {
      return Kept(ids), at, cut;
    }
    if target < prefix + 2 * context + tail {
      return Failed(TargetTooSmall), at, cut;
    }
    var found := NeedleIndex(ids, needle);
    if found < 0 {
      return Failed(NeedleAbsent), at, cut;
    }
    at := found;
    var merged := MergedProtected(|ids|, found, |needle|, prefix, context, tail);
    r, cut := CutGaps(ids, merged, |ids| - target, Staying(|ids|, at, |needle|, prefix, context, tail));
    if r.Kept? {
      CutKeeps(ids, needle, at, cut, |ids| - target, prefix, context, tail);
    }
  }

  /** What may not go comes through. */
  lemma CutKeeps(ids: seq<int>, needle: seq<int>, at: int, cut: Cut, remove: nat, prefix: nat, context: nat, tail: nat)
    requires OccursAt(ids, needle, at)
    requires FairCut(cut, Staying(|ids|, at, |needle|, prefix, context, tail), |ids|, remove)
    ensures var out := Sift(cut.positions, ids);
            && OccursAt(out, needle, Rank(cut.positions, at))
            && ShownInContext(ids, out, at, Rank(cut.positions, at), |needle|, context)
            && EndsAlike(ids, out, prefix, tail)
  {
    var n, width := |ids|, |needle|;
    var staying := Staying(n, at, width, prefix, context, tail);
    CutSpares(cut, staying, n, remove, 0, Min(prefix, n));
    CutSpares(cut, staying, n, remove, n - Min(tail, n), n);
    CutSpares(cut, staying, n, remove, at - Min(context, at), at + width + Min(context, n - at - width));
    ContextComesThrough(ids, cut.positions, at, width, context);
    NeedleComesThrough(ids, Sift(cut.positions, ids), needle, at, Rank(cut.positions, at), context);
    BeginningComesThrough(ids, cut.positions, Min(prefix, n));
    TailComesThrough(ids, cut.positions, Min(tail, n));
  }
}
