/** What follows for whole runs: reruns finish the job, and both repair routes agree. */
module Outcomes {
  import opened Intervals
  import opened Layout
  import opened Compaction
  import opened Steps
  import opened Disk
  import opened InPlace
  import opened Numbering
  import opened Plan
  import opened Growth
  import opened Repair

  // ------------------------------------------------------------ reruns

  /**
   Compaction interrupted anywhere and run again ends where the uninterrupted run ends: same
   offsets, same bytes, same listing, nothing unowned.
   */
  lemma RerunConverges(start: State, crash: State, done: State, direct: State)
    requires Faithful(crash, start)
    requires Faithful(done, crash) && DirtyCount(done.index) == 0
    requires Faithful(direct, start) && DirtyCount(direct.index) == 0
    ensures done.index.tensors == direct.index.tensors == FinalTensors(start.index)
    ensures SpaceOf(done) == SpaceOf(direct) && done.index.total == direct.index.total
    ensures ListingOf(done) == ListingOf(start)
    ensures AllDeadOf(done.index) == {}
  {
    CleanIsFinal(done);
    CleanIsFinal(direct);
    SpaceStored(done.files, Ordered(done.index), done.index.total);
    SpaceStored(direct.files, Ordered(direct.index), direct.index.total);
  }

  /**
   A state that attempts to repair `start` by `plan` may have reached: still the old index over
   the old bytes, or a repaired checkpoint that leads to the goal.
   */
  ghost predicate Reached(plan: Plan, s: State, start: State) {
    Intact(s, start) || After(plan, s, start)
  }

  /**
   What is left to do in a state reached. Under the old index it is the same plan; after the
   swap there is nothing left to rename, drop or add.
   */
  ghost predicate Remaining(rest: Plan, plan: Plan, s: State, start: State) {
    (Intact(s, start) && rest == plan) || (After(plan, s, start) && rest.Empty())
  }

  /** A run from `s` with what is left to do may be cut off in `s'`. */
  ghost predicate CutOff(plan: Plan, s: State, s': State, start: State) {
    exists rest :: Remaining(rest, plan, s, start) && Reached(rest, s', s)
  }

  /** Wherever such a run is cut off, that state is reached too. */
  lemma CutOffIsReached(plan: Plan, rest: Plan, s: State, s': State, start: State)
    requires Remaining(rest, plan, s, start) && Reached(rest, s', s)
    ensures Reached(plan, s', start)
  {
    if Intact(s, start) && rest == plan {
      if After(plan, s', s) {
        AfterIntact(plan, s', s, start);
      }
    } else if After(rest, s', s) {
      EmptyRepairs(rest, s);
      EmptyGoal(rest, s);
    }
  }

  /** One attempt after another, each started in the state the one before was cut off in. */
  ghost predicate Attempts(plan: Plan, states: seq<State>) {
    && states != []
    && forall i :: 0 <= i < |states| - 1 ==> CutOff(plan, states[i], states[i + 1], states[0])
  }

  /** However often the repair was interrupted, the last state is reached. */
  lemma {:induction false} AttemptsReach(plan: Plan, states: seq<State>)
    requires Attempts(plan, states) && Sound(states[0])
    ensures Reached(plan, states[|states| - 1], states[0])
  {
    var n := |states| - 1;
    if n > 0 {
      assert Attempts(plan, states[..n]) by {
        assert forall i :: 0 <= i < n - 1 ==> CutOff(plan, states[i], states[i + 1], states[0]);
      }
      AttemptsReach(plan, states[..n]);
      assert CutOff(plan, states[n - 1], states[n], states[0]);
      var rest :| Remaining(rest, plan, states[n - 1], states[0]) && Reached(rest, states[n], states[n - 1]);
      CutOffIsReached(plan, rest, states[n - 1], states[n], states[0]);
    }
  }

  lemma EmptyNames(rest: Plan, s: State)
    requires Sound(s) && rest.Empty()
    ensures DistinctNames(NewNames(rest, s.index.tensors))
  {
    EmptyKeeps(rest, s.index.tensors);
    assert NewNames(rest, s.index.tensors) == s.index.tensors;
  }

  /** Every state reached meets all that another run asks of the layout, the names and the plan. */
  lemma ReachedRestarts(plan: Plan, rest: Plan, s: State, start: State)
    requires Loadable(start) && plan.Wellformed() && DistinctNames(NewNames(plan, start.index.tensors))
    requires Remaining(rest, plan, s, start)
    ensures Loadable(s) && s.index.limit == start.index.limit
    ensures rest.Wellformed() && DistinctNames(NewNames(rest, s.index.tensors))
  {
    if rest.Empty() && After(plan, s, start) {
      EmptyNames(rest, s);
    }
  }

  /** With what is left to do, a state reached leads where the start led. */
  lemma SameGoal(plan: Plan, rest: Plan, s: State, start: State)
    requires Remaining(rest, plan, s, start)
    ensures GoalTensors(rest, s) == GoalTensors(plan, start) && GoalSpace(rest, s) == GoalSpace(plan, start)
    ensures Repaired(rest, ListingOf(s)) == Repaired(plan, ListingOf(start))
  {
    if !(Intact(s, start) && rest == plan) {
      EmptyRepairs(rest, s);
      EmptyGoal(rest, s);
    }
  }

  /**
   An attempt, the first or a rerun after any number of interrupted ones. It starts from what
   the last interruption left. Wherever it is interrupted itself, the directory loads and
   another attempt may follow; run to the end it finishes the job: the tensor table, the bytes
   and the total are those of the repair that was never interrupted, and nothing is unowned.
   */
  method Rerun(crash: State, rest: Plan, supply: nat, ghost plan: Plan, ghost states: seq<State>)
    returns (disk: Disk, ok: bool, ghost bound: nat)
    requires Attempts(plan, states) && states[|states| - 1] == crash
    requires Loadable(states[0]) && plan.Wellformed() && DistinctNames(NewNames(plan, states[0].index.tensors))
    requires states[0].index.limit > 0 && states[0].index.limit % ALIGN == 0
    requires Remaining(rest, plan, crash, states[0]) && AllBelow(crash.files.Keys, NUMBER_LIMIT)
    ensures fresh(disk) && disk.Recorded() && disk.history[0] == crash
    ensures ok <==> |rest.added| <= supply
    ensures ok ==> Loadable(disk.Now()) && DirtyCount(disk.index) == 0
    ensures ok ==> ListingOf(disk.Now()) == Repaired(plan, ListingOf(states[0]))
    ensures ok ==> Mended(plan, ListingOf(states[0]), ListingOf(disk.Now()))
    ensures ok && !(rest.Empty() && DirtyCount(crash.index) == 0) ==> Tidy(disk.Now())
    ensures ok ==> disk.index.tensors == GoalTensors(plan, states[0]) && SpaceOf(disk.Now()) == GoalSpace(plan, states[0])
    ensures ok ==> disk.index.total == PaddedSum(Repaired(plan, ListingOf(states[0])))
    ensures forall i :: 0 <= i < |disk.history| ==> Loadable(disk.history[i]) && Attempts(plan, states + [disk.history[i]])
    ensures forall i :: 0 < i < |disk.history| ==> FreeFrom(disk.history[i].files, bound)
  {
    ghost var start := states[0];
    ReachedRestarts(plan, rest, crash, start);
    SameGoal(plan, rest, crash, start);
    disk := new Disk(crash.files, crash.index);
    var compacted;
    ghost var repaired;
    ok, compacted, repaired, bound := RepairInPlace(disk, rest, supply);
    AttemptsGoOn(plan, rest, states, disk.history, bound);
    if ok {
      RepairedMends(plan, ListingOf(start));
      FaithfulIsAfter(rest, disk.Now(), repaired, crash);
      CleanTotal(disk.Now());
    }
  }

  /** Every state a run records is one more attempt cut off there. */
  lemma AttemptsGoOn(plan: Plan, rest: Plan, states: seq<State>, history: seq<State>, bound: nat)
    requires Attempts(plan, states) && Loadable(states[0])
    requires var crash := states[|states| - 1];
             && Remaining(rest, plan, crash, states[0])
             && OnTheWay(rest, [crash], history, crash, bound)
    ensures forall i :: 0 <= i < |history| ==> Loadable(history[i]) && Attempts(plan, states + [history[i]])
  {
    var n := |states|;
    var crash := states[n - 1];
    forall i | 0 <= i < |history|
      ensures Loadable(history[i]) && Attempts(plan, states + [history[i]])
    {
      assert i == 0 ==> history[i] == history[..1][0] == crash;
      assert Reached(rest, history[i], crash);
      CutOffIsReached(plan, rest, crash, history[i], states[0]);
      var more := states + [history[i]];
      forall j | 0 <= j < n
        ensures CutOff(plan, more[j], more[j + 1], more[0])
      {
        if j < n - 1 {
          assert CutOff(plan, states[j], states[j + 1], states[0]);
        }
      }
    }
  }

  // ------------------------------------------------------------ totals

  ghost function PaddedSum(items: seq<Item>): int {
    if items == [] then 0 else PaddedSum(items[..|items| - 1]) + AlignUp(items[|items| - 1].0.nbytes)
  }

  ghost function Owned(ts: seq<Entry>, total: int): set<int> {
    set p | 0 <= p < total && Live(ts, p)
  }

  lemma OwnedSplits(ts: seq<Entry>, total: int)
    requires ts != [] && AllPlaced(ts, total) && total % ALIGN == 0 && Separated(ts)
    ensures var init, e := ts[..|ts| - 1], ts[|ts| - 1];
            && e.off <= e.End()
            && Owned(ts, total) == Owned(init, total) + Interval(e.off, e.End())
            && Owned(init, total) !! Interval(e.off, e.End())
  {
    var n := |ts| - 1;
    var init, e := ts[..n], ts[n];
    assert Placed(e, total);
    EndsInside(e, total);
    forall p
      ensures Live(ts, p) <==> Live(init, p) || e.Covers(p)
    {
      if Live(ts, p) && !e.Covers(p) {
        var i :| 0 <= i < |ts| && ts[i].Covers(p);
        assert init[i].Covers(p);
      }
      if Live(init, p) {
        var i :| 0 <= i < |init| && init[i].Covers(p);
        assert ts[i].Covers(p);
      }
    }
    forall p | p in Owned(init, total)
      ensures p !in Interval(e.off, e.End())
    {
      var i :| 0 <= i < |init| && init[i].Covers(p);
      assert Apart(ts[i], ts[n]);
    }
  }

  lemma PaddedNext(ts: seq<Entry>, space: seq<Byte>)
    requires ts != [] && AllPlaced(ts, |space|)
    ensures AllPlaced(ts[..|ts| - 1], |space|)
    ensures PaddedSum(Listing(ts, space)) == PaddedSum(Listing(ts[..|ts| - 1], space)) + AlignUp(ts[|ts| - 1].nbytes)
  {
    assert Listing(ts, space)[..|ts| - 1] == Listing(ts[..|ts| - 1], space);
  }

  /** The bytes owned are the padded sizes added up. */
  lemma {:induction false} OwnedSize(ts: seq<Entry>, space: seq<Byte>)
    requires AllPlaced(ts, |space|) && |space| % ALIGN == 0 && Separated(ts)
    ensures |Owned(ts, |space|)| == PaddedSum(Listing(ts, space))
  {
    if ts == [] {
      assert Owned(ts, |space|) == {};
    } else {
      PaddedNext(ts, space);
      OwnedSize(ts[..|ts| - 1], space);
      OwnedSplits(ts, |space|);
    }
  }

  /** A clean checkpoint is as long as the padded sizes of what it lists. */
  lemma CleanTotal(st: State)
    requires Sound(st) && st.index.total % ALIGN == 0 && DirtyCount(st.index) == 0
    ensures st.index.total == PaddedSum(ListingOf(st))
  {
    SpaceStored(st.files, Ordered(st.index), st.index.total);
    CleanHasNoDead(st.index);
    var total := st.index.total;
    EdgesAscend(Ordered(st.index), 0, total, 0, 0);
    assert Owned(st.index.tensors, total) == Interval(0, total) by {
      forall p | 0 <= p < total
        ensures Live(st.index.tensors, p)
      {
        assert p !in AllDeadOf(st.index);
      }
    }
    OwnedSize(st.index.tensors, SpaceOf(st));
  }

  /** The fresh copy and the in-place repair, however often interrupted, list the same entries and take the same space. */
  lemma RoutesAgree(plan: Plan, start: State, inPlace: State, out: State)
    requires After(plan, inPlace, start) && DirtyCount(inPlace.index) == 0
    requires Sound(out) && ListingOf(out) == Repaired(plan, ListingOf(start))
    requires out.index.total % ALIGN == 0 && DirtyCount(out.index) == 0
    ensures ListingOf(inPlace) == ListingOf(out)
    ensures inPlace.index.total == out.index.total == PaddedSum(Repaired(plan, ListingOf(start)))
  {
    CleanTotal(inPlace);
    CleanTotal(out);
  }
}
