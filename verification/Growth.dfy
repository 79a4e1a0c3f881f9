/**
 The repaired checkpoint: the kept entries where they were and the new tensors behind the old
 space. What a repair must end in is a function of the plan and the checkpoint it starts from.
 */
module Growth {
  import opened Sorting
  import opened Layout
  import opened Deletion
  import opened Compaction
  import opened Steps
  import opened InPlace
  import opened LiveRanges
  import opened Packing
  import opened ShardWriter
  import opened Plan

  // ------------------------------------------------------------ appended shards

  lemma TilesJoin(a: seq<Shard>, b: seq<Shard>, mid: int, hi: int)
    requires Tiles(a, 0, mid) && Tiles(b, mid, hi)
    ensures Tiles(a + b, 0, hi)
  {
    forall i | 0 <= i < |a + b|
      ensures Abuts(a + b, i, hi)
    {
      if i < |a| {
        assert Abuts(a, i, mid);
      } else {
        assert Abuts(b, i - |a|, hi);
      }
    }
  }

  lemma OrderedJoin(index: Index, more: seq<Shard>, hi: int)
    requires Tiles(Ordered(index), 0, index.total) && Tiles(more, index.total, hi)
    ensures Sort(ByOffset, index.shards + more) == Ordered(index) + more
  {
    forall x, y | x in index.shards && y in more
      ensures ByOffset(x, y)
    {
      SortMembers(ByOffset, index.shards, x);
      var i :| 0 <= i < |Ordered(index)| && Ordered(index)[i] == x;
      var j :| 0 <= j < |more| && more[j] == y;
      EdgesAscend(Ordered(index), 0, index.total, i, i);
      EdgesAscend(more, index.total, hi, j, j);
    }
    TilesSorted(more, index.total, hi);
    SortAppend(ByOffset, index.shards, more);
  }

  function SumBytes(ss: seq<Shard>): int {
    if ss == [] then 0 else SumBytes(ss[..|ss| - 1]) + ss[|ss| - 1].nbytes
  }

  lemma {:induction false} TilesSum(ss: seq<Shard>, lo: int, hi: int)
    requires Tiles(ss, lo, hi)
    ensures SumBytes(ss) == hi - lo
    decreases |ss|
  {
    if ss != [] {
      var n := |ss| - 1;
      TilesPrefix(ss, lo, hi, n);
      assert Abuts(ss, n, hi);
      TilesSum(ss[..n], lo, ss[n].off);
    }
  }

  /** What an append leaves on disk beside the old checkpoint `st`. */
  ghost predicate Appended(st: State, files: Files, first: nat, more: seq<Shard>, entries: seq<Entry>, payloads: seq<seq<Byte>>)
    requires Sound(st)
  {
    && FreeFrom(st.files, first) && Untouched(first, st.files, files)
    && Listed(entries, payloads, |SpaceOf(st)|)
    && Laid(files, more, first, st.index.limit, |SpaceOf(st)|, SpaceOf(st) + Packed(payloads))
    && forall i :: 0 <= i < |more| ==> more[i].off % ALIGN == 0
  }

  /** The entries and payloads are the items, in order. */
  ghost predicate Carried(items: seq<Item>, entries: seq<Entry>, payloads: seq<seq<Byte>>) {
    && |entries| == |payloads| == |items|
    && forall i :: 0 <= i < |entries| ==> (entries[i].(off := 0), payloads[i]) == items[i]
  }

  ghost function Grown(plan: Plan, index: Index, more: seq<Shard>, entries: seq<Entry>): Index {
    Index(plan.Kept(index.tensors) + entries, index.shards + more, index.total + SumBytes(more), index.limit)
  }

  lemma HoldsStill(files: Files, files': Files, first: nat, sh: Shard, space: seq<Byte>, more: seq<Byte>)
    requires Holds(files, sh, space) && FreeFrom(files, first) && Untouched(first, files, files')
    ensures Holds(files', sh, space + more)
  {
    assert sh.file in files && sh.file in files';
    assert (space + more)[sh.off..sh.End()] == space[sh.off..sh.End()];
  }

  lemma JoinedStored(files: Files, files': Files, first: nat, limit: nat, ss: seq<Shard>, more: seq<Shard>, space: seq<Byte>, extra: seq<Byte>)
    requires Stored(files, ss, space) && FreeFrom(files, first) && Untouched(first, files, files')
    requires Laid(files', more, first, limit, |space|, space + extra)
    ensures Stored(files', ss + more, space + extra)
  {
    TilesJoin(ss, more, |space|, |space + extra|);
    forall i | 0 <= i < |ss + more|
      ensures Holds(files', (ss + more)[i], space + extra)
    {
      if i < |ss| {
        HoldsStill(files, files', first, ss[i], space, extra);
      } else {
        assert ShardLaid(files', more, first, limit, space + extra, i - |ss|);
      }
    }
  }

  lemma AppendedStored(st: State, files: Files, first: nat, more: seq<Shard>, entries: seq<Entry>, payloads: seq<seq<Byte>>)
    requires Loadable(st) && Appended(st, files, first, more, entries, payloads)
    ensures Stored(files, Ordered(st.index) + more, SpaceOf(st) + Packed(payloads))
    ensures Sort(ByOffset, st.index.shards + more) == Ordered(st.index) + more
    ensures st.index.total + SumBytes(more) == |SpaceOf(st)| + |Packed(payloads)|
  {
    var space, extra := SpaceOf(st), Packed(payloads);
    SpaceStored(st.files, Ordered(st.index), st.index.total);
    OrderedJoin(st.index, more, |space + extra|);
    TilesSum(more, |space|, |space + extra|);
    JoinedStored(st.files, files, first, st.index.limit, Ordered(st.index), more, space, extra);
  }

  lemma EndsInside(e: Entry, total: int)
    requires Placed(e, total) && total % ALIGN == 0
    ensures e.End() <= total
  {
  }

  lemma GrownEntries(plan: Plan, ts: seq<Entry>, space: seq<Byte>, entries: seq<Entry>, payloads: seq<seq<Byte>>)
    requires AllPlaced(ts, |space|) && Separated(ts) && |space| % ALIGN == 0
    requires Listed(entries, payloads, |space|)
    ensures AllPlaced(plan.Kept(ts) + entries, |space + Packed(payloads)|)
    ensures Separated(plan.Kept(ts) + entries)
  {
    var kept, space' := plan.Kept(ts), space + Packed(payloads);
    var all := kept + entries;
    KeptPlaced(plan, ts, |space|);
    KeptSeparated(plan, ts);
    ListedSeparated(entries, payloads, |space|);
    forall i | 0 <= i < |all|
      ensures Placed(all[i], |space'|)
    {
      if i < |kept| {
        assert Placed(kept[i], |space|);
      } else {
        ListedReads(entries, payloads, space, i - |kept|);
      }
    }
    forall i, j | 0 <= i < j < |all|
      ensures Apart(all[i], all[j])
    {
      if j < |kept| {
        assert Apart(kept[i], kept[j]);
      } else if i < |kept| {
        assert Placed(kept[i], |space|);
        EndsInside(kept[i], |space|);
        ListedBlocks(entries, payloads, |space|, j - |kept|);
      } else {
        assert Apart(entries[i - |kept|], entries[j - |kept|]);
      }
    }
  }

  lemma ListingExtends(ts: seq<Entry>, space: seq<Byte>, more: seq<Byte>)
    requires AllPlaced(ts, |space|)
    ensures AllPlaced(ts, |space + more|)
    ensures Listing(ts, space + more) == Listing(ts, space)
  {
    forall i | 0 <= i < |ts|
      ensures Placed(ts[i], |space + more|)
      ensures (space + more)[ts[i].off..ts[i].off + ts[i].nbytes] == space[ts[i].off..ts[i].off + ts[i].nbytes]
    {
      assert Placed(ts[i], |space|);
    }
  }

  lemma ListingConcat(a: seq<Entry>, b: seq<Entry>, space: seq<Byte>)
    requires AllPlaced(a, |space|) && AllPlaced(b, |space|) && AllPlaced(a + b, |space|)
    ensures Listing(a + b, space) == Listing(a, space) + Listing(b, space)
  {
  }

  lemma ListingAdded(plan: Plan, prefix: seq<Byte>, entries: seq<Entry>, payloads: seq<seq<Byte>>)
    requires |prefix| % ALIGN == 0 && Listed(entries, payloads, |prefix|) && Carried(AddedItems(plan), entries, payloads)
    ensures AllPlaced(entries, |prefix + Packed(payloads)|)
    ensures Listing(entries, prefix + Packed(payloads)) == AddedItems(plan)
  {
    forall i | 0 <= i < |entries|
      ensures Placed(entries[i], |prefix + Packed(payloads)|)
      ensures (prefix + Packed(payloads))[entries[i].off..entries[i].off + entries[i].nbytes] == payloads[i]
    {
      ListedReads(entries, payloads, prefix, i);
    }
  }

  lemma GrownListing(plan: Plan, ts: seq<Entry>, space: seq<Byte>, entries: seq<Entry>, payloads: seq<seq<Byte>>)
    requires AllPlaced(ts, |space|) && |space| % ALIGN == 0
    requires Listed(entries, payloads, |space|) && Carried(AddedItems(plan), entries, payloads)
    requires AllPlaced(plan.Kept(ts) + entries, |space + Packed(payloads)|)
    ensures Listing(plan.Kept(ts) + entries, space + Packed(payloads)) == Repaired(plan, Listing(ts, space))
  {
    KeptListing(plan, ts, space);
    ListingExtends(plan.Kept(ts), space, Packed(payloads));
    ListingAdded(plan, space, entries, payloads);
    ListingConcat(plan.Kept(ts), entries, space + Packed(payloads));
  }

  /** Swapping to the grown index yields the repaired checkpoint. */
  lemma GrownLoadable(plan: Plan, st: State, files: Files, first: nat, more: seq<Shard>, entries: seq<Entry>, payloads: seq<seq<Byte>>)
    requires Loadable(st) && Appended(st, files, first, more, entries, payloads) && Carried(AddedItems(plan), entries, payloads)
    requires DistinctNames(plan.Kept(st.index.tensors) + entries)
    ensures var st' := State(files, Grown(plan, st.index, more, entries));
            Loadable(st') && ListingOf(st') == Repaired(plan, ListingOf(st))
  {
    var ss, space, space' := Ordered(st.index), SpaceOf(st), SpaceOf(st) + Packed(payloads);
    var st' := State(files, Grown(plan, st.index, more, entries));
    SpaceStored(st.files, ss, st.index.total);
    AppendedStored(st, files, first, more, entries, payloads);
    GrownEntries(plan, st.index.tensors, space, entries, payloads);
    LoadableFrom(st', space');
    GrownListing(plan, st.index.tensors, space, entries, payloads);
    GrownCuts(plan, st, files, first, more, entries, payloads);
  }

  lemma GrownCuts(plan: Plan, st: State, files: Files, first: nat, more: seq<Shard>, entries: seq<Entry>, payloads: seq<seq<Byte>>)
    requires Loadable(st) && Appended(st, files, first, more, entries, payloads)
    ensures WellCut(Grown(plan, st.index, more, entries))
  {
    var ss, space' := Ordered(st.index), SpaceOf(st) + Packed(payloads);
    SpaceStored(st.files, ss, st.index.total);
    AppendedStored(st, files, first, more, entries, payloads);
    PackedAligned(payloads);
    JoinedCuts(st, more, first, files, st.index.limit, space');
    EdgesJoin(ss, more, st.index.total, |Packed(payloads)|);
  }

  lemma EdgesJoin(a: seq<Shard>, b: seq<Shard>, total: int, more: int)
    requires AlignedEdges(a, total) && more % ALIGN == 0 && forall i :: 0 <= i < |b| ==> b[i].off % ALIGN == 0
    ensures AlignedEdges(a + b, total + more)
  {
  }

  lemma JoinedCuts(st: State, more: seq<Shard>, first: nat, files: Files, limit: nat, space': seq<Byte>)
    requires Loadable(st) && FreeFrom(st.files, first)
    requires Laid(files, more, first, limit, st.index.total, space')
    ensures DistinctFiles(Ordered(st.index) + more)
  {
    var ss := Ordered(st.index);
    forall i, j | 0 <= i < j < |ss + more|
      ensures (ss + more)[i].file != (ss + more)[j].file
    {
      if |ss| <= j {
        assert ShardLaid(files, more, first, limit, space', j - |ss|);
        if |ss| <= i {
          assert ShardLaid(files, more, first, limit, space', i - |ss|);
        }
      }
    }
  }

  /** The names the repaired checkpoint will carry. */
  function NewNames(plan: Plan, ts: seq<Entry>): seq<Entry> {
    plan.Kept(ts) + seq(|plan.added|, i requires 0 <= i < |plan.added| => plan.added[i].entry)
  }

  lemma GrownNames(plan: Plan, ts: seq<Entry>, entries: seq<Entry>, payloads: seq<seq<Byte>>)
    requires DistinctNames(NewNames(plan, ts)) && Carried(AddedItems(plan), entries, payloads)
    ensures DistinctNames(plan.Kept(ts) + entries)
  {
    var want, got := NewNames(plan, ts), plan.Kept(ts) + entries;
    forall i | 0 <= i < |got|
      ensures got[i].name == want[i].name
    {
      if |plan.Kept(ts)| <= i {
        var j := i - |plan.Kept(ts)|;
        assert (entries[j].(off := 0), payloads[j]) == AddedItems(plan)[j];
        assert entries[j].(off := 0).name == plan.added[j].entry.(off := 0).name;
      }
    }
  }

  /** Without new tensors there is nothing to append. */
  lemma AppendedNothing(st: State, next: nat)
    requires Loadable(st) && FreeFrom(st.files, next)
    ensures Appended(st, st.files, next, [], [], [])
  {
    assert SpaceOf(st) + Packed([]) == SpaceOf(st);
  }

  /** An empty plan repairs a checkpoint to itself. */
  lemma EmptyRepairs(plan: Plan, st: State)
    requires Sound(st) && plan.Empty()
    ensures Repaired(plan, ListingOf(st)) == ListingOf(st)
  {
    SpaceStored(st.files, Ordered(st.index), st.index.total);
    KeptListing(plan, st.index.tensors, SpaceOf(st));
    EmptyKeeps(plan, st.index.tensors);
  }

  // ------------------------------------------------------------ where a repair leads

  ghost function Payloads(plan: Plan): seq<seq<Byte>> {
    seq(|plan.added|, i requires 0 <= i < |plan.added| => plan.added[i].bytes)
  }

  /** The new entries, laid down from `base` on. */
  ghost function AddedAt(plan: Plan, base: int): seq<Entry> {
    seq(|plan.added|, i requires 0 <= i < |plan.added| =>
      plan.added[i].entry.(off := base + |Packed(Payloads(plan)[..i])|))
  }

  ghost function GrownTensors(plan: Plan, st: State): seq<Entry> {
    plan.Kept(st.index.tensors) + AddedAt(plan, st.index.total)
  }

  ghost function GrownSpace(plan: Plan, st: State): seq<Byte>
    requires Sound(st)
  {
    SpaceOf(st) + Packed(Payloads(plan))
  }

  /** The bytes nobody owns once the repaired index is in force. */
  ghost function GoalDead(plan: Plan, st: State): set<int>
    requires Sound(st)
  {
    DeadIn(GrownTensors(plan, st), 0, |GrownSpace(plan, st)|)
  }

  /** The tensor table and the byte space a finished repair must show. */
  ghost function GoalTensors(plan: Plan, st: State): seq<Entry>
    requires Sound(st)
  {
    MoveTensors(GoalDead(plan, st), GrownTensors(plan, st))
  }

  ghost function GoalSpace(plan: Plan, st: State): seq<Byte>
    requires Sound(st)
  {
    Sift(GoalDead(plan, st), GrownSpace(plan, st))
  }

  /** `s` is a repaired form of `s0`, on its way to the goal. */
  ghost predicate After(plan: Plan, s: State, s0: State) {
    && Sound(s0) && Loadable(s) && s.index.limit == s0.index.limit
    && ListingOf(s) == Repaired(plan, ListingOf(s0))
    && FinalTensors(s.index) == GoalTensors(plan, s0)
    && FinalSpace(s) == GoalSpace(plan, s0)
  }

  /** The entries a writer listed are the new entries of the plan. */
  lemma CarriedIsAdded(plan: Plan, entries: seq<Entry>, payloads: seq<seq<Byte>>, base: int)
    requires Carried(AddedItems(plan), entries, payloads) && Listed(entries, payloads, base)
    ensures payloads == Payloads(plan) && entries == AddedAt(plan, base)
  {
    forall i | 0 <= i < |entries|
      ensures payloads[i] == plan.added[i].bytes
      ensures entries[i].(off := 0) == plan.added[i].entry.(off := 0)
    {
      assert (entries[i].(off := 0), payloads[i]) == AddedItems(plan)[i];
    }
    assert payloads == Payloads(plan);
    forall i | 0 <= i < |entries|
      ensures entries[i] == AddedAt(plan, base)[i]
    {
      assert EntryListed(entries, payloads, base, i);
      assert entries[i] == entries[i].(off := 0).(off := entries[i].off);
      assert AddedAt(plan, base)[i] == plan.added[i].entry.(off := 0).(off := entries[i].off);
    }
  }

  /** Swapping to the grown index leads to the goal. */
  lemma GrownIsAfter(plan: Plan, st: State, files: Files, first: nat, more: seq<Shard>, entries: seq<Entry>, payloads: seq<seq<Byte>>)
    requires Loadable(st) && Appended(st, files, first, more, entries, payloads) && Carried(AddedItems(plan), entries, payloads)
    requires DistinctNames(plan.Kept(st.index.tensors) + entries)
    ensures After(plan, State(files, Grown(plan, st.index, more, entries)), st)
    ensures Grown(plan, st.index, more, entries).tensors == GrownTensors(plan, st)
    ensures SpaceOf(State(files, Grown(plan, st.index, more, entries))) == GrownSpace(plan, st)
  {
    var st' := State(files, Grown(plan, st.index, more, entries));
    SpaceStored(st.files, Ordered(st.index), st.index.total);
    CarriedIsAdded(plan, entries, payloads, st.index.total);
    GrownLoadable(plan, st, files, first, more, entries, payloads);
    AppendedStored(st, files, first, more, entries, payloads);
    StoredIsSpace(files, Ordered(st'.index), GrownSpace(plan, st));
    AfterFrom(plan, st', st);
  }

  /** A checkpoint with the grown table over the grown space is repaired. */
  lemma AfterFrom(plan: Plan, s: State, s0: State)
    requires Sound(s0) && Loadable(s) && s.index.limit == s0.index.limit && ListingOf(s) == Repaired(plan, ListingOf(s0))
    requires s.index.tensors == GrownTensors(plan, s0) && SpaceOf(s) == GrownSpace(plan, s0)
    requires s.index.total == |GrownSpace(plan, s0)|
    ensures After(plan, s, s0)
  {
  }

  /** Whatever is faithful to a repaired checkpoint is on the same way. */
  lemma FaithfulIsAfter(plan: Plan, s: State, repaired: State, s0: State)
    requires After(plan, repaired, s0) && Faithful(s, repaired)
    ensures After(plan, s, s0)
  {
  }

  /** Once nothing is dirty, the goal is reached. */
  lemma CleanIsGoal(plan: Plan, s: State, s0: State)
    requires After(plan, s, s0) && DirtyCount(s.index) == 0
    ensures s.index.tensors == GoalTensors(plan, s0) && SpaceOf(s) == GoalSpace(plan, s0)
  {
    CleanIsFinal(s);
  }

  /** With nothing to rename, drop or add, the goal of a repair is that of the compaction alone. */
  lemma EmptyGoal(plan: Plan, st: State)
    requires Sound(st) && plan.Empty()
    ensures GoalTensors(plan, st) == FinalTensors(st.index) && GoalSpace(plan, st) == FinalSpace(st)
    ensures GoalDead(plan, st) == AllDeadOf(st.index)
  {
    EmptyKeeps(plan, st.index.tensors);
    SpaceStored(st.files, Ordered(st.index), st.index.total);
    assert Payloads(plan) == [];
    assert GrownTensors(plan, st) == st.index.tensors && GrownSpace(plan, st) == SpaceOf(st);
  }

  // ------------------------------------------------------------ unowned bytes

  lemma NoDeadNoDirty(index: Index)
    requires Tiles(Ordered(index), 0, index.total)
    requires forall p :: 0 <= p < index.total ==> Live(index.tensors, p)
    ensures DirtyCount(index) == 0
  {
    var ss := Ordered(index);
    forall i | 0 <= i < |ss|
      ensures !Dirtiness(index.tensors, ss)[i]
    {
      EdgesAscend(ss, 0, index.total, i, i + 1);
      assert Abuts(ss, i, index.total);
    }
    AllFalse(Dirtiness(index.tensors, ss));
  }

  lemma {:induction false} AllFalse(flags: seq<bool>)
    requires forall i :: 0 <= i < |flags| ==> !flags[i]
    ensures Trues(flags) == 0
  {
    if flags != [] {
      AllFalse(flags[1..]);
    }
  }

  /** A layout is clean exactly when no byte is unowned. */
  lemma CleanIffNoDead(index: Index)
    requires Tiles(Ordered(index), 0, index.total)
    ensures DirtyCount(index) == 0 <==> AllDeadOf(index) == {}
  {
    if DirtyCount(index) == 0 {
      CleanHasNoDead(index);
    }
    if AllDeadOf(index) == {} {
      forall p | 0 <= p < index.total
        ensures Live(index.tensors, p)
      {
        assert p !in AllDeadOf(index);
      }
      NoDeadNoDirty(index);
    }
  }

  /** Kept entries own what they owned. */
  lemma {:induction false} KeptAllOwns(plan: Plan, ts: seq<Entry>, p: int)
    requires forall i :: 0 <= i < |ts| ==> plan.Keeps(ts[i])
    ensures Live(plan.Kept(ts), p) <==> Live(ts, p)
  {
    if ts != [] {
      var n := |ts| - 1;
      KeptAllOwns(plan, ts[..n], p);
      assert ts == ts[..n] + [ts[n]];
      LiveAppend(plan.Kept(ts[..n]), plan.Renamed(ts[n]), p);
      LiveAppend(ts[..n], ts[n], p);
    }
  }

  lemma LiveConcat(a: seq<Entry>, b: seq<Entry>, p: int)
    ensures Live(a + b, p) <==> Live(a, p) || Live(b, p)
  {
    if Live(a, p) {
      var i :| 0 <= i < |a| && a[i].Covers(p);
      assert (a + b)[i].Covers(p);
    }
    if Live(b, p) {
      var i :| 0 <= i < |b| && b[i].Covers(p);
      assert (a + b)[|a| + i].Covers(p);
    }
    if Live(a + b, p) {
      var i :| 0 <= i < |a + b| && (a + b)[i].Covers(p);
      assert i < |a| ==> a[i].Covers(p);
      assert |a| <= i ==> b[i - |a|].Covers(p);
    }
  }

  /** Every byte behind the old space is owned by a new entry. */
  lemma AddedOwns(plan: Plan, st: State, p: int)
    requires Sound(st) && plan.Wellformed() && st.index.total <= p < |GrownSpace(plan, st)|
    ensures Live(GrownTensors(plan, st), p)
  {
    SpaceStored(st.files, Ordered(st.index), st.index.total);
    var entries, payloads := AddedAt(plan, st.index.total), Payloads(plan);
    forall i | 0 <= i < |entries|
      ensures EntryListed(entries, payloads, st.index.total, i)
    {
    }
    assert payloads[..|payloads|] == payloads;
    ListedOwns(entries, payloads, st.index.total, |payloads|, p);
    LiveConcat(plan.Kept(st.index.tensors), entries, p);
  }

  /** A plan that keeps every entry of a clean checkpoint leaves nothing to compact. */
  lemma KeepsAllIsClean(plan: Plan, st: State)
    requires Sound(st) && plan.Wellformed() && DirtyCount(st.index) == 0
    requires forall i :: 0 <= i < |st.index.tensors| ==> plan.Keeps(st.index.tensors[i])
    ensures GoalDead(plan, st) == {}
  {
    CleanHasNoDead(st.index);
    forall p | 0 <= p < |GrownSpace(plan, st)|
      ensures Live(GrownTensors(plan, st), p)
    {
      if p < st.index.total {
        assert p !in AllDeadOf(st.index);
        KeptAllOwns(plan, st.index.tensors, p);
        LiveConcat(plan.Kept(st.index.tensors), AddedAt(plan, st.index.total), p);
      } else {
        AddedOwns(plan, st, p);
      }
    }
  }
}
