/**
 The two ways a repair writes its result: patching the directory in place, or writing a
 fresh one. Both produce the same listing; the in-place one is safe at every disk step.
 */
module Repair {
  import opened Sorting
  import opened Layout
  import opened Compaction
  import opened Steps
  import opened LiveRanges
  import opened Disk
  import opened InPlace
  import opened Reader
  import opened Packing
  import opened ShardWriter
  import opened Numbering
  import opened Plan
  import opened Growth

  // ------------------------------------------------------------ writing entries

  lemma CarriedAppend(items: seq<Item>, entries: seq<Entry>, payloads: seq<seq<Byte>>, e: Entry, p: seq<Byte>)
    requires Carried(items, entries, payloads)
    ensures Carried(items + [(e.(off := 0), p)], entries + [e], payloads + [p])
  {
  }

  /** Adds one whole payload; with an aligned start and a truthful length this cannot fail. */
  method AddItem(w: ShardWriter, entry: Entry, chunks: seq<seq<Byte>>, ghost items: seq<Item>)
    requires w.Valid() && |w.prefix| % ALIGN == 0 && entry.nbytes == |Flatten(chunks)|
    requires Carried(items, w.entries, w.payloads)
    modifies w, w.disk
    ensures w.Valid() && Carried(items + [(entry.(off := 0), Flatten(chunks))], w.entries, w.payloads)
    ensures old(w.Running()) ==> w.Running()
  {
    var e := entry.(off := w.globalOff);
    CarriedAppend(items, w.entries, w.payloads, e, Flatten(chunks));
    var ok := w.Add(entry, chunks);
  }

  lemma FlattenOne(bytes: seq<Byte>)
    ensures Flatten([bytes]) == bytes
  {
    FlattenAppend([], bytes);
    assert [] + [bytes] == [bytes];
  }

  lemma ItemsNext(items: seq<Item>, added: seq<Item>, k: nat)
    requires k < |added|
    ensures items + added[..k + 1] == items + added[..k] + [added[k]]
  {
  }

  /** Appends the plan's new tensors, of which the source delivers `supply` before it fails. */
  method WriteNew(w: ShardWriter, plan: Plan, supply: nat, ghost items: seq<Item>) returns (ok: bool)
    requires w.Valid() && |w.prefix| % ALIGN == 0 && plan.Wellformed()
    requires Carried(items, w.entries, w.payloads)
    modifies w, w.disk
    ensures ok <==> |plan.added| <= supply
    ensures w.Valid() && (ok ==> Carried(items + AddedItems(plan), w.entries, w.payloads))
    ensures old(w.Running()) ==> w.Running()
  {
    ghost var added := AddedItems(plan);
    assert items + added[..0] == items;
    for k := 0 to |plan.added|
      invariant k <= supply && w.Valid() && Carried(items + added[..k], w.entries, w.payloads)
      invariant old(w.Running()) ==> w.Running()
    {
      if k == supply {
        return false;
      }
      var t := plan.added[k];
      FlattenOne(t.bytes);
      ItemsNext(items, added, k);
      AddItem(w, t.entry, [t.bytes], items + added[..k]);
    }
    assert added[..|plan.added|] == added;
    return true;
  }

  lemma KeptNext(plan: Plan, items: seq<Item>, k: nat)
    requires k < |items|
    ensures KeptItems(plan, items[..k + 1]) == KeptItems(plan, items[..k]) +
      if plan.Keeps(items[k].0) then [(plan.Renamed(items[k].0), items[k].1)] else []
  {
    assert items[..k + 1][..k] == items[..k];
  }

  /** What the listing says of entry k is what a read of it returns. */
  lemma ListingReads(files: Files, index: Index, k: nat)
    requires Sound(State(files, index)) && k < |index.tensors|
    ensures var e := index.tensors[k];
            && Readable(files, index, e)
            && k < |ListingOf(State(files, index))|
            && ListingOf(State(files, index))[k] == (e.(off := 0), BytesOf(files, index, e))
  {
    SpaceStored(files, Ordered(index), index.total);
    assert Placed(index.tensors[k], index.total);
  }

  /** Copies the kept entries of a sound checkpoint, renamed, in index order. */
  method CopyKept(w: ShardWriter, files: Files, index: Index, plan: Plan)
    requires w.Valid() && |w.prefix| % ALIGN == 0 && w.entries == [] && Sound(State(files, index))
    modifies w, w.disk
    ensures w.Valid() && Carried(KeptItems(plan, ListingOf(State(files, index))), w.entries, w.payloads)
    ensures Selected(plan, ListingOf(State(files, index)), KeptItems(plan, ListingOf(State(files, index))))
    ensures old(w.Running()) ==> w.Running()
  {
    ghost var items := ListingOf(State(files, index));
    for k := 0 to |index.tensors|
      invariant w.Valid() && Carried(KeptItems(plan, items[..k]), w.entries, w.payloads)
      invariant old(w.Running()) ==> w.Running()
    {
      var e := index.tensors[k];
      ListingReads(files, index, k);
      KeptNext(plan, items, k);
      assert plan.Keeps(e.(off := 0)) <==> plan.Keeps(e);
      if plan.Keeps(e) {
        var got := EntryChunks(files, index, e);
        AddItem(w, plan.Renamed(e), got.value, KeptItems(plan, items[..k]));
      }
    }
    assert items[..|index.tensors|] == items;
    RepairedMends(plan, items);
  }

  // ------------------------------------------------------------ the fresh copy

  lemma FreshStored(files: Files, index: Index, space: seq<Byte>)
    requires Laid(files, index.shards, 0, index.limit, 0, space)
    ensures Ordered(index) == index.shards && Stored(files, index.shards, space) && DistinctFiles(index.shards)
  {
    TilesSorted(index.shards, 0, |space|);
    forall i | 0 <= i < |index.shards|
      ensures Holds(files, index.shards[i], space) && index.shards[i].file == Numbered(i)
    {
      assert ShardLaid(files, index.shards, 0, index.limit, space, i);
    }
  }

  lemma FreshListing(entries: seq<Entry>, payloads: seq<seq<Byte>>, items: seq<Item>)
    requires Listed(entries, payloads, 0) && Carried(items, entries, payloads)
    ensures AllPlaced(entries, |Packed(payloads)|) && Listing(entries, Packed(payloads)) == items
  {
    var space := Packed(payloads);
    assert [] + space == space;
    forall i | 0 <= i < |entries|
      ensures Placed(entries[i], |space|) && ItemOf(entries[i], space) == items[i]
    {
      ListedReads(entries, payloads, [], i);
    }
  }

  lemma FreshLive(index: Index, payloads: seq<seq<Byte>>)
    requires Tiles(Ordered(index), 0, index.total) && index.total == |Packed(payloads)| && Listed(index.tensors, payloads, 0)
    ensures DirtyCount(index) == 0
  {
    forall p | 0 <= p < index.total
      ensures Live(index.tensors, p)
    {
      assert payloads[..|payloads|] == payloads;
      ListedOwns(index.tensors, payloads, 0, |payloads|, p);
    }
    NoDeadNoDirty(index);
  }

  /** A closed writer that started a fresh directory holds a clean checkpoint of its items. */
  lemma FreshIsClean(files: Files, index: Index, payloads: seq<seq<Byte>>, items: seq<Item>)
    requires Laid(files, index.shards, 0, index.limit, 0, Packed(payloads)) && index.total == |Packed(payloads)|
    requires Listed(index.tensors, payloads, 0) && Carried(items, index.tensors, payloads)
    requires DistinctNames(index.tensors)
    ensures Sound(State(files, index)) && ListingOf(State(files, index)) == items
    ensures DistinctFiles(Ordered(index)) && index.total % ALIGN == 0 && DirtyCount(index) == 0
  {
    FreshStored(files, index, Packed(payloads));
    FreshListing(index.tensors, payloads, items);
    ListedSeparated(index.tensors, payloads, 0);
    LoadableFrom(State(files, index), Packed(payloads));
    PackedAligned(payloads);
    FreshLive(index, payloads);
  }

  /** Whatever was added to a fresh directory, in whatever chunks, reads back exactly. */
  lemma WrittenReadsBack(files: Files, index: Index, payloads: seq<seq<Byte>>, i: nat)
    requires Laid(files, index.shards, 0, index.limit, 0, Packed(payloads)) && index.total == |Packed(payloads)|
    requires Listed(index.tensors, payloads, 0) && i < |index.tensors|
    ensures Readable(files, index, index.tensors[i])
    ensures BytesOf(files, index, index.tensors[i]) == payloads[i]
  {
    var space := Packed(payloads);
    FreshStored(files, index, space);
    StoredIsSpace(files, index.shards, space);
    assert [] + space == space;
    ListedReads(index.tensors, payloads, [], i);
  }

  /** What a writer that started in an empty directory left there. */
  ghost predicate Written(files: Files, limit: nat, index: Index, payloads: seq<seq<Byte>>) {
    && Laid(files, index.shards, 0, limit, 0, Packed(payloads))
    && index.total == |Packed(payloads)| && index.limit == limit
    && Listed(index.tensors, payloads, 0)
    && Whole(index.tensors, index.shards, limit) && Thrifty(index.tensors, index.shards, limit)
    && (limit % ALIGN == 0 ==> forall i :: 0 <= i < |index.shards| ==> index.shards[i].off % ALIGN == 0)
  }

  /** Streams the repaired entries into shards numbered from 0. */
  method WriteOut(files: Files, index: Index, plan: Plan, supply: nat, out: Disk)
    returns (ok: bool, newIndex: Index, ghost payloads: seq<seq<Byte>>)
    requires Sound(State(files, index)) && plan.Wellformed() && index.limit > 0
    requires out.Recorded()
    modifies out
    ensures out.Recorded() && (ok <==> |plan.added| <= supply)
    ensures ok ==> Written(out.files, index.limit, newIndex, payloads)
    ensures ok ==> Carried(Repaired(plan, ListingOf(State(files, index))), newIndex.tensors, payloads)
  {
    var w := new ShardWriter(out, index.limit, 0, 0, []);
    CopyKept(w, files, index, plan);
    ok := WriteNew(w, plan, supply, KeptItems(plan, ListingOf(State(files, index))));
    newIndex, payloads := CloseFresh(w);
  }

  /** Closes a writer that started in an empty directory and makes the index. */
  method CloseFresh(w: ShardWriter) returns (index: Index, ghost payloads: seq<seq<Byte>>)
    requires w.Valid() && w.Running() && w.first == 0 && w.prefix == []
    modifies w
    ensures w.disk.Recorded() && Written(w.disk.files, w.limit, index, payloads)
    ensures index.tensors == old(w.entries) && payloads == old(w.payloads)
  {
    var shards := w.Close();
    index := Index(w.entries, shards, w.globalOff, w.limit);
    payloads := w.payloads;
    assert [] + Packed(payloads) == Packed(payloads);
  }

  /** Empties a directory. */
  method RemoveAll(out: Disk)
    requires out.Recorded()
    modifies out
    ensures out.Recorded() && out.files == map[] && out.index == old(out.index)
  {
    while out.files.Keys != {}
      invariant out.Recorded() && out.index == old(out.index)
      decreases out.files.Keys
    {
      SomeFile(out.files.Keys);
      var f :| f in out.files.Keys;
      out.Remove(f);
    }
  }

  lemma WrittenWithin(files: Files, limit: nat, index: Index, payloads: seq<seq<Byte>>)
    requires Written(files, limit, index, payloads)
    ensures forall i :: 0 <= i < |index.shards| ==> index.shards[i].file == Numbered(i) && index.shards[i].nbytes <= limit
  {
    forall i | 0 <= i < |index.shards|
      ensures index.shards[i].file == Numbered(i) && index.shards[i].nbytes <= limit
    {
      assert ShardLaid(files, index.shards, 0, limit, Packed(payloads), i);
    }
  }

  /**
   What a fresh directory holds: just these items, no unowned byte, shards numbered from 0 and
   within the limit, small entries whole, and no shard begun without need.
   */
  ghost predicate FreshCopy(out: State, items: seq<Item>, limit: nat) {
    && Sound(out) && ListingOf(out) == items
    && DirtyCount(out.index) == 0 && out.index.total % ALIGN == 0
    && (limit % ALIGN == 0 ==> Loadable(out))
    && (forall i :: 0 <= i < |out.index.shards| ==>
      out.index.shards[i].file == Numbered(i) && out.index.shards[i].nbytes <= limit)
    && Whole(out.index.tensors, out.index.shards, limit) && Thrifty(out.index.tensors, out.index.shards, limit)
  }

  /**
   Writes a fresh, compact directory. The source is read only; the result lists exactly the
   repaired entries: those that stay, in their order and under their new names, and the new
   ones behind them. When a new tensor cannot be had, the directory is left empty.
   */
  method RepairOut(files: Files, index: Index, plan: Plan, supply: nat, out: Disk) returns (ok: bool)
    requires Sound(State(files, index)) && plan.Wellformed() && index.limit > 0
    requires DistinctNames(NewNames(plan, index.tensors))
    requires out.Recorded() && out.files == map[]
    modifies out
    ensures ok <==> |plan.added| <= supply
    ensures !ok ==> out.files == map[]
    ensures ok ==> FreshCopy(out.Now(), Repaired(plan, ListingOf(State(files, index))), index.limit)
    ensures ok ==> Mended(plan, ListingOf(State(files, index)), ListingOf(out.Now()))
  {
    ghost var items := Repaired(plan, ListingOf(State(files, index)));
    var newIndex;
    ghost var payloads;
    ok, newIndex, payloads := WriteOut(files, index, plan, supply, out);
    if !ok {
      RemoveAll(out);
      return;
    }
    RepairedNames(plan, State(files, index));
    SameNames(NewNames(plan, index.tensors), newIndex.tensors, items);
    FreshIsClean(out.files, newIndex, payloads, items);
    TilesSorted(newIndex.shards, 0, newIndex.total);
    WrittenWithin(out.files, index.limit, newIndex, payloads);
    out.Swap(newIndex);
    RepairedMends(plan, ListingOf(State(files, index)));
  }

  /** The repaired listing carries the planned names. */
  lemma RepairedNames(plan: Plan, st: State)
    requires Sound(st)
    ensures var items, want := Repaired(plan, ListingOf(st)), NewNames(plan, st.index.tensors);
            |items| == |want| && forall i :: 0 <= i < |items| ==> items[i].0.name == want[i].name
  {
    SpaceStored(st.files, Ordered(st.index), st.index.total);
    KeptListing(plan, st.index.tensors, SpaceOf(st));
    var kept := plan.Kept(st.index.tensors);
    assert forall i :: 0 <= i < |kept| ==> Listing(kept, SpaceOf(st))[i].0.name == kept[i].name;
  }

  lemma SameNames(want: seq<Entry>, entries: seq<Entry>, items: seq<Item>)
    requires DistinctNames(want) && |want| == |items| == |entries|
    requires forall i :: 0 <= i < |items| ==> items[i].0.name == want[i].name
    requires forall i :: 0 <= i < |items| ==> entries[i].(off := 0) == items[i].0
    ensures DistinctNames(entries)
  {
    forall i | 0 <= i < |items|
      ensures entries[i].name == want[i].name
    {
      assert entries[i].(off := 0).name == items[i].0.name;
    }
  }

  // ------------------------------------------------------------ in place

  lemma UsedAreReferenced(index: Index, f: File)
    ensures Referenced(index, f) <==> f in UsedFiles(index)
  {
    if Referenced(index, f) {
      var i :| 0 <= i < |Ordered(index)| && Ordered(index)[i].file == f;
      SortMembers(ByOffset, index.shards, Ordered(index)[i]);
    }
    if f in UsedFiles(index) {
      var sh :| sh in index.shards && sh.file == f;
      SortMembers(ByOffset, index.shards, sh);
      var i :| 0 <= i < |Ordered(index)| && Ordered(index)[i] == sh;
      assert Ordered(index)[i].file == f;
    }
  }

  /** The free number is above every number on disk as long as all have five digits. */
  lemma NextIsFree(st: State, next: nat)
    requires Sound(st) && AllBelow(st.files.Keys, NUMBER_LIMIT)
    requires IsNext(st.files.Keys + UsedFiles(st.index), next)
    ensures FreeFrom(st.files, next)
  {
  }

  /** Every state recorded after `past` has the index and the bytes of `s0`. */
  ghost predicate Still(past: seq<State>, history: seq<State>, s0: State, next: nat) {
    && |past| <= |history| && history[..|past|] == past
    && forall i :: |past| <= i < |history| ==> Intact(history[i], s0) && FreeFrom(history[i].files, next)
  }

  lemma StillStep(past: seq<State>, history: seq<State>, s0: State, s: State, next: nat)
    requires Still(past, history, s0, next) && Intact(s, s0) && FreeFrom(s.files, next)
    ensures Still(past, history + [s], s0, next)
  {
    assert (history + [s])[..|past|] == history[..|past|];
  }

  /** Removes unreferenced shard files. */
  method RemoveOrphans(disk: Disk, orphans: seq<File>, next: nat)
    requires disk.Recorded() && Sound(disk.Now()) && FreeFrom(disk.files, next)
    requires forall f :: f in orphans ==> f !in UsedFiles(disk.index)
    modifies disk
    ensures disk.Recorded() && Intact(disk.Now(), old(disk.Now())) && FreeFrom(disk.files, next)
    ensures Still(old(disk.history), disk.history, old(disk.Now()), next)
    ensures forall f :: f in disk.files <==> f in old(disk.files) && f !in orphans
  {
    ghost var was, past := disk.Now(), disk.history;
    for k := 0 to |orphans|
      invariant disk.Recorded() && Intact(disk.Now(), was) && FreeFrom(disk.files, next)
      invariant Still(past, disk.history, was, next)
      invariant forall f :: f in disk.files <==> f in was.files && f !in orphans[..k]
    {
      var f := orphans[k];
      UsedAreReferenced(disk.index, f);
      ghost var removed := State(disk.files - {f}, disk.index);
      assert OnlyDiffersAt(f, removed, disk.Now());
      OtherFileIsIdle(disk.Now(), removed, f);
      StillStep(past, disk.history, was, removed, next);
      assert orphans[..k + 1] == orphans[..k] + [f];
      disk.Remove(f);
    }
    assert orphans[..|orphans|] == orphans;
  }

  /** Nothing a writer does to unused numbers disturbs the checkpoint. */
  lemma SpilledIsIntact(first: nat, next: nat, was: State, s: State)
    requires Sound(was) && FreeFrom(was.files, first) && first <= next && Spilled(first, next, was, s)
    ensures Intact(s, was) && FreeFrom(s.files, next)
  {
    forall f | Referenced(was.index, f) && f in was.files
      ensures f in s.files && s.files[f] == was.files[f]
    {
      assert f.Named? || f.num < first;
    }
    UnreferencedIsIdle(was, s);
  }

  lemma SpilledIsStill(first: nat, next: nat, was: State, past: seq<State>, history: seq<State>)
    requires Sound(was) && FreeFrom(was.files, first) && first <= next
    requires OnlySpilled(first, next, was, past, history)
    ensures Still(past, history, was, next)
  {
    forall i | |past| <= i < |history|
      ensures Intact(history[i], was) && FreeFrom(history[i].files, next)
    {
      SpilledIsIntact(first, next, was, history[i]);
    }
  }

  /** What the append leaves, and what it leaves when a new tensor cannot be had. */
  ghost predicate AppendDone(ok: bool, plan: Plan, was: State, now: State, first: nat, next: nat, more: seq<Shard>, entries: seq<Entry>, payloads: seq<seq<Byte>>) {
    && Intact(now, was) && FreeFrom(now.files, next)
    && (ok ==> Appended(was, now.files, first, more, entries, payloads) && Carried(AddedItems(plan), entries, payloads)
               && next == first + |more|)
    && (!ok ==> FreeFrom(now.files, first))
  }

  /**
   Appends the new tensors behind the old space; the old index stays in force. When one cannot
   be had, everything written is removed again.
   */
  method AppendNew(disk: Disk, plan: Plan, supply: nat, first: nat)
    returns (ok: bool, more: seq<Shard>, entries: seq<Entry>, next: nat, ghost payloads: seq<seq<Byte>>)
    requires disk.Recorded() && Loadable(disk.Now()) && FreeFrom(disk.files, first) && plan.Wellformed()
    requires disk.index.limit > 0 && disk.index.limit % ALIGN == 0
    modifies disk
    ensures disk.Recorded() && (ok <==> |plan.added| <= supply) && first <= next
    ensures Still(old(disk.history), disk.history, old(disk.Now()), next)
    ensures AppendDone(ok, plan, old(disk.Now()), disk.Now(), first, next, more, entries, payloads)
  {
    ghost var was, past := disk.Now(), disk.history;
    SpaceStored(was.files, Ordered(was.index), was.index.total);
    var w := new ShardWriter(disk, disk.index.limit, first, disk.index.total, SpaceOf(was));
    ok := WriteNew(w, plan, supply, []);
    entries, payloads := w.entries, w.payloads;
    next := w.shardIdx + 1;
    if ok {
      more := w.Close();
      assert [] + AddedItems(plan) == AddedItems(plan);
    } else {
      more := [];
      w.Abort();
      SpilledIsIntact(first, first, was, disk.Now());
    }
    SpilledIsIntact(first, next, was, disk.Now());
    SpilledIsStill(first, next, was, past, disk.history);
  }

  /** Appends the new tensors, if any. */
  method MaybeAppend(disk: Disk, plan: Plan, supply: nat, first: nat)
    returns (ok: bool, more: seq<Shard>, entries: seq<Entry>, next: nat, ghost payloads: seq<seq<Byte>>)
    requires disk.Recorded() && Loadable(disk.Now()) && FreeFrom(disk.files, first) && plan.Wellformed()
    requires disk.index.limit > 0 && disk.index.limit % ALIGN == 0
    modifies disk
    ensures disk.Recorded() && (ok <==> |plan.added| <= supply) && first <= next
    ensures Still(old(disk.history), disk.history, old(disk.Now()), next)
    ensures AppendDone(ok, plan, old(disk.Now()), disk.Now(), first, next, more, entries, payloads)
    ensures plan.Empty() ==> more == [] && entries == [] && disk.Now() == old(disk.Now())
  {
    ok, more, entries, next, payloads := true, [], [], first, [];
    AppendedNothing(disk.Now(), first);
    if plan.added != [] {
      ok, more, entries, next, payloads := AppendNew(disk, plan, supply, first);
    }
  }

  // ------------------------------------------------------------ the whole run

  /** Every state recorded after `past` is the old checkpoint or a repaired one on its way to the goal. */
  ghost predicate OnTheWay(plan: Plan, past: seq<State>, history: seq<State>, s0: State, next: nat) {
    && |past| <= |history| && history[..|past|] == past
    && forall i :: |past| <= i < |history| ==>
      (Intact(history[i], s0) || After(plan, history[i], s0)) && FreeFrom(history[i].files, next)
  }

  lemma WayFromStill(plan: Plan, past: seq<State>, history: seq<State>, s0: State, next: nat)
    requires Still(past, history, s0, next)
    ensures OnTheWay(plan, past, history, s0, next)
  {
  }

  lemma WaySwap(plan: Plan, past: seq<State>, mid: seq<State>, s0: State, s1: State, next: nat)
    requires Still(past, mid, s0, next) && After(plan, s1, s0) && FreeFrom(s1.files, next)
    ensures OnTheWay(plan, past, mid + [s1], s0, next)
  {
    assert (mid + [s1])[..|past|] == mid[..|past|];
  }

  /** Cleaning up first changes neither the old checkpoint nor the goal. */
  lemma AfterIntact(plan: Plan, s: State, clean: State, s0: State)
    requires Intact(clean, s0) && After(plan, s, clean)
    ensures After(plan, s, s0)
  {
  }

  lemma WayAfterStill(plan: Plan, past: seq<State>, mid: seq<State>, history: seq<State>, s0: State, clean: State, next: nat, next': nat)
    requires Still(past, mid, s0, next) && OnTheWay(plan, mid, history, clean, next') && Intact(clean, s0) && next <= next'
    ensures OnTheWay(plan, past, history, s0, next')
  {
    assert history[..|past|] == mid[..|past|];
    forall i | |past| <= i < |history|
      ensures (Intact(history[i], s0) || After(plan, history[i], s0)) && FreeFrom(history[i].files, next')
    {
      if i < |mid| {
        assert history[i] == history[..|mid|][i] == mid[i];
      } else if After(plan, history[i], clean) {
        AfterIntact(plan, history[i], clean, s0);
      }
    }
  }

  lemma WayThenSafe(plan: Plan, past: seq<State>, mid: seq<State>, history: seq<State>, s0: State, s1: State, next: nat, next': nat)
    requires OnTheWay(plan, past, mid, s0, next) && Safe(mid, history, s1, next') && After(plan, s1, s0) && next <= next'
    ensures OnTheWay(plan, past, history, s0, next')
  {
    assert history[..|past|] == mid[..|past|];
    forall i | |past| <= i < |history|
      ensures (Intact(history[i], s0) || After(plan, history[i], s0)) && FreeFrom(history[i].files, next')
    {
      if i < |mid| {
        assert history[i] == history[..|mid|][i] == mid[i];
      } else {
        FaithfulIsAfter(plan, history[i], s1, s0);
      }
    }
  }

  /** Going back to the old index is possible in every state recorded after `past`. */
  ghost predicate CanGoBack(past: seq<State>, history: seq<State>, s0: State) {
    |past| <= |history| && forall i :: |past| <= i < |history| ==> Intact(State(history[i].files, s0.index), s0)
  }

  lemma BackFromStill(past: seq<State>, history: seq<State>, s0: State, next: nat)
    requires Still(past, history, s0, next)
    ensures CanGoBack(past, history, s0)
  {
  }

  lemma BackAfterStill(past: seq<State>, mid: seq<State>, history: seq<State>, s0: State, clean: State, next: nat)
    requires Still(past, mid, s0, next) && Intact(clean, s0) && CanGoBack(mid, history, clean) && history[..|mid|] == mid
    ensures CanGoBack(past, history, s0)
  {
    forall i | |past| <= i < |history|
      ensures Intact(State(history[i].files, s0.index), s0)
    {
      if i < |mid| {
        assert history[i] == history[..|mid|][i] == mid[i];
      }
    }
  }

  /** Once a shard has been replaced, the old index names a file that is gone. */
  lemma LostEndsRollback(plan: Plan, was: State, repaired: State, more: seq<Shard>, files: Files)
    requires Sound(was) && plan.Wellformed() && Sound(repaired) && Lost(repaired.index, files)
    requires repaired.index.tensors == GrownTensors(plan, was) && repaired.index.total == |GrownSpace(plan, was)|
    requires Ordered(repaired.index) == Ordered(was.index) + more && Tiles(more, was.index.total, repaired.index.total)
    ensures !Sound(State(files, was.index))
  {
    var ss, all := Ordered(was.index), Ordered(repaired.index);
    var k :| 0 <= k < |all| && Dirty(repaired.index, k) && all[k].file !in files;
    var p := Pick(DeadOf(repaired.index.tensors, all[k]));
    if |ss| <= k {
      EdgesAscend(more, was.index.total, repaired.index.total, k - |ss|, k - |ss| + 1);
      assert Abuts(more, k - |ss|, repaired.index.total);
      AddedOwns(plan, was, p);
    }
    assert k < |ss| && ss[k].file !in files;
  }

  /** Every file that looks like a shard is one the index names. */
  ghost predicate Tidy(st: State) {
    forall f :: f in st.files && Matches(f) ==> f in UsedFiles(st.index)
  }

  lemma TidyOn(s: State, s0: State)
    requires Tidy(s0) && NoNewStrays(s, s0)
    ensures Tidy(s)
  {
    forall f | f in s.files && Matches(f)
      ensures f in UsedFiles(s.index)
    {
      UsedAreReferenced(s.index, f);
      UsedAreReferenced(s0.index, f);
    }
  }

  /** The files an append makes are those of the shards it adds. */
  lemma GrownTidy(plan: Plan, was: State, files: Files, first: nat, more: seq<Shard>, entries: seq<Entry>, payloads: seq<seq<Byte>>)
    requires Sound(was) && Tidy(was) && Appended(was, files, first, more, entries, payloads) && FreeFrom(files, first + |more|)
    ensures Tidy(State(files, Grown(plan, was.index, more, entries)))
  {
    var shards := was.index.shards + more;
    forall f | f in files && Matches(f)
      ensures f in set sh | sh in shards :: sh.file
    {
      if f in was.files {
        var sh :| sh in was.index.shards && sh.file == f;
        assert sh in shards;
      } else {
        var i := f.num - first;
        assert ShardLaid(files, more, first, was.index.limit, SpaceOf(was) + Packed(payloads), i);
        assert more[i] in shards && more[i].file == f;
      }
    }
  }

  /** What the swap puts in force. */
  ghost predicate Swapped(plan: Plan, was: State, now: State, more: seq<Shard>) {
    && After(plan, now, was)
    && now.index.tensors == GrownTensors(plan, was) && now.index.total == |GrownSpace(plan, was)|
    && Ordered(now.index) == Ordered(was.index) + more && Tiles(more, was.index.total, now.index.total)
    && |now.index.shards| == |was.index.shards| + |more|
  }

  lemma GrownIsSwapped(plan: Plan, was: State, files: Files, first: nat, more: seq<Shard>, entries: seq<Entry>, payloads: seq<seq<Byte>>)
    requires Loadable(was) && Appended(was, files, first, more, entries, payloads) && Carried(AddedItems(plan), entries, payloads)
    requires DistinctNames(plan.Kept(was.index.tensors) + entries)
    ensures Swapped(plan, was, State(files, Grown(plan, was.index, more, entries)), more)
  {
    SpaceStored(was.files, Ordered(was.index), was.index.total);
    GrownIsAfter(plan, was, files, first, more, entries, payloads);
    AppendedStored(was, files, first, more, entries, payloads);
    CarriedIsAdded(plan, entries, payloads, was.index.total);
  }

  /** The swap behind a finished append: on the way to the goal, and no way back barred. */
  lemma SwapIsSafe(plan: Plan, past: seq<State>, mid: seq<State>, was: State, now: State, first: nat, next: nat,
                   more: seq<Shard>, entries: seq<Entry>, payloads: seq<seq<Byte>>)
    requires Loadable(was) && Still(past, mid, was, next) && DistinctNames(NewNames(plan, was.index.tensors))
    requires AppendDone(true, plan, was, now, first, next, more, entries, payloads)
    ensures var repaired := State(now.files, Grown(plan, was.index, more, entries));
            && Swapped(plan, was, repaired, more)
            && OnTheWay(plan, past, mid + [repaired], was, next)
            && CanGoBack(past, mid + [repaired], was)
  {
    GrownNames(plan, was.index.tensors, entries, payloads);
    GrownIsSwapped(plan, was, now.files, first, more, entries, payloads);
    WaySwap(plan, past, mid, was, State(now.files, Grown(plan, was.index, more, entries)), next);
  }

  /** Appends what the plan adds and swaps to the index of the repaired checkpoint. */
  method Grow(disk: Disk, plan: Plan, supply: nat, first: nat) returns (ok: bool, next: nat, ghost more: seq<Shard>)
    requires disk.Recorded() && Loadable(disk.Now()) && FreeFrom(disk.files, first) && plan.Wellformed()
    requires disk.index.limit > 0 && disk.index.limit % ALIGN == 0
    requires DistinctNames(NewNames(plan, disk.index.tensors))
    modifies disk
    ensures disk.Recorded() && FreeFrom(disk.files, next) && first <= next && (ok <==> |plan.added| <= supply)
    ensures ok ==> Swapped(plan, old(disk.Now()), disk.Now(), more) && next == first + |more|
    ensures ok ==> Intact(State(disk.files, old(disk.index)), old(disk.Now()))
    ensures ok && Tidy(old(disk.Now())) ==> Tidy(disk.Now())
    ensures !ok ==> Intact(disk.Now(), old(disk.Now())) && FreeFrom(disk.files, first)
    ensures OnTheWay(plan, old(disk.history), disk.history, old(disk.Now()), next)
    ensures CanGoBack(old(disk.history), disk.history, old(disk.Now()))
  {
    ghost var was, past := disk.Now(), disk.history;
    var index := disk.index;
    var added, entries;
    ghost var payloads;
    ok, added, entries, next, payloads := MaybeAppend(disk, plan, supply, first);
    more := added;
    WayFromStill(plan, past, disk.history, was, next);
    BackFromStill(past, disk.history, was, next);
    if !ok {
      return;
    }
    SwapIsSafe(plan, past, disk.history, was, disk.Now(), first, next, more, entries, payloads);
    if Tidy(was) {
      GrownTidy(plan, was, disk.files, first, more, entries, payloads);
    }
    ghost var repaired := State(disk.files, Grown(plan, index, more, entries));
    if !plan.Empty() {
      disk.Swap(Index(plan.Kept(index.tensors) + entries, index.shards + added, index.total + SumBytes(added), index.limit));
    } else {
      EmptyKeeps(plan, index.tensors);
    }
    assert disk.Now() == repaired;
  }

  /** How many shards the repaired checkpoint has to rewrite, and what that means for going back. */
  ghost predicate Settles(plan: Plan, compacted: nat, was: State, repaired: State, now: State) {
    && After(plan, repaired, was) && Faithful(now, repaired) && DirtyCount(now.index) == 0
    && compacted == DirtyCount(repaired.index)
    && (compacted == 0 <==> GoalDead(plan, was) == {})
    && (Sound(State(now.files, was.index)) <==> compacted == 0)
  }

  /** Compacts, and writes the index once more to note how many shards were rewritten. */
  method CompactAndNote(disk: Disk, next: nat) returns (n: nat)
    requires disk.Recorded() && Sound(disk.Now()) && Compactable(disk.index) && FreeFrom(disk.files, next)
    modifies disk
    ensures disk.Recorded() && Faithful(disk.Now(), old(disk.Now()))
    ensures Safe(old(disk.history), disk.history, old(disk.Now()), next + n)
    ensures n == DirtyCount(old(disk.index)) && DirtyCount(disk.index) == 0
    ensures n == 0 ==> disk.Now() == old(disk.Now()) && disk.history == old(disk.history)
    ensures n > 0 ==> Lost(old(disk.index), disk.files)
    ensures NoNewStrays(disk.Now(), old(disk.Now()))
  {
    ghost var was, past := disk.Now(), disk.history;
    n := CompactInPlace(disk, next);
    if n > 0 {
      SafeStep(past, disk.history, was, disk.Now(), next + n);
      disk.Swap(disk.index);
    }
  }

  /** From the append to the end of the compaction. */
  method GrowAndCompact(disk: Disk, plan: Plan, supply: nat, first: nat)
    returns (ok: bool, compacted: nat, ghost repaired: State, ghost bound: nat)
    requires disk.Recorded() && Loadable(disk.Now()) && FreeFrom(disk.files, first) && plan.Wellformed()
    requires disk.index.limit > 0 && disk.index.limit % ALIGN == 0
    requires DistinctNames(NewNames(plan, disk.index.tensors))
    modifies disk
    ensures disk.Recorded() && (ok <==> |plan.added| <= supply) && first <= bound
    ensures ok ==> Settles(plan, compacted, old(disk.Now()), repaired, disk.Now())
    ensures ok ==> bound == first + |repaired.index.shards| - |old(disk.index.shards)| + compacted
    ensures ok && Tidy(old(disk.Now())) ==> Tidy(disk.Now())
    ensures !ok ==> compacted == 0 && Intact(disk.Now(), old(disk.Now())) && FreeFrom(disk.files, first)
    ensures OnTheWay(plan, old(disk.history), disk.history, old(disk.Now()), bound)
    ensures compacted == 0 ==> CanGoBack(old(disk.history), disk.history, old(disk.Now()))
  {
    ghost var was, past := disk.Now(), disk.history;
    var next;
    ghost var more;
    ok, next, more := Grow(disk, plan, supply, first);
    repaired, bound, compacted := disk.Now(), next, 0;
    if !ok {
      return;
    }
    compacted := Settle(disk, plan, next, was, past, more);
    bound := next + compacted;
  }

  /** Compacts the repaired checkpoint. */
  method Settle(disk: Disk, plan: Plan, next: nat, ghost was: State, ghost past: seq<State>, ghost more: seq<Shard>)
    returns (compacted: nat)
    requires disk.Recorded() && FreeFrom(disk.files, next) && plan.Wellformed() && Swapped(plan, was, disk.Now(), more)
    requires OnTheWay(plan, past, disk.history, was, next) && CanGoBack(past, disk.history, was)
    requires Intact(State(disk.files, was.index), was)
    modifies disk
    ensures disk.Recorded() && Settles(plan, compacted, was, old(disk.Now()), disk.Now())
    ensures Tidy(old(disk.Now())) ==> Tidy(disk.Now())
    ensures OnTheWay(plan, past, disk.history, was, next + compacted)
    ensures compacted == 0 ==> CanGoBack(past, disk.history, was)
  {
    ghost var repaired, mid := disk.Now(), disk.history;
    WellCutIsCompactable(repaired);
    compacted := CompactAndNote(disk, next);
    WayThenSafe(plan, past, mid, disk.history, was, repaired, next, next + compacted);
    if Tidy(repaired) {
      TidyOn(disk.Now(), repaired);
    }
    SettlesFrom(plan, compacted, was, repaired, more, disk.Now());
  }

  /** What the compaction did decides whether the old index still loads. */
  lemma SettlesFrom(plan: Plan, compacted: nat, was: State, repaired: State, more: seq<Shard>, now: State)
    requires Swapped(plan, was, repaired, more) && plan.Wellformed()
    requires Faithful(now, repaired) && DirtyCount(now.index) == 0 && compacted == DirtyCount(repaired.index)
    requires if compacted == 0 then now == repaired else Lost(repaired.index, now.files)
    requires Intact(State(repaired.files, was.index), was)
    ensures Settles(plan, compacted, was, repaired, now)
  {
    CleanIffNoDead(repaired.index);
    if compacted > 0 {
      LostEndsRollback(plan, was, repaired, more, now.files);
    }
  }

  /** How a run ends that had all it needed: settled, at the goal, and with no shard file left over if it did anything. */
  ghost predicate Finished(plan: Plan, compacted: nat, was: State, repaired: State, now: State) {
    && Settles(plan, compacted, was, repaired, now)
    && now.index.tensors == GoalTensors(plan, was) && SpaceOf(now) == GoalSpace(plan, was)
    && ((plan.Empty() && DirtyCount(was.index) == 0) || Tidy(now))
  }

  /**
   Repairs a directory in place. Whatever disk step an interruption follows, the directory
   holds the old checkpoint or a repaired one that leads to the same goal; run to the end, it
   has reached the goal and has no unowned byte: it lists what stays, in its order and under
   its new names, and the new tensors behind that. When a new tensor cannot be had, the old
   checkpoint stays as it was. Going back to the old index stays possible exactly as long as no
   shard had to be rewritten. Shard numbers stay below `bound`, and unless there was nothing to
   do, every shard file left is one the index names.
   */
  method RepairInPlace(disk: Disk, plan: Plan, supply: nat) returns (ok: bool, compacted: nat, ghost repaired: State, ghost bound: nat)
    requires disk.Recorded() && Loadable(disk.Now()) && plan.Wellformed()
    requires disk.index.limit > 0 && disk.index.limit % ALIGN == 0
    requires AllBelow(disk.files.Keys, NUMBER_LIMIT)
    requires DistinctNames(NewNames(plan, disk.index.tensors))
    modifies disk
    ensures disk.Recorded() && (ok <==> |plan.added| <= supply)
    ensures ok ==> Finished(plan, compacted, old(disk.Now()), repaired, disk.Now())
    ensures ok ==> Mended(plan, ListingOf(old(disk.Now())), ListingOf(disk.Now()))
    ensures !ok ==> Intact(disk.Now(), old(disk.Now()))
    ensures OnTheWay(plan, old(disk.history), disk.history, old(disk.Now()), bound)
    ensures compacted == 0 ==> CanGoBack(old(disk.history), disk.history, old(disk.Now()))
    ensures ok ==> NumbersBounded(old(disk.Now()), repaired, compacted, bound)
  {
    ghost var was := disk.Now();
    ok, compacted, repaired, bound := Patch(disk, plan, supply);
    if ok {
      RepairedMends(plan, ListingOf(was));
    }
  }

  /** The run took one number for each shard appended and each shard rewritten. */
  ghost predicate NumbersBounded(was: State, repaired: State, compacted: nat, bound: nat) {
    exists next: nat ::
      && IsNext(was.files.Keys + UsedFiles(was.index), next)
      && bound == next + |repaired.index.shards| - |was.index.shards| + compacted
  }

  /** The run itself, but for what its listing means. */
  method Patch(disk: Disk, plan: Plan, supply: nat) returns (ok: bool, compacted: nat, ghost repaired: State, ghost bound: nat)
    requires disk.Recorded() && Loadable(disk.Now()) && plan.Wellformed()
    requires disk.index.limit > 0 && disk.index.limit % ALIGN == 0
    requires AllBelow(disk.files.Keys, NUMBER_LIMIT)
    requires DistinctNames(NewNames(plan, disk.index.tensors))
    modifies disk
    ensures disk.Recorded() && (ok <==> |plan.added| <= supply)
    ensures ok ==> Finished(plan, compacted, old(disk.Now()), repaired, disk.Now())
    ensures !ok ==> Intact(disk.Now(), old(disk.Now()))
    ensures OnTheWay(plan, old(disk.history), disk.history, old(disk.Now()), bound)
    ensures compacted == 0 ==> CanGoBack(old(disk.history), disk.history, old(disk.Now()))
    ensures ok ==> NumbersBounded(old(disk.Now()), repaired, compacted, bound)
  {
    ghost var was, past := disk.Now(), disk.history;
    var next, orphans := ShardNumbers(disk.files, disk.index);
    NextIsFree(was, next);
    var dirty := DirtyShards(disk.index);
    if plan.Empty() && dirty == [] {
      NothingToDo(plan, was);
      return true, 0, was, next;
    }
    RemoveOrphans(disk, orphans, next);
    ghost var mid, clean := disk.history, disk.Now();
    ok, compacted, repaired, bound := GrowAndCompact(disk, plan, supply, next);
    WayAfterStill(plan, past, mid, disk.history, was, clean, next, bound);
    if compacted == 0 {
      BackAfterStill(past, mid, disk.history, was, clean, next);
    }
    if ok {
      SettlesIntact(plan, compacted, was, clean, repaired, disk.Now());
    }
  }

  /** An empty plan on a clean checkpoint has already reached its goal. */
  lemma NothingToDo(plan: Plan, st: State)
    requires Loadable(st) && plan.Empty() && DirtyCount(st.index) == 0
    ensures Settles(plan, 0, st, st, st)
    ensures st.index.tensors == GoalTensors(plan, st) && SpaceOf(st) == GoalSpace(plan, st)
  {
    EmptyRepairs(plan, st);
    EmptyGoal(plan, st);
    CleanIsFinal(st);
    UnreferencedIsIdle(st, st);
  }

  /** Cleaning up first does not matter. */
  lemma SettlesIntact(plan: Plan, compacted: nat, was: State, clean: State, repaired: State, now: State)
    requires Intact(clean, was) && Settles(plan, compacted, clean, repaired, now)
    ensures Settles(plan, compacted, was, repaired, now)
    ensures now.index.tensors == GoalTensors(plan, was) && SpaceOf(now) == GoalSpace(plan, was)
  {
    AfterIntact(plan, repaired, clean, was);
    FaithfulIsAfter(plan, now, repaired, was);
    CleanIsGoal(plan, now, was);
  }
}
