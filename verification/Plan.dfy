/** What a repair does to the entries: rename, drop, replace and add. */
module Plan {
  import opened Layout

  datatype NewTensor = NewTensor(entry: Entry, bytes: seq<Byte>)

  datatype Plan = Plan(renames: map<string, string>, drops: set<string>, added: seq<NewTensor>) {
    function NewName(e: Entry): string {
      if e.kind == "weight" && e.name in renames then renames[e.name] else e.name
    }

    predicate Keeps(e: Entry) {
      !(e.kind == "weight" && (NewName(e) in drops || exists i :: 0 <= i < |added| && added[i].entry.name == NewName(e)))
    }

    function Renamed(e: Entry): Entry {
      e.(name := NewName(e))
    }

    /** The kept entries under their new names, where they were. */
    function Kept(ts: seq<Entry>): seq<Entry> {
      if ts == [] then [] else
        var n := |ts| - 1;
        Kept(ts[..n]) + if Keeps(ts[n]) then [Renamed(ts[n])] else []
    }

    /** New tensors announce the length of their bytes. */
    ghost predicate Wellformed() {
      forall i :: 0 <= i < |added| ==> added[i].entry.nbytes == |added[i].bytes|
    }

    predicate Empty() {
      renames == map[] && drops == {} && added == []
    }
  }

  type Item = (Entry, seq<Byte>)

  /** The repaired listing: the kept items renamed, in order, then the new ones. */
  ghost function Repaired(plan: Plan, items: seq<Item>): seq<Item> {
    KeptItems(plan, items) + AddedItems(plan)
  }

  ghost function KeptItems(plan: Plan, items: seq<Item>): seq<Item> {
    if items == [] then [] else
      var n := |items| - 1;
      KeptItems(plan, items[..n]) + if plan.Keeps(items[n].0) then [(plan.Renamed(items[n].0), items[n].1)] else []
  }

  ghost function AddedItems(plan: Plan): seq<Item> {
    seq(|plan.added|, i requires 0 <= i < |plan.added| => (plan.added[i].entry.(off := 0), plan.added[i].bytes))
  }

  // ------------------------------------------------------------ what a repair means

  /** The plan drops this name, or a new tensor has it. */
  ghost predicate Taken(plan: Plan, name: string) {
    name in plan.drops || exists k :: 0 <= k < |plan.added| && plan.added[k].entry.name == name
  }

  /** Only a weight gives way, and only one whose name after renaming is taken. */
  ghost predicate Stays(plan: Plan, e: Entry) {
    e.kind == "weight" ==>
      if e.name in plan.renames then !Taken(plan, plan.renames[e.name]) else !Taken(plan, e.name)
  }

  /** The bytes and the data of the old item, under the new name if it is a weight that gets one. */
  ghost predicate Carries(plan: Plan, was: Item, now: Item) {
    && now.1 == was.1
    && (if was.0.kind == "weight" && was.0.name in plan.renames
        then now.0 == was.0.(name := plan.renames[was.0.name])
        else now.0 == was.0)
  }

  /** `kept` is the items of `before` that stay, in their old order; item i was at from[i]. */
  ghost predicate SelectedBy(plan: Plan, before: seq<Item>, kept: seq<Item>, from: seq<nat>) {
    && |kept| == |from|
    && (forall i, j :: 0 <= i < j < |from| ==> from[i] < from[j])
    && (forall i :: 0 <= i < |from| ==> from[i] < |before| && Carries(plan, before[from[i]], kept[i]))
    && (forall j: nat :: j in from <==> j < |before| && Stays(plan, before[j].0))
  }

  ghost predicate Selected(plan: Plan, before: seq<Item>, kept: seq<Item>) {
    exists from :: SelectedBy(plan, before, kept, from)
  }

  /** The items that stay come first, the new tensors behind them in plan order, and there is nothing else. */
  ghost predicate Mended(plan: Plan, before: seq<Item>, after: seq<Item>) {
    var n := |after| - |plan.added|;
    && 0 <= n && Selected(plan, before, after[..n])
    && forall k :: 0 <= k < |plan.added| ==> after[n + k] == (plan.added[k].entry.(off := 0), plan.added[k].bytes)
  }

  /** Where the kept items stood. */
  ghost function KeptAt(plan: Plan, items: seq<Item>): seq<nat> {
    if items == [] then [] else
      var n := |items| - 1;
      KeptAt(plan, items[..n]) + if plan.Keeps(items[n].0) then [n] else []
  }

  lemma KeepsIsStays(plan: Plan, e: Entry)
    ensures plan.Keeps(e) <==> Stays(plan, e)
  {
  }

  lemma {:induction false} KeptIsSelected(plan: Plan, items: seq<Item>)
    ensures SelectedBy(plan, items, KeptItems(plan, items), KeptAt(plan, items))
  {
    if items != [] {
      var n := |items| - 1;
      KeptIsSelected(plan, items[..n]);
      KeepsIsStays(plan, items[n].0);
    }
  }

  /** The repaired listing is the mended one. */
  lemma RepairedMends(plan: Plan, items: seq<Item>)
    ensures Selected(plan, items, KeptItems(plan, items))
    ensures Mended(plan, items, Repaired(plan, items))
  {
    KeptIsSelected(plan, items);
    MendedFrom(plan, items, KeptItems(plan, items), AddedItems(plan));
  }

  lemma MendedFrom(plan: Plan, before: seq<Item>, kept: seq<Item>, added: seq<Item>)
    requires Selected(plan, before, kept) && added == AddedItems(plan)
    ensures Mended(plan, before, kept + added)
  {
    FrontOf(kept, added);
  }

  lemma FrontOf(a: seq<Item>, b: seq<Item>)
    ensures (a + b)[..|a + b| - |b|] == a
  {
  }

  /** What stays is there: other entries as they were, weights under their new names. */
  lemma MendedKeeps(plan: Plan, before: seq<Item>, after: seq<Item>, j: nat)
    requires Mended(plan, before, after) && j < |before|
    ensures var e := before[j].0;
            && (e.kind != "weight" ==> before[j] in after)
            && (e.kind == "weight" && e.name in plan.renames && !Taken(plan, plan.renames[e.name]) ==>
              (e.(name := plan.renames[e.name]), before[j].1) in after)
            && (e.kind == "weight" && e.name !in plan.renames && !Taken(plan, e.name) ==> before[j] in after)
  {
    var kept := after[..|after| - |plan.added|];
    var from :| SelectedBy(plan, before, kept, from);
    if Stays(plan, before[j].0) {
      var i := StayingIsKept(plan, before, kept, from, j);
      var now := after[i];
      assert now in after && Carries(plan, before[j], now);
    }
  }

  lemma StayingIsKept(plan: Plan, before: seq<Item>, kept: seq<Item>, from: seq<nat>, j: nat) returns (i: nat)
    requires SelectedBy(plan, before, kept, from) && j < |before| && Stays(plan, before[j].0)
    ensures i < |kept| && Carries(plan, before[j], kept[i])
  {
    i :| 0 <= i < |from| && from[i] == j;
  }

  /** What is there stays or is new: no weight carried over has a name that is taken. */
  lemma MendedDrops(plan: Plan, before: seq<Item>, after: seq<Item>, i: nat)
    requires Mended(plan, before, after) && i < |after| - |plan.added| && after[i].0.kind == "weight"
    ensures !Taken(plan, after[i].0.name)
    ensures exists j :: 0 <= j < |before| && Carries(plan, before[j], after[i])
  {
    var kept := after[..|after| - |plan.added|];
    var from :| SelectedBy(plan, before, kept, from);
    var j := from[i];
    CameFromStaying(plan, before, kept, from, i, j);
    CarriedIsFree(plan, before[j], after[i]);
  }

  lemma CameFromStaying(plan: Plan, before: seq<Item>, kept: seq<Item>, from: seq<nat>, i: nat, j: nat)
    requires SelectedBy(plan, before, kept, from) && i < |from| && from[i] == j
    ensures j < |before| && Stays(plan, before[j].0) && Carries(plan, before[j], kept[i])
  {
    assert j in from;
  }

  lemma CarriedIsFree(plan: Plan, was: Item, now: Item)
    requires Stays(plan, was.0) && Carries(plan, was, now) && now.0.kind == "weight"
    ensures !Taken(plan, now.0.name)
  {
  }

  /** Where a kept entry came from. */
  lemma {:induction false} KeptFrom(plan: Plan, ts: seq<Entry>, i: nat) returns (j: nat)
    requires i < |plan.Kept(ts)|
    ensures j < |ts| && plan.Kept(ts)[i] == plan.Renamed(ts[j])
  {
    var n := |ts| - 1;
    if i < |plan.Kept(ts[..n])| {
      j := KeptFrom(plan, ts[..n], i);
    } else {
      j := n;
    }
  }

  lemma KeptPlaced(plan: Plan, ts: seq<Entry>, total: int)
    requires AllPlaced(ts, total)
    ensures AllPlaced(plan.Kept(ts), total)
  {
    forall i | 0 <= i < |plan.Kept(ts)|
      ensures Placed(plan.Kept(ts)[i], total)
    {
      var j := KeptFrom(plan, ts, i);
      assert Placed(ts[j], total);
    }
  }

  lemma {:induction false} KeptSeparated(plan: Plan, ts: seq<Entry>)
    requires Separated(ts)
    ensures Separated(plan.Kept(ts))
  {
    if ts != [] {
      var n := |ts| - 1;
      KeptSeparated(plan, ts[..n]);
      var before := plan.Kept(ts[..n]);
      forall i | 0 <= i < |before|
        ensures Apart(before[i], ts[n])
      {
        var j := KeptFrom(plan, ts[..n], i);
        assert Apart(ts[j], ts[n]);
      }
    }
  }

  lemma ListingNext(ts: seq<Entry>, e: Entry, space: seq<Byte>)
    requires AllPlaced(ts, |space|) && Placed(e, |space|)
    ensures AllPlaced(ts + [e], |space|)
    ensures Listing(ts + [e], space) == Listing(ts, space) + [ItemOf(e, space)]
  {
  }

  lemma KeptItemsNext(plan: Plan, items: seq<Item>, x: Item)
    ensures KeptItems(plan, items + [x]) ==
              KeptItems(plan, items) + if plan.Keeps(x.0) then [(plan.Renamed(x.0), x.1)] else []
  {
    assert (items + [x])[..|items|] == items;
  }

  lemma {:induction false} KeptListing(plan: Plan, ts: seq<Entry>, space: seq<Byte>)
    requires AllPlaced(ts, |space|)
    ensures AllPlaced(plan.Kept(ts), |space|)
    ensures Listing(plan.Kept(ts), space) == KeptItems(plan, Listing(ts, space))
  {
    KeptPlaced(plan, ts, |space|);
    if ts != [] {
      var n := |ts| - 1;
      var init, e := ts[..n], ts[n];
      assert Placed(e, |space|) && ts == init + [e];
      KeptListing(plan, init, space);
      ListingNext(init, e, space);
      KeptItemsNext(plan, Listing(init, space), ItemOf(e, space));
      KeptNextListing(plan, init, e, space);
    }
  }

  /** Read in the old space, the kept entries are the old items that stay. */
  lemma KeptAreSelected(plan: Plan, ts: seq<Entry>, space: seq<Byte>)
    requires AllPlaced(ts, |space|)
    ensures AllPlaced(plan.Kept(ts), |space|)
    ensures Selected(plan, Listing(ts, space), Listing(plan.Kept(ts), space))
  {
    KeptListing(plan, ts, space);
    RepairedMends(plan, Listing(ts, space));
  }

  lemma KeptNextListing(plan: Plan, init: seq<Entry>, e: Entry, space: seq<Byte>)
    requires Placed(e, |space|) && AllPlaced(plan.Kept(init), |space|) && AllPlaced(plan.Kept(init + [e]), |space|)
    ensures Listing(plan.Kept(init + [e]), space) == Listing(plan.Kept(init), space) +
              if plan.Keeps(ItemOf(e, space).0) then [(plan.Renamed(ItemOf(e, space).0), ItemOf(e, space).1)] else []
  {
    assert (init + [e])[..|init|] == init;
    assert plan.Keeps(e.(off := 0)) <==> plan.Keeps(e);
    if plan.Keeps(e) {
      ListingNext(plan.Kept(init), plan.Renamed(e), space);
    } else {
      assert plan.Kept(init + [e]) == plan.Kept(init);
    }
  }

  /** An empty plan keeps everything as it is. */
  lemma {:induction false} EmptyKeeps(plan: Plan, ts: seq<Entry>)
    requires plan.Empty()
    ensures plan.Kept(ts) == ts
  {
    if ts != [] {
      EmptyKeeps(plan, ts[..|ts| - 1]);
    }
  }
}
