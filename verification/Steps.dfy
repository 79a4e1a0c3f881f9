/**
 The effect of one compaction step on a whole checkpoint, for every layout the validator
 accepts: when the result is accepted, what it keeps, and how far it gets.
 */
module Steps {
  import opened Layout
  import opened Deletion
  import opened Compaction
  import opened Grid

  /** The state after the swap: new index in force, whatever else is on disk. */
  ghost predicate Stepped(st: State, st': State, k: nat, f: File)
    requires Sound(st) && k < |Ordered(st.index)|
  {
    var ss := Ordered(st.index);
    SpaceStored(st.files, ss, st.index.total);
    assert Holds(st.files, ss[k], SpaceOf(st));
    && st'.index == Compacted(st.index, k, f)
    && Rewritten(st.files, st'.files, ss, k, f, Body(st.index.tensors, ss[k], SpaceOf(st)))
    && (forall j :: 0 <= j < |ss| ==> ss[j].file != f)
  }

  lemma StepOrdered(st: State, k: nat, f: File)
    requires Sound(st) && k < |Ordered(st.index)|
    ensures var ss := Ordered(st.index); var dead := DeadOf(st.index.tensors, ss[k]);
            Ordered(Compacted(st.index, k, f)) == Refile(MoveShards(dead, ss), k, f)
  {
    var ss := Ordered(st.index);
    var dead := DeadOf(st.index.tensors, ss[k]);
    TilesMove(ss, dead, st.index.total);
    TilesRefile(MoveShards(dead, ss), k, f, Rank(dead, st.index.total));
    TilesSorted(Refile(MoveShards(dead, ss), k, f), 0, Rank(dead, st.index.total));
  }

  /** The new files hold the sifted space, cut at the new edges. */
  lemma StepStored(st: State, st': State, k: nat, f: File)
    requires Sound(st) && k < |Ordered(st.index)| && Stepped(st, st', k, f)
    ensures var dead := DeadOf(st.index.tensors, Ordered(st.index)[k]);
            && Stored(st'.files, Ordered(st'.index), Sift(dead, SpaceOf(st)))
            && |Sift(dead, SpaceOf(st))| == st'.index.total
  {
    var ts, ss, total := st.index.tensors, Ordered(st.index), st.index.total;
    var dead, space := DeadOf(ts, ss[k]), SpaceOf(st);
    SpaceStored(st.files, ss, total);
    assert Holds(st.files, ss[k], space);
    StepOrdered(st, k, f);
    SiftPrefix(dead, space, |space|);
    StoredMoves(ts, ss, k, f, st.files, st'.files, space);
  }

  /** For every layout the validator accepts: it accepts the result of the step exactly when the cuts are safe. */
  lemma StepSoundIff(st: State, st': State, k: nat, f: File)
    requires Sound(st) && k < |Ordered(st.index)| && Stepped(st, st', k, f)
    ensures Sound(st') <==> CutsSafely(st.index.tensors, Ordered(st.index)[k])
  {
    var ts, ss, total := st.index.tensors, Ordered(st.index), st.index.total;
    EdgesAscend(ss, 0, total, k, k + 1);
    StepStored(st, st', k, f);
    StoredIsSpace(st'.files, Ordered(st'.index), Sift(DeadOf(ts, ss[k]), SpaceOf(st)));
    DeadUnowned(ts, ss[k]);
    SeparatedMoves(ts, DeadOf(ts, ss[k]), total);
    MovedUpToGrid(ts, DeadOf(ts, ss[k]), total);
    PagesIffSafeCuts(ts, total, ss[k]);
  }

  /** A safe step keeps every entry's bytes, and deletes just the dead bytes of its shard. */
  lemma StepSafe(st: State, st': State, k: nat, f: File)
    requires Sound(st) && k < |Ordered(st.index)| && Stepped(st, st', k, f)
    requires CutsSafely(st.index.tensors, Ordered(st.index)[k])
    ensures Sound(st')
    ensures ListingOf(st') == ListingOf(st)
    ensures SpaceOf(st') == Sift(DeadOf(st.index.tensors, Ordered(st.index)[k]), SpaceOf(st))
  {
    var ts, ss, total := st.index.tensors, Ordered(st.index), st.index.total;
    var dead, space := DeadOf(ts, ss[k]), SpaceOf(st);
    SpaceStored(st.files, ss, total);
    StepSoundIff(st, st', k, f);
    StepStored(st, st', k, f);
    StoredIsSpace(st'.files, Ordered(st'.index), Sift(dead, space));
    DeadUnowned(ts, ss[k]);
    ListingMoves(ts, dead, space);
  }

  /** A step keeps cuts on the grid and files apart. */
  lemma StepWellCut(st: State, k: nat, f: File)
    requires Loadable(st) && k < |Ordered(st.index)|
    requires forall j :: 0 <= j < |Ordered(st.index)| ==> Ordered(st.index)[j].file != f
    ensures WellCut(Compacted(st.index, k, f))
  {
    var ts, ss, total := st.index.tensors, Ordered(st.index), st.index.total;
    StepOrdered(st, k, f);
    assert Abuts(ss, k, total);
    assert ss[k].End() % ALIGN == 0;
    DeadIsPaged(ts, total, ss[k].off, ss[k].End());
    CutsMove(ss, DeadOf(ts, ss[k]), total, k, f);
  }

  /** A step on a dirty shard leaves one dirty shard fewer. */
  lemma StepProgress(st: State, k: nat, f: File)
    requires Sound(st) && k < |Ordered(st.index)|
    requires DeadOf(st.index.tensors, Ordered(st.index)[k]) != {}
    ensures DirtyCount(Compacted(st.index, k, f)) == DirtyCount(st.index) - 1
  {
    var ts, ss := st.index.tensors, Ordered(st.index);
    var dead := DeadOf(ts, ss[k]);
    var ts', m := MoveTensors(dead, ts), MoveShards(dead, ss);
    StepOrdered(st, k, f);
    var before, after := Dirtiness(ts, ss), Dirtiness(ts', m);
    forall j | 0 <= j < |ss|
      ensures after[j] == (j != k && before[j])
    {
      StepShard(st.index, k, j);
    }
    ClearOne(before, after, k);
    DirtyRefiled(ts', m, k, f);
  }

  lemma DirtyRefiled(ts: seq<Entry>, m: seq<Shard>, k: nat, f: File)
    requires k < |m|
    ensures var flags := Dirtiness(ts, m);
            Dirtiness(ts, Refile(m, k, f)) == if m[k].nbytes == 0 then flags[..k] + flags[k + 1..] else flags
  {
    var flags, r := Dirtiness(ts, m), Refile(m, k, f);
    var want := if m[k].nbytes == 0 then flags[..k] + flags[k + 1..] else flags;
    forall i | 0 <= i < |r|
      ensures Dirtiness(ts, r)[i] == want[i]
    {
      RefileAt(m, k, f, i);
    }
  }

  ghost function FinalSpace(st: State): seq<Byte>
    requires Sound(st)
  {
    Sift(AllDeadOf(st.index), SpaceOf(st))
  }

  /** No step changes where compaction is heading. */
  lemma StepConverges(st: State, st': State, k: nat, f: File)
    requires Sound(st) && k < |Ordered(st.index)| && Stepped(st, st', k, f)
    requires CutsSafely(st.index.tensors, Ordered(st.index)[k])
    ensures Sound(st')
    ensures FinalTensors(st'.index) == FinalTensors(st.index)
    ensures FinalSpace(st') == FinalSpace(st)
  {
    var ts, ss, total := st.index.tensors, Ordered(st.index), st.index.total;
    var dead, all, rest := DeadOf(ts, ss[k]), AllDeadOf(st.index), AllDeadOf(st'.index);
    StepSafe(st, st', k, f);
    SpaceStored(st.files, ss, total);
    DeadUnowned(ts, ss[k]);
    EdgesAscend(ss, 0, total, k, k + 1);
    assert Abuts(ss, k, total);
    forall p | 0 <= p < total
      ensures Settled(dead, rest, all, p)
    {
      if p !in dead {
        LiveMoves(ts, dead, total, p);
        RankReflects(dead, p, total);
      }
    }
    SiftComposes(dead, rest, all, SpaceOf(st));
    forall i | 0 <= i < |ts|
      ensures FinalTensors(st'.index)[i] == FinalTensors(st.index)[i]
    {
      assert Placed(ts[i], total);
      RankComposes(dead, rest, all, total, ts[i].off);
    }
  }

  /** With no dirty shard left the checkpoint is its own final form. */
  lemma CleanIsFinal(st: State)
    requires Sound(st) && DirtyCount(st.index) == 0
    ensures AllDeadOf(st.index) == {}
    ensures st.index.tensors == FinalTensors(st.index)
    ensures SpaceOf(st) == FinalSpace(st)
  {
    CleanHasNoDead(st.index);
    SiftNothing(SpaceOf(st));
    forall i | 0 <= i < |st.index.tensors|
      ensures FinalTensors(st.index)[i] == st.index.tensors[i]
    {
      assert Placed(st.index.tensors[i], st.index.total);
      RankNothing(st.index.tensors[i].off);
    }
  }

  // ------------------------------------------------------------ what a later step will find

  /** No other shard uses the file of shard k. */
  ghost predicate Unshared(ss: seq<Shard>, k: nat)
    requires k < |ss|
  {
    forall j :: 0 <= j < |ss| && j != k ==> ss[j].file != ss[k].file
  }

  ghost predicate Dirty(index: Index, k: nat)
    requires k < |Ordered(index)|
  {
    DeadOf(index.tensors, Ordered(index)[k]) != {}
  }

  /** No other shard uses the file, and the cuts are safe. */
  ghost predicate SafeToCompact(index: Index, k: nat)
    requires k < |Ordered(index)|
  {
    Unshared(Ordered(index), k) && CutsSafely(index.tensors, Ordered(index)[k])
  }

  /** Every dirty shard can be compacted safely. */
  ghost predicate Compactable(index: Index) {
    forall k :: 0 <= k < |Ordered(index)| && Dirty(index, k) ==> SafeToCompact(index, k)
  }

  /** Layouts cut on the grid with a file per shard are compactable. */
  lemma WellCutIsCompactable(st: State)
    requires Loadable(st)
    ensures Compactable(st.index)
  {
    var ss := Ordered(st.index);
    forall k | 0 <= k < |ss| && Dirty(st.index, k)
      ensures SafeToCompact(st.index, k)
    {
      EdgesAscend(ss, 0, st.index.total, k, k + 1);
      assert Abuts(ss, k, st.index.total);
      AlignedCutsAreSafe(st.index.tensors, st.index.total, ss[k]);
    }
  }

  /** Whether an entry starts behind another shard is not changed by the move. */
  lemma BehindMoves(dead: set<int>, x: Shard, p: int)
    requires 0 <= x.off < x.End() && 0 <= p && AllKept(dead, x.off, x.End())
    ensures x.End() <= p <==> MoveShard(dead, x).End() <= Rank(dead, p)
  {
    RankReflects(dead, x.End() - 1, p);
  }

  /** An entry that comes to start in the shard did so before, or lands exactly on its edge. */
  lemma InsideMoves(dead: set<int>, x: Shard, p: int)
    requires 0 <= x.off < x.End() && 0 <= p && AllKept(dead, x.off, x.End())
    ensures x.off <= p < x.End() ==> MoveShard(dead, x).off <= Rank(dead, p) < MoveShard(dead, x).End()
    ensures MoveShard(dead, x).off <= Rank(dead, p) < MoveShard(dead, x).End() ==>
              x.off <= p < x.End() || Rank(dead, p) == MoveShard(dead, x).off
  {
    BehindMoves(dead, x, p);
    if x.off <= p {
      RankMonotone(dead, x.off, p);
    } else {
      RankMonotone(dead, p, x.off);
    }
  }

  lemma SomeBehindMoves(ts: seq<Entry>, total: int, dead: set<int>, x: Shard)
    requires AllPlaced(ts, total) && 0 <= x.off < x.End() && AllKept(dead, x.off, x.End())
    ensures SomeBehind(MoveTensors(dead, ts), MoveShard(dead, x)) <==> SomeBehind(ts, x)
  {
    var mt, x' := MoveTensors(dead, ts), MoveShard(dead, x);
    forall i | 0 <= i < |ts|
      ensures x'.End() <= mt[i].off <==> x.End() <= ts[i].off
    {
      assert Placed(ts[i], total);
      BehindMoves(dead, x, ts[i].off);
    }
    if SomeBehind(ts, x) {
      var i :| 0 <= i < |ts| && x.End() <= ts[i].off;
      assert x'.End() <= mt[i].off;
    }
  }

  /** Entries starting in a shard still do; if only now some do, the shard has come to start on the grid. */
  lemma SomeInsideMoves(ts: seq<Entry>, total: int, dead: set<int>, x: Shard)
    requires AllPlaced(ts, total) && 0 <= x.off < x.End() && AllKept(dead, x.off, x.End())
    requires forall i :: 0 <= i < |ts| ==> Rank(dead, ts[i].off) % ALIGN == 0
    ensures SomeInside(ts, x) ==> SomeInside(MoveTensors(dead, ts), MoveShard(dead, x))
    ensures SomeInside(MoveTensors(dead, ts), MoveShard(dead, x)) && !SomeInside(ts, x) ==> MoveShard(dead, x).off % ALIGN == 0
  {
    var mt, x' := MoveTensors(dead, ts), MoveShard(dead, x);
    if SomeInside(ts, x) {
      var i :| 0 <= i < |ts| && x.off <= ts[i].off < x.End();
      InsideMoves(dead, x, ts[i].off);
      assert x'.off <= mt[i].off < x'.End();
    } else if SomeInside(mt, x') {
      var i :| 0 <= i < |mt| && x'.off <= mt[i].off < x'.End();
      assert Placed(ts[i], total);
      InsideMoves(dead, x, ts[i].off);
    }
  }

  /** With an entry starting in it, another shard shifts by a multiple of ALIGN. */
  lemma OtherShifts(ts: seq<Entry>, ss: seq<Shard>, total: int, k: nat, j: nat)
    requires AllPlaced(ts, total) && Tiles(ss, 0, total) && k < |ss| && j < |ss| && j != k
    requires CutsSafely(ts, ss[k]) && SomeInside(ts, ss[j])
    ensures MoveShard(DeadOf(ts, ss[k]), ss[j]).off % ALIGN == 0 <==> ss[j].off % ALIGN == 0
  {
    var sh, x := ss[k], ss[j];
    EdgesAscend(ss, 0, total, k, k + 1);
    EdgesAscend(ss, 0, total, j, j);
    RankOutside(ts, sh, x.off);
    if j < k {
      EdgesAscend(ss, 0, total, j, k);
    } else {
      EdgesAscend(ss, 0, total, k, j);
      assert SomeBehind(ts, sh) by {
        var i :| 0 <= i < |ts| && x.off <= ts[i].off < x.End();
        assert sh.End() <= ts[i].off;
      }
      ShiftByPages(x.off, Rank(DeadOf(ts, sh), x.off), sh.nbytes - LiveBytes(ts, sh));
    }
  }

  lemma ShiftByPages(a: int, b: int, d: int)
    requires b == a - d && d % ALIGN == 0
    ensures b % ALIGN == 0 <==> a % ALIGN == 0
  {
  }

  lemma CutsAgree(ts: seq<Entry>, x: Shard, ts': seq<Entry>, x': Shard)
    requires SomeBehind(ts', x') <==> SomeBehind(ts, x)
    requires x'.nbytes == x.nbytes && LiveBytes(ts', x') == LiveBytes(ts, x)
    requires SomeInside(ts, x) ==> SomeInside(ts', x') && (x'.off % ALIGN == 0 <==> x.off % ALIGN == 0)
    requires SomeInside(ts', x') && !SomeInside(ts, x) ==> x'.off % ALIGN == 0
    requires Live(ts', x'.off) <==> Live(ts, x.off)
    ensures CutsSafely(ts', x') <==> CutsSafely(ts, x)
  {
  }

  /** A safe step does not change whether another dirty shard is cut safely. */
  lemma CutsCarry(index: Index, k: nat, j: nat)
    requires Tiles(Ordered(index), 0, index.total) && AllPlaced(index.tensors, index.total)
    requires k < |Ordered(index)| && j < |Ordered(index)| && j != k && Dirty(index, j)
    requires CutsSafely(index.tensors, Ordered(index)[k])
    ensures var dead := DeadOf(index.tensors, Ordered(index)[k]);
            CutsSafely(MoveTensors(dead, index.tensors), MoveShard(dead, Ordered(index)[j])) <==>
            CutsSafely(index.tensors, Ordered(index)[j])
  {
    var ts, ss, total := index.tensors, Ordered(index), index.total;
    var dead, x := DeadOf(ts, ss[k]), ss[j];
    EdgesAscend(ss, 0, total, k, k + 1);
    OthersKept(ts, ss, total, k, j);
    StepShard(index, k, j);
    PagesIffSafeCuts(ts, total, ss[k]);
    SomeBehindMoves(ts, total, dead, x);
    SomeInsideMoves(ts, total, dead, x);
    DeadUnowned(ts, ss[k]);
    LiveMoves(ts, dead, total, x.off);
    if SomeInside(ts, x) {
      OtherShifts(ts, ss, total, k, j);
    }
    CutsAgree(ts, x, MoveTensors(dead, ts), MoveShard(dead, x));
  }

  /** Where shard j of the old list is in the new one. */
  function WentTo(m: seq<Shard>, k: nat, j: nat): (i: nat)
    requires k < |m| && j < |m| && j != k
    ensures CameFrom(m, k, i) == j
  {
    if m[k].nbytes == 0 && k < j then j - 1 else j
  }

  lemma UnsharedCarries(ss: seq<Shard>, m: seq<Shard>, k: nat, f: File, i: nat)
    requires |m| == |ss| && k < |m| && i < |Refile(m, k, f)| && CameFrom(m, k, i) != k
    requires forall j :: 0 <= j < |ss| ==> m[j].file == ss[j].file && ss[j].file != f
    requires Unshared(ss, k)
    ensures CameFrom(m, k, i) < |m|
    ensures Unshared(Refile(m, k, f), i) <==> Unshared(ss, CameFrom(m, k, i))
  {
    var r, j := Refile(m, k, f), CameFrom(m, k, i);
    RefileAt(m, k, f, i);
    if Unshared(r, i) {
      forall j' | 0 <= j' < |ss| && j' != j
        ensures ss[j'].file != ss[j].file
      {
        if j' != k {
          var i' := WentTo(m, k, j');
          RefileAt(m, k, f, i');
          assert r[i'].file != r[i].file;
        }
      }
    }
    if Unshared(ss, j) {
      forall i' | 0 <= i' < |r| && i' != i
        ensures r[i'].file != r[i].file
      {
        RefileAt(m, k, f, i');
      }
    }
  }

  /** A shard of the new list is dirty, and safe to compact, exactly when the shard it came from was. */
  lemma SafetyCarries(st: State, k: nat, f: File, i: nat)
    requires Sound(st) && k < |Ordered(st.index)| && SafeToCompact(st.index, k)
    requires forall j :: 0 <= j < |Ordered(st.index)| ==> Ordered(st.index)[j].file != f
    requires i < |Ordered(Compacted(st.index, k, f))|
    ensures var ss, m := Ordered(st.index), MoveShards(DeadOf(st.index.tensors, Ordered(st.index)[k]), Ordered(st.index));
            var j := CameFrom(m, k, i);
            && j < |ss|
            && (Dirty(Compacted(st.index, k, f), i) <==> j != k && Dirty(st.index, j))
            && (j != k && Dirty(st.index, j) ==>
                (SafeToCompact(Compacted(st.index, k, f), i) <==> SafeToCompact(st.index, j)))
  {
    var ts, ss := st.index.tensors, Ordered(st.index);
    var m := MoveShards(DeadOf(ts, ss[k]), ss);
    var j := CameFrom(m, k, i);
    StepOrdered(st, k, f);
    RefileAt(m, k, f, i);
    StepShard(st.index, k, j);
    if j != k && Dirty(st.index, j) {
      CutsCarry(st.index, k, j);
      UnsharedCarries(ss, m, k, f, i);
    }
  }

  /** A safe step neither makes nor mends an unsafe shard. */
  lemma StepCompactableIff(st: State, k: nat, f: File)
    requires Sound(st) && k < |Ordered(st.index)| && SafeToCompact(st.index, k)
    requires forall j :: 0 <= j < |Ordered(st.index)| ==> Ordered(st.index)[j].file != f
    ensures Compactable(Compacted(st.index, k, f)) <==> Compactable(st.index)
  {
    var ss, next := Ordered(st.index), Compacted(st.index, k, f);
    var m := MoveShards(DeadOf(st.index.tensors, ss[k]), ss);
    StepOrdered(st, k, f);
    if Compactable(st.index) {
      forall i | 0 <= i < |Ordered(next)| && Dirty(next, i)
        ensures SafeToCompact(next, i)
      {
        SafetyCarries(st, k, f, i);
      }
    }
    if Compactable(next) {
      forall j | 0 <= j < |ss| && Dirty(st.index, j)
        ensures SafeToCompact(st.index, j)
      {
        if j != k {
          SafetyCarries(st, k, f, WentTo(m, k, j));
        }
      }
    }
  }
}
