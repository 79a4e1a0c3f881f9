/**
 When compaction keeps the layout valid, for a step and for a whole run, and layouts the
 validator accepts on which it does not.
 */
module ShardEdges {
  import opened Sorting
  import opened Layout
  import opened Deletion
  import opened Compaction
  import opened Grid
  import opened Steps
  import opened InPlace
  import opened Growth

  // ------------------------------------------------------------ shared shard files

  lemma {:induction false} BytesFront(x: Shard, ss: seq<Shard>)
    ensures SumBytes([x] + ss) == x.nbytes + SumBytes(ss)
  {
    var n := |ss|;
    if n == 0 {
      assert ([x] + ss)[..0] == [];
    } else {
      BytesFront(x, ss[..n - 1]);
      assert ([x] + ss)[..n] == [x] + ss[..n - 1];
    }
  }

  lemma {:induction false} InsertSum(x: Shard, ss: seq<Shard>)
    ensures SumBytes(Insert(ByOffset, x, ss)) == x.nbytes + SumBytes(ss)
  {
    BytesFront(x, ss);
    if ss != [] && !ByOffset(x, ss[0]) {
      InsertSum(x, ss[1..]);
      BytesFront(ss[0], Insert(ByOffset, x, ss[1..]));
      BytesFront(ss[0], ss[1..]);
      assert ss == [ss[0]] + ss[1..];
    }
  }

  lemma {:induction false} SortSum(ss: seq<Shard>)
    ensures SumBytes(Sort(ByOffset, ss)) == SumBytes(ss)
  {
    if ss != [] {
      SortSum(ss[1..]);
      InsertSum(ss[0], Sort(ByOffset, ss[1..]));
      BytesFront(ss[0], ss[1..]);
      assert ss == [ss[0]] + ss[1..];
    }
  }

  /** `delta` once for every shard in the file. */
  ghost function Shed(ss: seq<Shard>, file: File, delta: int): int {
    if ss == [] then 0 else Shed(ss[..|ss| - 1], file, delta) + if ss[|ss| - 1].file == file then delta else 0
  }

  /** The new list is shorter than the old by what every shard of that file lost. */
  lemma {:induction false} NewSum(ss: seq<Shard>, sh: Shard, live: int, f: File)
    requires forall i :: 0 <= i < |ss| && ss[i].file == sh.file ==> ss[i].nbytes == sh.nbytes
    ensures SumBytes(NewShards(ss, sh, live, f)) == SumBytes(ss) - Shed(ss, sh.file, sh.nbytes - live)
  {
    if ss != [] {
      var n := |ss| - 1;
      var init, last := NewShards(ss[..n], sh, live, f), NewShard(ss[n], sh, live, f);
      NewSum(ss[..n], sh, live, f);
      BytesNext(init, last);
      NewBytes(ss[n], sh, live, f);
      assert NewShards(ss, sh, live, f) == init + last;
    }
  }

  lemma NewBytes(x: Shard, sh: Shard, live: int, f: File)
    requires x.file == sh.file ==> x.nbytes == sh.nbytes
    ensures var b := NewShard(x, sh, live, f);
            |b| <= 1 && (if b == [] then 0 else b[0].nbytes) == x.nbytes - if x.file == sh.file then sh.nbytes - live else 0
  {
  }

  lemma BytesNext(a: seq<Shard>, b: seq<Shard>)
    requires |b| <= 1
    ensures SumBytes(a + b) == SumBytes(a) + if b == [] then 0 else b[0].nbytes
  {
    if b == [] {
      assert a + b == a;
    } else {
      assert (a + b)[..|a|] == a;
    }
  }

  /** Each of two shards in one file loses the bytes that only one should. */
  lemma {:induction false} ShedTwice(ss: seq<Shard>, file: File, delta: int, i: nat, j: nat)
    requires i <= j < |ss| && ss[i].file == ss[j].file == file && delta > 0
    ensures Shed(ss, file, delta) >= if i < j then 2 * delta else delta
  {
    var n := |ss| - 1;
    ShedNonNegative(ss[..n], file, delta);
    if j < n {
      ShedTwice(ss[..n], file, delta, i, j);
    } else if i < j {
      ShedTwice(ss[..n], file, delta, i, i);
    }
  }

  lemma {:induction false} ShedNonNegative(ss: seq<Shard>, file: File, delta: int)
    requires delta > 0
    ensures Shed(ss, file, delta) >= 0
  {
    if ss != [] {
      ShedNonNegative(ss[..|ss| - 1], file, delta);
    }
  }

  /** The index the step writes. */
  ghost function WrittenIndex(index: Index, k: nat, f: File): Index
    requires k < |Ordered(index)|
  {
    var ts, ss := index.tensors, Ordered(index);
    var live := LiveBytes(ts, ss[k]);
    Index(MoveTensors(DeadOf(ts, ss[k]), ts), NewShards(ss, ss[k], live, f), index.total - (ss[k].nbytes - live), index.limit)
  }

  /** When two shards share the file, the list written does not tile the space. */
  lemma SharedFileBreaks(st: State, k: nat, j: nat, f: File)
    requires Sound(st) && k < |Ordered(st.index)| && j < |Ordered(st.index)| && j != k
    requires Dirty(st.index, k)
    requires Ordered(st.index)[j].file == Ordered(st.index)[k].file
    ensures !Tiles(Ordered(WrittenIndex(st.index, k, f)), 0, WrittenIndex(st.index, k, f).total)
  {
    var ss, sh, total := Ordered(st.index), Ordered(st.index)[k], st.index.total;
    var live, out := LiveBytes(st.index.tensors, sh), WrittenIndex(st.index, k, f);
    TilesSum(ss, 0, total);
    NewSum(ss, sh, live, f);
    ShedTwice(ss, sh.file, sh.nbytes - live, if j < k then j else k, if j < k then k else j);
    SortSum(out.shards);
    if Tiles(Ordered(out), 0, out.total) {
      TilesSum(Ordered(out), 0, out.total);
    }
  }

  /** With a file of its own, the index written for the shard is the compacted one. */
  lemma WrittenIsCompacted(st: State, k: nat, f: File)
    requires Sound(st) && k < |Ordered(st.index)| && Unshared(Ordered(st.index), k) && Dirty(st.index, k)
    ensures WrittenIndex(st.index, k, f) == Compacted(st.index, k, f)
  {
    var ss := Ordered(st.index);
    EdgesAscend(ss, 0, st.index.total, k, k + 1);
    NewShardsRefile(st.index, k, f);
    RankOutside(st.index.tensors, ss[k], st.index.total);
  }

  // ------------------------------------------------------------ passes and runs

  /**
   One pass of the compaction loop over a dirty shard: what the shard owns is copied to an
   unused file, the index built by the loop is in force, and files of other shards are as they were.
   */
  ghost predicate PassOver(st: State, st': State, k: nat, f: File)
    requires Sound(st) && k < |Ordered(st.index)|
  {
    var ss := Ordered(st.index);
    SpaceStored(st.files, ss, st.index.total);
    assert Holds(st.files, ss[k], SpaceOf(st));
    var body := Body(st.index.tensors, ss[k], SpaceOf(st));
    && Dirty(st.index, k) && st'.index == WrittenIndex(st.index, k, f)
    && (forall j :: 0 <= j < |ss| ==> ss[j].file != f)
    && (forall j :: 0 <= j < |ss| && ss[j].file != ss[k].file ==>
      ss[j].file in st'.files && st'.files[ss[j].file] == st.files[ss[j].file])
    && (body != [] ==> f in st'.files && st'.files[f] == body)
  }

  lemma PassIsStep(st: State, st': State, k: nat, f: File)
    requires Sound(st) && k < |Ordered(st.index)| && Unshared(Ordered(st.index), k) && PassOver(st, st', k, f)
    ensures Stepped(st, st', k, f)
  {
    WrittenIsCompacted(st, k, f);
  }

  /**
   The exact condition, for every layout the validator accepts and every dirty shard: the
   index written is accepted if and only if no other shard uses the file and the cuts are safe.
   */
  lemma WrittenSoundIff(st: State, st': State, k: nat, f: File)
    requires Sound(st) && k < |Ordered(st.index)| && PassOver(st, st', k, f)
    ensures Sound(st') <==> SafeToCompact(st.index, k)
  {
    var ss := Ordered(st.index);
    if Unshared(ss, k) {
      PassIsStep(st, st', k, f);
      StepSoundIff(st, st', k, f);
    } else {
      var j :| 0 <= j < |ss| && j != k && ss[j].file == ss[k].file;
      SharedFileBreaks(st, k, j, f);
    }
  }

  /** Some dirty shard of an accepted layout is rewritten. */
  ghost predicate Pass(st: State, st': State) {
    Sound(st) && exists k: nat, f :: k < |Ordered(st.index)| && PassOver(st, st', k, f)
  }

  /** Passes one after another, in any order of the shards; only the last index may be unacceptable. */
  ghost predicate Passes(run: seq<State>) {
    run != [] && forall i :: 0 <= i < |run| - 1 ==> Pass(run[i], run[i + 1])
  }

  /** A pass with an accepted result takes one dirty shard off and does not change what can be compacted. */
  lemma PassKeeps(st: State, st': State)
    requires Pass(st, st')
    ensures Sound(st') ==> (Compactable(st'.index) <==> Compactable(st.index))
    ensures Sound(st') ==> DirtyCount(st'.index) == DirtyCount(st.index) - 1
    ensures Compactable(st.index) ==> Sound(st')
  {
    var k: nat, f :| k < |Ordered(st.index)| && PassOver(st, st', k, f);
    WrittenSoundIff(st, st', k, f);
    if Sound(st') {
      WrittenIsCompacted(st, k, f);
      StepCompactableIff(st, k, f);
      StepProgress(st, k, f);
    }
  }

  lemma CleanIsCompactable(index: Index)
    requires DirtyCount(index) == 0
    ensures Compactable(index)
  {
    forall k | 0 <= k < |Ordered(index)|
      ensures !Dirty(index, k)
    {
      NoTrues(Dirtiness(index.tensors, Ordered(index)), k);
    }
  }

  lemma PassesOn(run: seq<State>)
    requires Passes(run) && |run| > 1
    ensures Passes(run[1..])
  {
    forall i | 0 <= i < |run| - 2
      ensures Pass(run[1..][i], run[1..][i + 1])
    {
      assert Pass(run[i + 1], run[i + 1 + 1]);
    }
  }

  /** A run to its end: nothing is dirty any more, or the last index written is not accepted. */
  ghost predicate RunsOut(run: seq<State>) {
    Passes(run) && Sound(run[0]) && (!Sound(run[|run| - 1]) || DirtyCount(run[|run| - 1].index) == 0)
  }

  lemma {:induction false} RunEndsSound(run: seq<State>)
    requires RunsOut(run)
    ensures Sound(run[|run| - 1]) <==> Compactable(run[0].index)
  {
    if |run| == 1 {
      CleanIsCompactable(run[0].index);
    } else {
      assert Pass(run[0], run[1]);
      PassKeeps(run[0], run[1]);
      if Sound(run[1]) {
        PassesOn(run);
        RunEndsSound(run[1..]);
      } else {
        assert |run| > 2 ==> Pass(run[1], run[2]);
      }
    }
  }

  /**
   The exact condition for a whole run, read off the index it starts from: every index written
   is accepted if and only if every dirty shard of the first index has a file of its own and
   safe cuts.
   */
  lemma RunSoundIff(run: seq<State>)
    requires RunsOut(run)
    ensures (forall i :: 0 <= i < |run| ==> Sound(run[i])) <==> Compactable(run[0].index)
  {
    RunEndsSound(run);
    forall i | 0 <= i < |run| - 1
      ensures Sound(run[i])
    {
      assert Pass(run[i], run[i + 1]);
    }
  }

  /** A run makes at most one pass for each shard dirty at the start. */
  lemma {:induction false} RunLength(run: seq<State>)
    requires Passes(run) && Sound(run[0])
    ensures |run| - 1 <= DirtyCount(run[0].index)
  {
    if |run| > 1 {
      assert Pass(run[0], run[1]);
      PassKeeps(run[0], run[1]);
      var rest := run[1..];
      if Sound(run[1]) {
        PassesOn(run);
        RunLength(rest);
      } else {
        assert |run| > 2 ==> Pass(run[1], run[2]);
        DirtyHasDirt(run[0], run[1]);
      }
    }
  }

  lemma DirtyHasDirt(st: State, st': State)
    requires Pass(st, st')
    ensures DirtyCount(st.index) > 0
  {
    if DirtyCount(st.index) == 0 {
      var k: nat, f :| k < |Ordered(st.index)| && PassOver(st, st', k, f);
      NoTrues(Dirtiness(st.index.tensors, Ordered(st.index)), k);
    }
  }

  // ------------------------------------------------------------ two examples

  lemma RankOverGap(dead: set<int>, a: int, b: int, c: int)
    requires 0 <= a <= b <= c && AllKept(dead, 0, a) && AllDead(dead, a, b) && AllKept(dead, b, c)
    ensures Rank(dead, c) == a + (c - b)
  {
    RankKept(dead, 0, a);
    RankDead(dead, a, b);
    RankKept(dead, b, c);
  }

  lemma OwnedByTwo(a: Entry, b: Entry, p: int)
    ensures Live([a, b], p) <==> a.Covers(p) || b.Covers(p)
  {
    assert a.Covers(p) ==> [a, b][0].Covers(p);
    assert b.Covers(p) ==> [a, b][1].Covers(p);
  }

  /** Two entries in two shards, the first shard cut at 5000. */
  ghost predicate RaggedCut(a: Entry, b: Entry, s0: Shard, s1: Shard) {
    && a.name != b.name && a.off == 0 && a.nbytes == 1 && b.off == 8192 && b.nbytes == 4096
    && s0.off == 0 && s0.nbytes == 5000 && s1.off == 5000 && s1.nbytes == 7288
  }

  lemma RaggedAccepted(a: Entry, b: Entry, s0: Shard, s1: Shard, files: Files)
    requires RaggedCut(a, b, s0, s1)
    requires s0.file in files && |files[s0.file]| == 5000 && s1.file in files && |files[s1.file]| == 7288
    ensures var index := Index([a, b], [s0, s1], s1.End(), 8192);
            Sound(State(files, index)) && Ordered(index) == [s0, s1]
  {
    assert Abuts([s0, s1], 0, s1.End()) && Abuts([s0, s1], 1, s1.End());
    TilesSorted([s0, s1], 0, s1.End());
    assert Placed(a, s1.End()) && Placed(b, s1.End()) && Apart(a, b);
  }

  /** The second entry drops to an offset off the grid. */
  lemma RaggedRank(a: Entry, b: Entry, s0: Shard, s1: Shard)
    requires RaggedCut(a, b, s0, s1)
    ensures DeadOf([a, b], s0) != {} && Rank(DeadOf([a, b], s0), b.off) == 7288
  {
    var dead := DeadOf([a, b], s0);
    forall p
      ensures p in dead <==> a.End() <= p < s0.End()
    {
      OwnedByTwo(a, b, p);
    }
    assert a.End() in dead;
    RankOverGap(dead, a.End(), s0.End(), b.off);
  }

  /**
   A layout the validator accepts, with a shard edge off the ALIGN grid, is taken by one
   compaction step to one the validator rejects: the second entry ends up unaligned.
   */
  lemma UnalignedEdgeBreaks(a: Entry, b: Entry, s0: Shard, s1: Shard, files: Files, f: File)
    requires RaggedCut(a, b, s0, s1)
    requires s0.file in files && |files[s0.file]| == 5000 && s1.file in files && |files[s1.file]| == 7288
    ensures var index := Index([a, b], [s0, s1], s1.End(), 8192);
            && Sound(State(files, index)) && Ordered(index) == [s0, s1] && DeadOf([a, b], s0) != {}
            && !Sound(State(files, Compacted(index, 0, f)))
  {
    var index := Index([a, b], [s0, s1], s1.End(), 8192);
    RaggedAccepted(a, b, s0, s1, files);
    RaggedRank(a, b, s0, s1);
    var moved := Compacted(index, 0, f);
    assert moved.tensors[1] == MoveEntry(DeadOf([a, b], s0), b);
    assert !Placed(moved.tensors[1], moved.total);
  }

  /**
   Two shards in one file of 4096 bytes and one entry over the second: the validator accepts
   the layout, its first shard is dirty, and the index compaction writes is rejected.
   */
  lemma SharedFileExample(e: Entry, file: File, files: Files, f: File)
    requires e.off == 4096 && e.nbytes == 4096 && file in files && |files[file]| == 4096
    ensures var index := Index([e], [Shard(file, 0, 4096), Shard(file, 4096, 4096)], 8192, 8192);
            && Sound(State(files, index)) && Ordered(index) == index.shards && Dirty(index, 0)
            && !Sound(State(files, WrittenIndex(index, 0, f)))
  {
    var s0, s1 := Shard(file, 0, 4096), Shard(file, 4096, 4096);
    var index := Index([e], [s0, s1], 8192, 8192);
    assert Abuts([s0, s1], 0, 8192) && Abuts([s0, s1], 1, 8192);
    TilesSorted([s0, s1], 0, 8192);
    assert Placed(e, 8192);
    assert 0 in DeadOf([e], s0) by {
      assert !Live([e], 0);
    }
    SharedFileBreaks(State(files, index), 0, 1, f);
  }
}
