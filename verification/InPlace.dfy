/**
 Compaction as it runs: copy the owned ranges of one dirty shard to a new file, swap the
 index, remove the old file, repeat. Every state on the way is a faithful checkpoint.
 */
module InPlace {
  import opened Basics
  import opened Layout
  import opened Deletion
  import opened Compaction
  import opened Grid
  import opened Steps
  import opened Intervals
  import opened LiveRanges
  import opened Disk

  // ------------------------------------------------------------ what survives a crash

  /**
   `s` is accepted, lists what `s0` lists, and compacts to what `s0` compacts to, under the same
   shard limit. What makes compaction safe in `s0` makes it safe in `s`.
   */
  ghost predicate Faithful(s: State, s0: State) {
    && Sound(s0) && Sound(s) && s.index.limit == s0.index.limit
    && (Compactable(s0.index) ==> Compactable(s.index)) && (WellCut(s0.index) ==> WellCut(s.index))
    && ListingOf(s) == ListingOf(s0)
    && FinalTensors(s.index) == FinalTensors(s0.index)
    && FinalSpace(s) == FinalSpace(s0)
  }

  ghost predicate Referenced(index: Index, f: File) {
    exists i :: 0 <= i < |Ordered(index)| && Ordered(index)[i].file == f
  }

  /** `s` has the index and the bytes of `s0`; other files may have come or gone. */
  ghost predicate Intact(s: State, s0: State) {
    Sound(s0) && Sound(s) && s.index == s0.index && SpaceOf(s) == SpaceOf(s0)
  }

  /** Files the index does not name are of no consequence. */
  lemma UnreferencedIsIdle(s: State, s': State)
    requires Sound(s) && s'.index == s.index
    requires forall f :: Referenced(s.index, f) && f in s.files ==> f in s'.files && s'.files[f] == s.files[f]
    ensures Intact(s', s) && Faithful(s', s)
  {
    var ss := Ordered(s.index);
    SpaceStored(s.files, ss, s.index.total);
    forall i | 0 <= i < |ss|
      ensures Holds(s'.files, ss[i], SpaceOf(s))
    {
      assert Holds(s.files, ss[i], SpaceOf(s)) && Referenced(s.index, ss[i].file);
    }
    StoredIsSpace(s'.files, ss, SpaceOf(s));
  }

  lemma OtherFileIsIdle(s: State, s': State, f: File)
    requires Sound(s) && OnlyDiffersAt(f, s', s) && !Referenced(s.index, f)
    ensures Intact(s', s) && Faithful(s', s)
  {
    forall g | Referenced(s.index, g) && g in s.files
      ensures g in s'.files && s'.files[g] == s.files[g]
    {
      assert g in s.files - {f};
      assert g in s'.files - {f};
    }
    UnreferencedIsIdle(s, s');
  }

  lemma StepFaithful(st: State, st': State, k: nat, f: File)
    requires Sound(st) && k < |Ordered(st.index)| && Stepped(st, st', k, f) && SafeToCompact(st.index, k)
    ensures Faithful(st', st)
  {
    StepSafe(st, st', k, f);
    StepConverges(st, st', k, f);
    StepCompactableIff(st, k, f);
    if WellCut(st.index) {
      StepWellCut(st, k, f);
    }
  }

  /** Shard numbers from `next` on are unused. */
  ghost predicate FreeFrom(files: Files, next: nat) {
    forall f :: f in files && f.Numbered? ==> f.num < next
  }

  // ------------------------------------------------------------ copying

  /** Every range lies inside content that starts at s0. */
  predicate InBounds(content: seq<Byte>, s0: int, rs: seq<Range>) {
    forall i :: 0 <= i < |rs| ==> 0 <= rs[i].lo - s0 <= rs[i].hi - s0 <= |content|
  }

  /** The first n ranges of the content, end to end. */
  function Gather(content: seq<Byte>, s0: int, rs: seq<Range>, n: nat): seq<Byte>
    requires n <= |rs| && InBounds(content, s0, rs)
  {
    if n == 0 then [] else Gather(content, s0, rs, n - 1) + content[rs[n - 1].lo - s0..rs[n - 1].hi - s0]
  }

  /** `kept` has range i of the space right after the lengths of the ranges before it. */
  ghost predicate RangeCarried(space: seq<Byte>, s0: int, rs: seq<Range>, kept: seq<Byte>, i: nat) {
    && i < |rs| && 0 <= s0 <= rs[i].lo <= rs[i].hi <= |space|
    && s0 <= s0 + SumLengths(rs[..i]) <= s0 + SumLengths(rs[..i + 1]) <= |kept|
    && kept[s0 + SumLengths(rs[..i])..s0 + SumLengths(rs[..i + 1])] == space[rs[i].lo..rs[i].hi]
  }

  lemma RangeInSift(ts: seq<Entry>, sh: Shard, rs: seq<Range>, space: seq<Byte>, i: nat)
    requires 0 <= sh.off <= sh.End() <= |space| && i < |rs|
    requires Canonical(rs, sh.off, sh.End()) && Exact(rs, ts, sh.off, sh.End())
    ensures RangeCarried(space, sh.off, rs, Sift(DeadOf(ts, sh), space), i)
  {
    RangeRanks(ts, sh, rs, i);
    CarriedFrom(DeadOf(ts, sh), space, sh.off, rs, i, SumLengths(rs[..i]), SumLengths(rs[..i + 1]));
  }

  lemma CarriedFrom(dead: set<int>, space: seq<Byte>, s0: int, rs: seq<Range>, i: nat, a: int, b: int)
    requires i < |rs| && 0 <= s0 <= rs[i].lo <= rs[i].hi <= |space| && AllKept(dead, rs[i].lo, rs[i].hi)
    requires 0 <= a <= b && a == SumLengths(rs[..i]) && b == SumLengths(rs[..i + 1])
    requires Rank(dead, rs[i].lo) == s0 + a && Rank(dead, rs[i].hi) == s0 + b
    ensures RangeCarried(space, s0, rs, Sift(dead, space), i)
  {
    SiftSlice(dead, space, rs[i].lo, rs[i].hi);
  }

  lemma RangeRanks(ts: seq<Entry>, sh: Shard, rs: seq<Range>, i: nat)
    requires 0 <= sh.off <= sh.End() && i < |rs|
    requires Canonical(rs, sh.off, sh.End()) && Exact(rs, ts, sh.off, sh.End())
    ensures 0 <= SumLengths(rs[..i]) <= SumLengths(rs[..i + 1])
    ensures Rank(DeadOf(ts, sh), rs[i].lo) == sh.off + SumLengths(rs[..i])
    ensures Rank(DeadOf(ts, sh), rs[i].hi) == sh.off + SumLengths(rs[..i + 1])
    ensures AllKept(DeadOf(ts, sh), rs[i].lo, rs[i].hi) && sh.off <= rs[i].lo <= rs[i].hi <= sh.End()
  {
    SumGrows(rs, i);
    PrefixRanks(rs, ts, sh.off, sh.End(), i);
    RangeKept(rs, ts, sh.off, sh.End(), i);
    RankKept(DeadOf(ts, sh), rs[i].lo, rs[i].hi);
  }

  /** `kept` begins the shard at s0 with the first i ranges end to end. */
  ghost predicate Begins(content: seq<Byte>, s0: int, rs: seq<Range>, kept: seq<Byte>, i: nat, sum: int)
    requires i <= |rs| && InBounds(content, s0, rs)
  {
    0 <= s0 <= s0 + sum <= |kept| && Gather(content, s0, rs, i) == kept[s0..s0 + sum]
  }

  lemma BeginsOn(space: seq<Byte>, s0: int, s1: int, rs: seq<Range>, kept: seq<Byte>, k: nat, a: int, b: int)
    requires RangeCarried(space, s0, rs, kept, k) && rs[k].hi <= s1 <= |space| && InBounds(space[s0..s1], s0, rs)
    requires a == SumLengths(rs[..k]) && b == SumLengths(rs[..k + 1]) && Begins(space[s0..s1], s0, rs, kept, k, a)
    ensures Begins(space[s0..s1], s0, rs, kept, k + 1, b)
  {
    SliceOfSlice(space, s0, s1, rs[k].lo - s0, rs[k].hi - s0);
    SliceJoin(kept, s0, s0 + a, s0 + b);
  }

  /** The first i ranges, put end to end, are what the sifted space has from the start of the shard on. */
  lemma {:induction false} GatherSifts(ts: seq<Entry>, sh: Shard, rs: seq<Range>, space: seq<Byte>, kept: seq<Byte>, i: nat)
    requires 0 <= sh.off <= sh.End() <= |space| && i <= |rs| && kept == Sift(DeadOf(ts, sh), space) && sh.off <= |kept|
    requires Canonical(rs, sh.off, sh.End()) && Exact(rs, ts, sh.off, sh.End())
    requires InBounds(space[sh.off..sh.End()], sh.off, rs)
    ensures Begins(space[sh.off..sh.End()], sh.off, rs, kept, i, SumLengths(rs[..i]))
  {
    if i == 0 {
      assert rs[..0] == [];
    } else {
      GatherSifts(ts, sh, rs, space, kept, i - 1);
      RangeInSift(ts, sh, rs, space, i - 1);
      BeginsOn(space, sh.off, sh.End(), rs, kept, i - 1, SumLengths(rs[..i - 1]), SumLengths(rs[..i]));
    }
  }

  lemma BodySlice(ts: seq<Entry>, sh: Shard, space: seq<Byte>, n: int)
    requires 0 <= sh.off <= sh.End() <= |space| && n == Rank(DeadOf(ts, sh), sh.End()) - sh.off
    ensures 0 <= n && sh.off + n <= |Sift(DeadOf(ts, sh), space)|
    ensures Body(ts, sh, space) == Sift(DeadOf(ts, sh), space)[sh.off..sh.off + n]
  {
    RankKept(DeadOf(ts, sh), 0, sh.off);
    RankMonotone(DeadOf(ts, sh), sh.off, sh.End());
    SiftPrefix(DeadOf(ts, sh), space, sh.End());
  }

  /** The owned ranges, put end to end, are the surviving part of the shard. */
  lemma GatherIsBody(ts: seq<Entry>, sh: Shard, rs: seq<Range>, space: seq<Byte>)
    requires 0 <= sh.off <= sh.End() <= |space|
    requires Canonical(rs, sh.off, sh.End()) && Exact(rs, ts, sh.off, sh.End())
    ensures InBounds(space[sh.off..sh.End()], sh.off, rs)
    ensures Gather(space[sh.off..sh.End()], sh.off, rs, |rs|) == Body(ts, sh, space)
  {
    CanonicalInBounds(rs, sh.off, sh.End(), space);
    RangesRank(rs, ts, sh);
    BodySlice(ts, sh, space, SumLengths(rs));
    GatherSifts(ts, sh, rs, space, Sift(DeadOf(ts, sh), space), |rs|);
    assert rs[..|rs|] == rs;
  }

  lemma CanonicalInBounds(rs: seq<Range>, s0: int, s1: int, space: seq<Byte>)
    requires 0 <= s0 <= s1 <= |space| && Canonical(rs, s0, s1)
    ensures InBounds(space[s0..s1], s0, rs)
    ensures forall k :: 0 <= k < |rs| ==> rs[k].hi <= s1
  {
  }

  /** The states recorded after `past` change nothing but the file `f` of `was`. */
  ghost predicate OnlyTouched(f: File, past: seq<State>, history: seq<State>, was: State) {
    && |past| <= |history| && history[..|past|] == past
    && forall i :: |past| <= i < |history| ==> OnlyDiffersAt(f, history[i], was)
  }

  lemma TornTouches(f: File, st: State, data: seq<Byte>)
    requires f in st.files
    ensures forall i :: 0 <= i < |data| ==> OnlyDiffersAt(f, Torn(st, f, data)[i], st)
  {
    forall i | 0 <= i < |data|
      ensures OnlyDiffersAt(f, Torn(st, f, data)[i], st)
    {
      assert Torn(st, f, data)[i].files - {f} == st.files - {f};
    }
  }

  lemma TouchedOn(f: File, past: seq<State>, mid: seq<State>, history: seq<State>, was: State, amid: State)
    requires OnlyTouched(f, past, mid, was) && OnlyTouched(f, mid, history, amid) && OnlyDiffersAt(f, amid, was)
    ensures OnlyTouched(f, past, history, was)
  {
    assert history[..|past|] == mid[..|past|];
    forall i | |past| <= i < |history|
      ensures OnlyDiffersAt(f, history[i], was)
    {
      if i < |mid| {
        assert history[i] == history[..|mid|][i] == mid[i];
      }
    }
  }

  /** Appends content[lo..hi] to `dst`, in pieces of at most CHUNK. */
  method CopyRange(disk: Disk, dst: File, content: seq<Byte>, lo: nat, hi: nat)
    requires disk.Recorded() && dst in disk.files && lo <= hi <= |content|
    modifies disk
    ensures disk.Recorded() && disk.index == old(disk.index)
    ensures disk.files == old(disk.files)[dst := old(disk.files)[dst] + content[lo..hi]]
    ensures OnlyTouched(dst, old(disk.history), disk.history, old(disk.Now()))
  {
    ghost var was := disk.Now();
    ghost var past := disk.history;
    var pos, left := lo, hi - lo;
    assert was.files[dst] + content[lo..lo] == was.files[dst];
    while left > 0
      invariant 0 <= left && pos + left == hi && lo <= pos
      invariant disk.Recorded() && disk.index == was.index
      invariant disk.files == was.files[dst := was.files[dst] + content[lo..pos]]
      invariant OnlyTouched(dst, past, disk.history, was)
    {
      var buf := content[pos..pos + if left < CHUNK then left else CHUNK];
      assert buf != [];
      ghost var mid := disk.history;
      ghost var amid := disk.Now();
      disk.Append(dst, buf);
      TornTouches(dst, amid, buf);
      assert amid.files - {dst} == was.files - {dst};
      TouchedOn(dst, past, mid, disk.history, was, amid);
      SliceJoin(content, lo, pos, pos + |buf|);
      assert was.files[dst] + content[lo..pos] + buf == was.files[dst] + (content[lo..pos] + buf);
      pos, left := pos + |buf|, left - |buf|;
    }
  }

  lemma Overwritten(files: Files, f: File, a: seq<Byte>, b: seq<Byte>)
    ensures files[f := a][f := b] == files[f := b]
  {
  }

  /** Writes the given ranges of `src` to the fresh file `dst`. */
  method CopyRanges(disk: Disk, src: File, dst: File, s0: int, live: seq<Range>)
    requires disk.Recorded() && src in disk.files && src != dst
    requires InBounds(disk.files[src], s0, live)
    modifies disk
    ensures disk.Recorded() && disk.index == old(disk.index)
    ensures disk.files == old(disk.files)[dst := Gather(old(disk.files)[src], s0, live, |live|)]
    ensures OnlyTouched(dst, old(disk.history), disk.history, old(disk.Now()))
  {
    ghost var was := disk.Now();
    ghost var past := disk.history;
    var content := disk.files[src];
    disk.Create(dst);
    assert disk.files - {dst} == was.files - {dst};
    for k := 0 to |live|
      invariant disk.Recorded() && disk.index == was.index
      invariant disk.files == was.files[dst := Gather(content, s0, live, k)]
      invariant OnlyTouched(dst, past, disk.history, was)
    {
      ghost var mid := disk.history;
      ghost var amid := disk.Now();
      assert amid.files - {dst} == was.files - {dst};
      CopyRange(disk, dst, content, live[k].lo - s0, live[k].hi - s0);
      Overwritten(was.files, dst, amid.files[dst], Gather(content, s0, live, k + 1));
      TouchedOn(dst, past, mid, disk.history, was, amid);
    }
  }

  // ------------------------------------------------------------ the new index

  /** The lookup tables: where each owned range starts, and how much is owned before it. */
  ghost predicate Tables(d: DirtyShard, starts: seq<int>, prefix: seq<int>) {
    && |starts| == |d.live| && (forall i :: 0 <= i < |d.live| ==> starts[i] == d.live[i].lo)
    && |prefix| == |d.live| + 1 && (forall i :: 0 <= i <= |d.live| ==> prefix[i] == SumLengths(d.live[..i]))
    && (forall i, j :: 0 <= i < j < |starts| ==> starts[i] <= starts[j])
  }

  /** The new offset of an entry: shifted behind the shard, looked up inside it, unchanged before it. */
  function NewOffset(d: DirtyShard, starts: seq<int>, prefix: seq<int>, go: int): int
    requires |starts| == |d.live| && |prefix| == |d.live| + 1
    requires forall i, j :: 0 <= i < j < |starts| ==> starts[i] <= starts[j]
  {
    if go >= d.sh.End() then go - (d.sh.nbytes - d.liveBytes)
    else if go >= d.sh.off then Remap(starts, d.live, prefix, d.sh.off, go)
    else go
  }

  /** On all three sides of the shard the new offset is the rank. */
  lemma NewOffsetIsRank(ts: seq<Entry>, d: DirtyShard, starts: seq<int>, prefix: seq<int>, go: int)
    requires 0 <= d.sh.off <= d.sh.End() && Describes(d, ts) && 0 <= go && Tables(d, starts, prefix)
    ensures NewOffset(d, starts, prefix, go) == Rank(DeadOf(ts, d.sh), go)
  {
    RankOutside(ts, d.sh, go);
    if d.sh.off <= go < d.sh.End() {
      RemapIsRank(starts, d.live, prefix, ts, d.sh.off, d.sh.End(), go);
    }
  }

  method LookupTables(d: DirtyShard) returns (starts: seq<int>, prefix: seq<int>)
    requires Canonical(d.live, d.sh.off, d.sh.End())
    ensures Tables(d, starts, prefix)
  {
    starts, prefix := [], [0];
    for i := 0 to |d.live|
      invariant |starts| == i && forall j :: 0 <= j < i ==> starts[j] == d.live[j].lo
      invariant |prefix| == i + 1 && forall j :: 0 <= j <= i ==> prefix[j] == SumLengths(d.live[..j])
    {
      SumGrows(d.live, i);
      starts := starts + [d.live[i].lo];
      prefix := prefix + [prefix[i] + (d.live[i].hi - d.live[i].lo)];
    }
  }

  method MovedTensors(index: Index, d: DirtyShard) returns (tensors: seq<Entry>)
    requires AllPlaced(index.tensors, index.total) && 0 <= d.sh.off <= d.sh.End() && Describes(d, index.tensors)
    ensures tensors == MoveTensors(DeadOf(index.tensors, d.sh), index.tensors)
  {
    var starts, prefix := LookupTables(d);
    ghost var want := MoveTensors(DeadOf(index.tensors, d.sh), index.tensors);
    tensors := [];
    for k := 0 to |index.tensors|
      invariant tensors == want[..k]
    {
      var e := index.tensors[k];
      assert Placed(e, index.total);
      NewOffsetIsRank(index.tensors, d, starts, prefix, e.off);
      assert want[k] == e.(off := NewOffset(d, starts, prefix, e.off));
      tensors := tensors + [e.(off := NewOffset(d, starts, prefix, e.off))];
    }
  }

  /** The first i shards of the new list, as far as they come from the first i of the old. */
  ghost function RefileUpTo(m: seq<Shard>, k: nat, f: File, i: nat): seq<Shard>
    requires k < |m| && i <= |m|
  {
    if i <= k then m[..i]
    else if m[k].nbytes == 0 then m[..k] + m[k + 1..i]
    else m[..i][k := m[k].(file := f)]
  }

  lemma RefileNext(m: seq<Shard>, k: nat, f: File, i: nat)
    requires k < |m| && i < |m|
    ensures RefileUpTo(m, k, f, i + 1) == RefileUpTo(m, k, f, i) + RefileOne(m, k, f, i)
  {
    assert m[..i + 1] == m[..i] + [m[i]];
    if i == k {
      assert m[k].nbytes == 0 ==> m[..k] + m[k + 1..k + 1] == m[..k];
    } else if k < i && m[k].nbytes == 0 {
      assert m[k + 1..i + 1] == m[k + 1..i] + [m[i]];
    }
  }

  /** A shard other than the rewritten one keeps its size, and shifts when it starts later. */
  lemma ShardShifts(index: Index, k: nat, i: nat)
    requires Tiles(Ordered(index), 0, index.total) && AllPlaced(index.tensors, index.total)
    requires k < |Ordered(index)| && i < |Ordered(index)|
    requires LiveBytes(index.tensors, Ordered(index)[k]) < Ordered(index)[k].nbytes
    ensures var sh, x := Ordered(index)[k], Ordered(index)[i];
            var live := LiveBytes(index.tensors, sh);
            MoveShard(DeadOf(index.tensors, sh), x) ==
              if i == k then Shard(sh.file, sh.off, live)
              else if x.off > sh.off then x.(off := x.off - (sh.nbytes - live))
              else x
  {
    var ss := Ordered(index);
    EdgesAscend(ss, 0, index.total, k, k + 1);
    EdgesAscend(ss, 0, index.total, i, i + 1);
    StepShard(index, k, i);
    RankOutside(index.tensors, ss[k], ss[i].off);
    if i < k {
      EdgesAscend(ss, 0, index.total, i, k);
    } else if k < i {
      EdgesAscend(ss, 0, index.total, k, i);
    }
  }

  /** The new shard list as the loop builds it, matching the rewritten shard by its file. */
  function NewShards(ss: seq<Shard>, sh: Shard, live: int, f: File): seq<Shard> {
    if ss == [] then [] else
      var n := |ss| - 1;
      NewShards(ss[..n], sh, live, f) + NewShard(ss[n], sh, live, f)
  }

  function NewShard(x: Shard, sh: Shard, live: int, f: File): seq<Shard> {
    if x.file == sh.file then
      if live != 0 then [Shard(f, sh.off, live)] else []
    else if x.off > sh.off then [x.(off := x.off - (sh.nbytes - live))]
    else [x]
  }

  lemma NewShardsNext(ss: seq<Shard>, sh: Shard, live: int, f: File, i: nat)
    requires i < |ss|
    ensures NewShards(ss[..i + 1], sh, live, f) == NewShards(ss[..i], sh, live, f) + NewShard(ss[i], sh, live, f)
  {
    assert ss[..i + 1][..i] == ss[..i];
  }

  /** What shard i of the moved list contributes to the refiled one. */
  ghost function RefileOne(m: seq<Shard>, k: nat, f: File, i: nat): seq<Shard>
    requires k < |m| && i < |m|
  {
    if i != k then [m[i]] else if m[k].nbytes == 0 then [] else [m[k].(file := f)]
  }

  lemma NewShardMoves(index: Index, k: nat, f: File, i: nat)
    requires Tiles(Ordered(index), 0, index.total) && AllPlaced(index.tensors, index.total)
    requires k < |Ordered(index)| && Unshared(Ordered(index), k) && i < |Ordered(index)|
    requires LiveBytes(index.tensors, Ordered(index)[k]) < Ordered(index)[k].nbytes
    ensures var ss := Ordered(index);
            NewShard(ss[i], ss[k], LiveBytes(index.tensors, ss[k]), f) ==
              RefileOne(MoveShards(DeadOf(index.tensors, ss[k]), ss), k, f, i)
  {
    ShardShifts(index, k, k);
    ShardShifts(index, k, i);
  }

  lemma {:induction false} NewShardsUpTo(ss: seq<Shard>, sh: Shard, live: int, m: seq<Shard>, k: nat, f: File, i: nat)
    requires |ss| == |m| && k < |m| && i <= |m|
    requires forall j :: 0 <= j < |m| ==> NewShard(ss[j], sh, live, f) == RefileOne(m, k, f, j)
    ensures NewShards(ss[..i], sh, live, f) == RefileUpTo(m, k, f, i)
  {
    if i > 0 {
      NewShardsUpTo(ss, sh, live, m, k, f, i - 1);
      NewShardsNext(ss, sh, live, f, i - 1);
      RefileNext(m, k, f, i - 1);
    }
  }

  /** Unless the file is shared, the list is the old one with every edge at its rank. */
  lemma NewShardsRefile(index: Index, k: nat, f: File)
    requires Tiles(Ordered(index), 0, index.total) && AllPlaced(index.tensors, index.total)
    requires k < |Ordered(index)| && Unshared(Ordered(index), k)
    requires LiveBytes(index.tensors, Ordered(index)[k]) < Ordered(index)[k].nbytes
    ensures var ss := Ordered(index);
            NewShards(ss, ss[k], LiveBytes(index.tensors, ss[k]), f) ==
              Refile(MoveShards(DeadOf(index.tensors, ss[k]), ss), k, f)
  {
    var ss, live := Ordered(index), LiveBytes(index.tensors, Ordered(index)[k]);
    var m := MoveShards(DeadOf(index.tensors, ss[k]), ss);
    forall j | 0 <= j < |m|
      ensures NewShard(ss[j], ss[k], live, f) == RefileOne(m, k, f, j)
    {
      NewShardMoves(index, k, f, j);
    }
    NewShardsUpTo(ss, ss[k], live, m, k, f, |m|);
    RefileAll(m, k, f);
    assert ss[..|m|] == ss;
  }

  method MovedShards(index: Index, d: DirtyShard, f: File, ghost k: nat) returns (shards: seq<Shard>)
    requires Tiles(Ordered(index), 0, index.total) && AllPlaced(index.tensors, index.total)
    requires k < |Ordered(index)| && Ordered(index)[k] == d.sh
    requires d.liveBytes == LiveBytes(index.tensors, d.sh) < d.sh.nbytes
    ensures shards == NewShards(Ordered(index), d.sh, d.liveBytes, f)
    ensures Unshared(Ordered(index), k) ==>
              shards == Refile(MoveShards(DeadOf(index.tensors, d.sh), Ordered(index)), k, f)
  {
    var ss := Ordered(index);
    var delta := d.sh.nbytes - d.liveBytes;
    shards := [];
    for i := 0 to |ss|
      invariant shards == NewShards(ss[..i], d.sh, d.liveBytes, f)
    {
      var x := ss[i];
      NewShardsNext(ss, d.sh, d.liveBytes, f, i);
      if x.file == d.sh.file {
        if d.liveBytes != 0 {
          shards := shards + [Shard(f, d.sh.off, d.liveBytes)];
        }
      } else if x.off > d.sh.off {
        shards := shards + [x.(off := x.off - delta)];
      } else {
        shards := shards + [x];
      }
    }
    assert ss[..|ss|] == ss;
    if Unshared(ss, k) {
      NewShardsRefile(index, k, f);
    }
  }

  lemma RefileAll(m: seq<Shard>, k: nat, f: File)
    requires k < |m|
    ensures RefileUpTo(m, k, f, |m|) == Refile(m, k, f)
  {
  }

  // ------------------------------------------------------------ the run

  /** The file of some dirty shard of the index is not there. */
  ghost predicate Lost(index: Index, files: Files) {
    exists k :: 0 <= k < |Ordered(index)| && Dirty(index, k) && Ordered(index)[k].file !in files
  }

  /** A file once gone does not come back: new files take unused numbers. */
  lemma LostStays(was: State, files: Files, files': Files, f: File, already: bool, k: nat)
    requires Sound(was) && (forall g :: g in files' ==> g in files || g == f)
    requires f !in was.files
    requires if already then Lost(was.index, files)
             else k < |Ordered(was.index)| && Dirty(was.index, k) && Ordered(was.index)[k].file !in files'
    ensures Lost(was.index, files')
  {
    var ss := Ordered(was.index);
    if already {
      var j :| 0 <= j < |ss| && Dirty(was.index, j) && ss[j].file !in files;
      assert ss[j].file in was.files;
    }
  }

  /** Every state recorded after `past` is faithful to `s0` and uses shard numbers below `next` only. */
  ghost predicate Safe(past: seq<State>, history: seq<State>, s0: State, next: nat) {
    && |past| <= |history| && history[..|past|] == past
    && forall i :: |past| <= i < |history| ==> Faithful(history[i], s0) && FreeFrom(history[i].files, next)
  }

  lemma SafeThen(past: seq<State>, mid: seq<State>, history: seq<State>, s0: State, s1: State, next: nat, next': nat)
    requires Safe(past, mid, s0, next) && Safe(mid, history, s1, next') && Faithful(s1, s0) && next <= next'
    ensures Safe(past, history, s0, next')
  {
    assert history[..|past|] == mid[..|past|];
    forall i | |past| <= i < |history|
      ensures Faithful(history[i], s0) && FreeFrom(history[i].files, next')
    {
      if i < |mid| {
        assert history[i] == history[..|mid|][i] == mid[i];
      }
    }
  }

  lemma SafeStep(past: seq<State>, history: seq<State>, s0: State, s: State, next: nat)
    requires Safe(past, history, s0, next) && Faithful(s, s0) && FreeFrom(s.files, next)
    ensures Safe(past, history + [s], s0, next)
  {
    assert (history + [s])[..|past|] == history[..|past|];
  }

  lemma TouchedIsSafe(f: File, past: seq<State>, history: seq<State>, was: State, next: nat)
    requires OnlyTouched(f, past, history, was) && Sound(was) && !Referenced(was.index, f)
    requires FreeFrom(was.files, next) && (f.Numbered? ==> f.num < next)
    ensures Safe(past, history, was, next)
  {
    forall i | |past| <= i < |history|
      ensures Faithful(history[i], was) && FreeFrom(history[i].files, next)
    {
      OtherFileIsIdle(was, history[i], f);
      forall g | g in history[i].files && g.Numbered?
        ensures g.num < next
      {
        assert g != f ==> g in history[i].files - {f};
      }
    }
  }

  lemma FreshIsUnreferenced(st: State, next: nat)
    requires Sound(st) && FreeFrom(st.files, next)
    ensures !Referenced(st.index, Numbered(next))
    ensures forall j :: 0 <= j < |Ordered(st.index)| ==> Ordered(st.index)[j].file != Numbered(next)
  {
  }

  /** After the swap nothing names the old file. */
  lemma OldFileGone(st: State, k: nat, f: File)
    requires Sound(st) && k < |Ordered(st.index)| && Unshared(Ordered(st.index), k) && Ordered(st.index)[k].file != f
    ensures !Referenced(Compacted(st.index, k, f), Ordered(st.index)[k].file)
  {
    var ss := Ordered(st.index);
    var m := MoveShards(DeadOf(st.index.tensors, ss[k]), ss);
    StepOrdered(st, k, f);
    forall i | 0 <= i < |Refile(m, k, f)|
      ensures Refile(m, k, f)[i].file != ss[k].file
    {
      RefileAt(m, k, f, i);
    }
  }

  /** What the copy leaves on disk is what the step needs. */
  lemma CopyMakesStep(st: State, files': Files, d: DirtyShard, k: nat, f: File)
    requires Sound(st) && k < |Ordered(st.index)| && Ordered(st.index)[k] == d.sh && Describes(d, st.index.tensors)
    requires forall j :: 0 <= j < |Ordered(st.index)| ==> Ordered(st.index)[j].file != f
    requires d.sh.file in st.files && InBounds(st.files[d.sh.file], d.sh.off, d.live)
    requires files' == if d.liveBytes == 0 then st.files else st.files[f := Gather(st.files[d.sh.file], d.sh.off, d.live, |d.live|)]
    ensures Stepped(st, State(files', Compacted(st.index, k, f)), k, f)
  {
    var ss, space := Ordered(st.index), SpaceOf(st);
    SpaceStored(st.files, ss, st.index.total);
    assert Holds(st.files, ss[k], space);
    BodyOf(st.index.tensors, d, space);
    assert Rewritten(st.files, files', ss, k, f, Body(st.index.tensors, d.sh, space));
  }

  lemma BodyOf(ts: seq<Entry>, d: DirtyShard, space: seq<Byte>)
    requires 0 <= d.sh.off <= d.sh.End() <= |space| && Describes(d, ts)
    ensures Body(ts, d.sh, space) == Gather(space[d.sh.off..d.sh.End()], d.sh.off, d.live, |d.live|)
    ensures d.liveBytes == 0 <==> Body(ts, d.sh, space) == []
  {
    var dead := DeadOf(ts, d.sh);
    GatherIsBody(ts, d.sh, d.live, space);
    RangesRank(d.live, ts, d.sh);
    RankKept(dead, 0, d.sh.off);
    RankMonotone(dead, d.sh.off, d.sh.End());
    SiftPrefix(dead, space, d.sh.End());
    assert |Body(ts, d.sh, space)| == d.liveBytes;
  }

  /** Copies what the shard still owns, if anything, to the next free file. */
  method CopyLive(disk: Disk, d: DirtyShard, next: nat, ghost k: nat) returns (next': nat)
    requires disk.Recorded() && Sound(disk.Now()) && FreeFrom(disk.files, next)
    requires k < |Ordered(disk.index)| && Ordered(disk.index)[k] == d.sh && Describes(d, disk.index.tensors)
    modifies disk
    ensures disk.Recorded() && disk.index == old(disk.index)
    ensures next' == (if d.liveBytes == 0 then next else next + 1) && FreeFrom(disk.files, next')
    ensures Safe(old(disk.history), disk.history, old(disk.Now()), next + 1)
    ensures Stepped(old(disk.Now()), State(disk.files, Compacted(old(disk.index), k, Numbered(next))), k, Numbered(next))
    ensures forall f :: f in disk.files ==> f in old(disk.files) || f == Numbered(next)
  {
    ghost var was, past := disk.Now(), disk.history;
    var f := Numbered(next);
    FreshIsUnreferenced(was, next);
    ShardBounds(was, d, k);
    next' := next;
    if d.liveBytes != 0 {
      CopyRanges(disk, d.sh.file, f, d.sh.off, d.live);
      next' := next + 1;
    }
    TouchedIsSafe(f, past, disk.history, was, next + 1);
    CopyMakesStep(was, disk.files, d, k, f);
  }

  lemma ShardBounds(st: State, d: DirtyShard, k: nat)
    requires Sound(st) && k < |Ordered(st.index)| && Ordered(st.index)[k] == d.sh && Describes(d, st.index.tensors)
    ensures 0 <= d.sh.off <= d.sh.End() <= st.index.total
    ensures d.sh.file in st.files && InBounds(st.files[d.sh.file], d.sh.off, d.live)
  {
    EdgesAscend(Ordered(st.index), 0, st.index.total, k, k + 1);
    assert Abuts(Ordered(st.index), k, st.index.total);
  }

  /** Every file of `s` that its index does not name was there before, and not named either. */
  ghost predicate NoNewStrays(s: State, s0: State) {
    forall f :: f in s.files && !Referenced(s.index, f) ==> f in s0.files && !Referenced(s0.index, f)
  }

  /** The shards after the step keep their files; the rewritten one has the new file, if it was made. */
  lemma StepRefers(st: State, d: DirtyShard, k: nat, f: File, j: nat)
    requires Sound(st) && k < |Ordered(st.index)| && Ordered(st.index)[k] == d.sh && Describes(d, st.index.tensors)
    requires j < |Ordered(st.index)| && (j == k ==> d.liveBytes != 0)
    ensures Referenced(Compacted(st.index, k, f), if j == k then f else Ordered(st.index)[j].file)
  {
    var ss := Ordered(st.index);
    var m := MoveShards(DeadOf(st.index.tensors, ss[k]), ss);
    StepOrdered(st, k, f);
    StepShard(st.index, k, k);
    var i := if k < j && m[k].nbytes == 0 then j - 1 else j;
    RefileAt(m, k, f, i);
    assert Ordered(Compacted(st.index, k, f))[i].file == if j == k then f else ss[j].file;
  }

  /** A pass makes no file that nothing names, and unnames none that stays. */
  lemma StepLeavesNoStray(st: State, now: State, d: DirtyShard, k: nat, next: nat, next': nat)
    requires Sound(st) && k < |Ordered(st.index)| && Ordered(st.index)[k] == d.sh && Describes(d, st.index.tensors)
    requires now.index == Compacted(st.index, k, Numbered(next)) && d.sh.file !in now.files
    requires forall f :: f in now.files ==> f in st.files || f == Numbered(next)
    requires next' == (if d.liveBytes == 0 then next else next + 1) && FreeFrom(now.files, next')
    ensures NoNewStrays(now, st)
  {
    var ss := Ordered(st.index);
    forall f | f in now.files && !Referenced(now.index, f)
      ensures f in st.files && !Referenced(st.index, f)
    {
      if d.liveBytes != 0 {
        StepRefers(st, d, k, Numbered(next), k);
      }
      if Referenced(st.index, f) {
        var j :| 0 <= j < |ss| && ss[j].file == f;
        StepRefers(st, d, k, Numbered(next), j);
      }
    }
  }

  /** Builds the index without the dead bytes of the shard and puts it in force. */
  method Install(disk: Disk, d: DirtyShard, f: File, ghost k: nat)
    requires Tiles(Ordered(disk.index), 0, disk.index.total) && AllPlaced(disk.index.tensors, disk.index.total)
    requires k < |Ordered(disk.index)| && Ordered(disk.index)[k] == d.sh && Unshared(Ordered(disk.index), k)
    requires 0 <= d.sh.off <= d.sh.End() <= disk.index.total
    requires Describes(d, disk.index.tensors) && d.liveBytes < d.sh.nbytes
    modifies disk
    ensures disk.index == Compacted(old(disk.index), k, f) && disk.files == old(disk.files)
    ensures disk.history == old(disk.history) + [disk.Now()]
  {
    var index := disk.index;
    var tensors := MovedTensors(index, d);
    var shards := MovedShards(index, d, f, k);
    RankOutside(index.tensors, d.sh, index.total);
    disk.Swap(Index(tensors, shards, index.total - (d.sh.nbytes - d.liveBytes), index.limit));
  }

  /** The swap and the removal behind a finished copy: both states are faithful, and no file is left over. */
  lemma PassIsSafe(past: seq<State>, mid: seq<State>, was: State, files: Files,
                   d: DirtyShard, k: nat, next: nat, next': nat)
    requires Sound(was) && k < |Ordered(was.index)| && Ordered(was.index)[k] == d.sh && SafeToCompact(was.index, k)
    requires Describes(d, was.index.tensors) && FreeFrom(was.files, next) && d.sh.file in was.files
    requires Safe(past, mid, was, next + 1) && FreeFrom(files, next')
    requires next' == if d.liveBytes == 0 then next else next + 1
    requires Stepped(was, State(files, Compacted(was.index, k, Numbered(next))), k, Numbered(next))
    requires forall f :: f in files ==> f in was.files || f == Numbered(next)
    ensures var index := Compacted(was.index, k, Numbered(next));
            var swapped, removed := State(files, index), State(files - {d.sh.file}, index);
            && Faithful(removed, was) && Safe(past, mid + [swapped] + [removed], was, next + 1)
            && FreeFrom(removed.files, next') && NoNewStrays(removed, was)
  {
    var f := Numbered(next);
    var index := Compacted(was.index, k, f);
    var swapped, removed := State(files, index), State(files - {d.sh.file}, index);
    StepFaithful(was, swapped, k, f);
    SafeStep(past, mid, was, swapped, next + 1);
    OldFileGone(was, k, f);
    assert OnlyDiffersAt(d.sh.file, removed, swapped);
    OtherFileIsIdle(swapped, removed, d.sh.file);
    SafeStep(past, mid + [swapped], was, removed, next + 1);
    StepLeavesNoStray(was, removed, d, k, next, next');
  }

  /** One pass of the compaction loop. */
  method CompactShard(disk: Disk, d: DirtyShard, next: nat, ghost k: nat) returns (next': nat)
    requires disk.Recorded() && Sound(disk.Now()) && FreeFrom(disk.files, next)
    requires k < |Ordered(disk.index)| && Ordered(disk.index)[k] == d.sh && SafeToCompact(disk.index, k)
    requires Describes(d, disk.index.tensors) && d.liveBytes < d.sh.nbytes
    modifies disk
    ensures disk.Recorded() && Faithful(disk.Now(), old(disk.Now()))
    ensures next <= next' <= next + 1 && FreeFrom(disk.files, next')
    ensures Safe(old(disk.history), disk.history, old(disk.Now()), next + 1)
    ensures disk.index == Compacted(old(disk.index), k, Numbered(next))
    ensures |old(disk.history)| < |disk.history|
    ensures d.sh.file !in disk.files && forall f :: f in disk.files ==> f in old(disk.files) || f == Numbered(next)
    ensures NoNewStrays(disk.Now(), old(disk.Now()))
  {
    ghost var was, past := disk.Now(), disk.history;
    ShardBounds(was, d, k);
    next' := CopyLive(disk, d, next, k);
    PassIsSafe(past, disk.history, was, disk.files, d, k, next, next');
    Install(disk, d, Numbered(next), k);
    disk.Remove(d.sh.file);
  }

  /** The dirty shards of the index, in offset order, each with its owned ranges. */
  ghost predicate Lists(dirty: seq<DirtyShard>, index: Index) {
    && seq(|dirty|, i requires 0 <= i < |dirty| => dirty[i].sh) == DirtyOf(index.tensors, Ordered(index))
    && (forall i :: 0 <= i < |dirty| ==> Describes(dirty[i], index.tensors))
    && |dirty| == DirtyCount(index)
  }

  /** The first of the dirty shards, and where it stands in the index. */
  lemma FirstDirty(dirty: seq<DirtyShard>, index: Index) returns (k: nat)
    requires Tiles(Ordered(index), 0, index.total) && AllPlaced(index.tensors, index.total)
    requires Lists(dirty, index) && dirty != []
    ensures k < |Ordered(index)| && Ordered(index)[k] == dirty[0].sh && Dirty(index, k)
    ensures Describes(dirty[0], index.tensors) && dirty[0].liveBytes < dirty[0].sh.nbytes
  {
    assert DirtyOf(index.tensors, Ordered(index))[0] == dirty[0].sh;
    k := DirtyOfMember(index.tensors, Ordered(index), 0);
    StepShard(index, k, k);
  }

  /** Compacts the first dirty shard and looks again. */
  method CompactFirst(disk: Disk, dirty: seq<DirtyShard>, next: nat) returns (dirty': seq<DirtyShard>, next': nat, ghost k: nat)
    requires disk.Recorded() && Sound(disk.Now()) && Compactable(disk.index) && FreeFrom(disk.files, next)
    requires Lists(dirty, disk.index) && dirty != []
    modifies disk
    ensures disk.Recorded() && Faithful(disk.Now(), old(disk.Now()))
    ensures next <= next' <= next + 1 && FreeFrom(disk.files, next')
    ensures Safe(old(disk.history), disk.history, old(disk.Now()), next + 1) && |old(disk.history)| < |disk.history|
    ensures Lists(dirty', disk.index) && DirtyCount(disk.index) == DirtyCount(old(disk.index)) - 1
    ensures k < |Ordered(old(disk.index))| && Dirty(old(disk.index), k) && Ordered(old(disk.index))[k].file !in disk.files
    ensures forall f :: f in disk.files ==> f in old(disk.files) || f == Numbered(next)
    ensures NoNewStrays(disk.Now(), old(disk.Now()))
  {
    k := FirstDirty(dirty, disk.index);
    StepProgress(disk.Now(), k, Numbered(next));
    next' := CompactShard(disk, dirty[0], next, k);
    dirty' := DirtyShards(disk.index);
  }

  /** After n passes: faithful all the way, n dirty shards fewer, and from the first pass on an old file is gone. */
  ghost predicate Underway(past: seq<State>, history: seq<State>, was: State, now: State, next: nat, n: nat) {
    && Faithful(now, was) && Safe(past, history, was, next + n)
    && n + DirtyCount(now.index) == DirtyCount(was.index) && NoNewStrays(now, was)
    && (if n == 0 then now == was && history == past else Lost(was.index, now.files))
  }

  lemma UnderwayOn(past: seq<State>, mid: seq<State>, history: seq<State>, was: State, st: State, now: State, next: nat, n: nat, num: nat, k: nat)
    requires Underway(past, mid, was, st, next, n) && FreeFrom(was.files, next) && next <= num <= next + n
    requires Faithful(now, st) && Safe(mid, history, st, num + 1) && DirtyCount(now.index) == DirtyCount(st.index) - 1
    requires k < |Ordered(st.index)| && Dirty(st.index, k) && Ordered(st.index)[k].file !in now.files
    requires (forall f :: f in now.files ==> f in st.files || f == Numbered(num)) && NoNewStrays(now, st)
    ensures Underway(past, history, was, now, next, n + 1)
  {
    LostStays(was, st.files, now.files, Numbered(num), n > 0, k);
    SafeWidens(mid, history, st, num + 1, next + n + 1);
    SafeThen(past, mid, history, was, st, next + n, next + n + 1);
  }

  /** One more pass of a run that is under way. */
  method CompactNext(disk: Disk, dirty: seq<DirtyShard>, num: nat,
                     ghost past: seq<State>, ghost was: State, ghost next: nat, ghost n: nat)
    returns (dirty': seq<DirtyShard>, num': nat)
    requires disk.Recorded() && FreeFrom(disk.files, num) && next <= num <= next + n && FreeFrom(was.files, next)
    requires Underway(past, disk.history, was, disk.Now(), next, n) && Compactable(was.index)
    requires Lists(dirty, disk.index) && dirty != []
    modifies disk
    ensures disk.Recorded() && FreeFrom(disk.files, num') && next <= num' <= next + n + 1
    ensures Underway(past, disk.history, was, disk.Now(), next, n + 1)
    ensures Lists(dirty', disk.index) && |dirty'| < |dirty|
  {
    ghost var st, mid := disk.Now(), disk.history;
    ghost var k;
    dirty', num', k := CompactFirst(disk, dirty, num);
    UnderwayOn(past, mid, disk.history, was, st, disk.Now(), next, n, num, k);
  }

  /**
   Rewrites each dirty shard without its dead bytes. After every disk step the directory is
   an accepted checkpoint with the same entries, and the end result is the one-shot deletion
   of every unowned byte. One pass per dirty shard, so at most that many new shard numbers.
   */
  method CompactInPlace(disk: Disk, next: nat) returns (n: nat)
    requires disk.Recorded() && Sound(disk.Now()) && Compactable(disk.index) && FreeFrom(disk.files, next)
    modifies disk
    ensures disk.Recorded() && Faithful(disk.Now(), old(disk.Now()))
    ensures Safe(old(disk.history), disk.history, old(disk.Now()), next + DirtyCount(old(disk.index)))
    ensures n == DirtyCount(old(disk.index)) && DirtyCount(disk.index) == 0
    ensures disk.index.tensors == FinalTensors(old(disk.index))
    ensures SpaceOf(disk.Now()) == FinalSpace(old(disk.Now()))
    ensures n == 0 ==> disk.Now() == old(disk.Now()) && disk.history == old(disk.history)
    ensures n > 0 ==> Lost(old(disk.index), disk.files)
    ensures NoNewStrays(disk.Now(), old(disk.Now()))
  {
    ghost var was, past := disk.Now(), disk.history;
    UnreferencedIsIdle(was, was);
    var nextNum: nat := next;
    var dirty := DirtyShards(disk.index);
    n := 0;
    while dirty != []
      invariant disk.Recorded() && FreeFrom(disk.files, nextNum) && next <= nextNum <= next + n
      invariant Underway(past, disk.history, was, disk.Now(), next, n)
      invariant Lists(dirty, disk.index)
      decreases |dirty|
    {
      dirty, nextNum := CompactNext(disk, dirty, nextNum, past, was, next, n);
      n := n + 1;
    }
    UnderwayEnds(past, disk.history, was, disk.Now(), next, n);
  }

  /** With nothing dirty any more the destination is reached. */
  lemma UnderwayEnds(past: seq<State>, history: seq<State>, was: State, now: State, next: nat, n: nat)
    requires Underway(past, history, was, now, next, n) && DirtyCount(now.index) == 0
    ensures n == DirtyCount(was.index)
    ensures now.index.tensors == FinalTensors(was.index) && SpaceOf(now) == FinalSpace(was)
  {
    CleanIsFinal(now);
  }

  lemma SafeWidens(past: seq<State>, history: seq<State>, s0: State, next: nat, next': nat)
    requires Safe(past, history, s0, next) && next <= next'
    ensures Safe(past, history, s0, next')
  {
    forall i | |past| <= i < |history|
      ensures FreeFrom(history[i].files, next')
    {
      assert FreeFrom(history[i].files, next);
    }
  }
}
