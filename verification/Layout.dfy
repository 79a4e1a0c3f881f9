/**
 The FTW checkpoint: named tensors placed in one byte space that is cut into shard files.
 */
module Layout {
  import opened Sorting

  newtype Byte = x: int | 0 <= x < 256

  const ALIGN: int := 4096

  /** 64 MiB, the largest single read. */
  const CHUNK: int := 67108864

  function AlignUp(n: int): (r: int)
    ensures r % ALIGN == 0 && n <= r < n + ALIGN
    ensures n % ALIGN == 0 ==> r == n
  {
    (n + ALIGN - 1) / ALIGN * ALIGN
  }

  /** `Numbered(n)` is the name the shard format gives the number n; `Named` is any other name. */
  datatype File = Numbered(num: nat) | Named(name: string)

  type Files = map<File, seq<Byte>>

  datatype Entry = Entry(name: string, kind: string, dtype: string, shape: seq<nat>, off: int, nbytes: int) {
    /** Where the ALIGN-padded block of this entry ends. */
    function End(): int {
      off + AlignUp(nbytes)
    }

    ghost predicate Covers(p: int) {
      off <= p < End()
    }
  }

  datatype Shard = Shard(file: File, off: int, nbytes: int) {
    function End(): int {
      off + nbytes
    }
  }

  datatype Index = Index(tensors: seq<Entry>, shards: seq<Shard>, total: int, limit: nat)

  /** What a crash leaves behind: the files and the index in force. */
  datatype State = State(files: Files, index: Index)

  // ------------------------------------------------------------ tensors

  ghost predicate Live(ts: seq<Entry>, p: int) {
    exists i :: 0 <= i < |ts| && ts[i].Covers(p)
  }

  /** The bytes of [lo, hi) no entry owns. */
  ghost function DeadIn(ts: seq<Entry>, lo: int, hi: int): set<int> {
    set p | lo <= p < hi && !Live(ts, p)
  }

  ghost predicate Apart(a: Entry, b: Entry) {
    a.End() <= b.off || b.End() <= a.off
  }

  /** Padded blocks do not overlap, and no entry starts strictly inside another's block. */
  ghost predicate Separated(ts: seq<Entry>) {
    forall i, j :: 0 <= i < j < |ts| ==> Apart(ts[i], ts[j])
  }

  ghost predicate Placed(e: Entry, total: int) {
    0 <= e.off && e.off % ALIGN == 0 && 0 <= e.nbytes && e.off + e.nbytes <= total
  }

  ghost predicate AllPlaced(ts: seq<Entry>, total: int) {
    forall i :: 0 <= i < |ts| ==> Placed(ts[i], total)
  }

  ghost predicate DistinctNames(ts: seq<Entry>) {
    forall i, j :: 0 <= i < j < |ts| ==> ts[i].name != ts[j].name
  }

  /** What an entry says apart from where it sits: its data and its bytes. */
  ghost function ItemOf(e: Entry, space: seq<Byte>): (Entry, seq<Byte>)
    requires Placed(e, |space|)
  {
    (e.(off := 0), space[e.off..e.off + e.nbytes])
  }

  /** The items of all entries, in index order. */
  ghost function Listing(ts: seq<Entry>, space: seq<Byte>): seq<(Entry, seq<Byte>)>
    requires AllPlaced(ts, |space|)
  {
    seq(|ts|, i requires 0 <= i < |ts| => ItemOf(ts[i], space))
  }

  // ------------------------------------------------------------ shards

  predicate ByOffset(a: Shard, b: Shard) {
    a.off <= b.off
  }

  function Ordered(index: Index): seq<Shard> {
    Sort(ByOffset, index.shards)
  }

  function Edge(ss: seq<Shard>, i: nat, hi: int): int {
    if i < |ss| then ss[i].off else hi
  }

  /** In list order the shards cover [lo, hi) without gap or overlap. */
  ghost predicate Tiles(ss: seq<Shard>, lo: int, hi: int) {
    && Edge(ss, 0, hi) == lo
    && forall i :: 0 <= i < |ss| ==> Abuts(ss, i, hi)
  }

  ghost predicate Abuts(ss: seq<Shard>, i: nat, hi: int)
    requires i < |ss|
  {
    0 <= ss[i].nbytes && ss[i].End() == Edge(ss, i + 1, hi)
  }

  ghost predicate Present(files: Files, ss: seq<Shard>) {
    forall i :: 0 <= i < |ss| ==> ss[i].file in files && |files[ss[i].file]| == ss[i].nbytes
  }

  ghost predicate DistinctFiles(ss: seq<Shard>) {
    forall i, j :: 0 <= i < j < |ss| ==> ss[i].file != ss[j].file
  }

  ghost predicate AlignedEdges(ss: seq<Shard>, total: int) {
    && total % ALIGN == 0
    && forall i :: 0 <= i < |ss| ==> ss[i].off % ALIGN == 0
  }

  /** The byte space the shards hold between them. */
  function Space(files: Files, ss: seq<Shard>): seq<Byte>
    requires forall i :: 0 <= i < |ss| ==> ss[i].file in files
  {
    if ss == [] then [] else
      var n := |ss| - 1;
      Space(files, ss[..n]) + files[ss[n].file]
  }

  /** The shard files, cut at the shard edges, are exactly `space`. */
  ghost predicate Stored(files: Files, ss: seq<Shard>, space: seq<Byte>) {
    && Tiles(ss, 0, |space|)
    && forall i :: 0 <= i < |ss| ==> Holds(files, ss[i], space)
  }

  ghost predicate Holds(files: Files, sh: Shard, space: seq<Byte>) {
    && 0 <= sh.off <= sh.End() <= |space|
    && sh.file in files && files[sh.file] == space[sh.off..sh.End()]
  }

  // ------------------------------------------------------------ whole checkpoints

  /** What the structural part of the validator demands. */
  ghost predicate Sound(st: State) {
    && Tiles(Ordered(st.index), 0, st.index.total)
    && Present(st.files, Ordered(st.index))
    && AllPlaced(st.index.tensors, st.index.total)
    && DistinctNames(st.index.tensors)
    && Separated(st.index.tensors)
  }

  /** Two facts every writer establishes and no validator checks. */
  ghost predicate WellCut(index: Index) {
    && AlignedEdges(Ordered(index), index.total)
    && DistinctFiles(Ordered(index))
  }

  ghost predicate Loadable(st: State) {
    Sound(st) && WellCut(st.index)
  }

  ghost function SpaceOf(st: State): seq<Byte>
    requires Sound(st)
  {
    Space(st.files, Ordered(st.index))
  }

  ghost function ListingOf(st: State): seq<(Entry, seq<Byte>)>
    requires Sound(st)
  {
    SpaceStored(st.files, Ordered(st.index), st.index.total);
    Listing(st.index.tensors, SpaceOf(st))
  }

  // ------------------------------------------------------------ lemmas

  lemma {:induction false} EdgeLe(ss: seq<Shard>, lo: int, hi: int, i: nat, j: nat)
    requires Tiles(ss, lo, hi) && i <= j <= |ss|
    ensures Edge(ss, i, hi) <= Edge(ss, j, hi)
    decreases j
  {
    if i < j {
      EdgeLe(ss, lo, hi, i, j - 1);
      assert Abuts(ss, j - 1, hi);
    }
  }

  /** Edges never decrease along the tiling. */
  lemma EdgesAscend(ss: seq<Shard>, lo: int, hi: int, i: nat, j: nat)
    requires Tiles(ss, lo, hi) && i <= j <= |ss|
    ensures lo <= Edge(ss, i, hi) <= Edge(ss, j, hi) <= hi
    ensures i < j ==> 0 <= ss[i].nbytes && ss[i].End() <= Edge(ss, j, hi)
  {
    EdgeLe(ss, lo, hi, 0, i);
    EdgeLe(ss, lo, hi, i, j);
    EdgeLe(ss, lo, hi, j, |ss|);
    if i < j {
      assert Abuts(ss, i, hi);
      EdgeLe(ss, lo, hi, i + 1, j);
    }
  }

  lemma TilesSorted(ss: seq<Shard>, lo: int, hi: int)
    requires Tiles(ss, lo, hi)
    ensures Sorted(ByOffset, ss)
    ensures Sort(ByOffset, ss) == ss
  {
    forall i, j | 0 <= i < j < |ss|
      ensures ByOffset(ss[i], ss[j])
    {
      EdgesAscend(ss, lo, hi, i, j);
    }
    SortSorted(ByOffset, ss);
  }

  /** Every byte of the tiled space lies in some shard. */
  lemma {:induction false} ShardAt(ss: seq<Shard>, lo: int, hi: int, p: int) returns (i: nat)
    requires Tiles(ss, lo, hi) && lo <= p < hi
    ensures i < |ss| && ss[i].off <= p < ss[i].End()
    decreases |ss|
  {
    var n := |ss| - 1;
    assert Abuts(ss, n, hi);
    if ss[n].off <= p {
      i := n;
    } else {
      TilesPrefix(ss, lo, hi, n);
      i := ShardAt(ss[..n], lo, ss[n].off, p);
    }
  }

  lemma TilesPrefix(ss: seq<Shard>, lo: int, hi: int, n: nat)
    requires Tiles(ss, lo, hi) && n <= |ss|
    ensures Tiles(ss[..n], lo, Edge(ss, n, hi))
  {
    forall i | 0 <= i < n
      ensures Abuts(ss[..n], i, Edge(ss, n, hi))
    {
      assert Abuts(ss, i, hi);
    }
  }

  lemma {:induction false} SpaceStored(files: Files, ss: seq<Shard>, total: int)
    requires Tiles(ss, 0, total) && Present(files, ss)
    ensures |Space(files, ss)| == total
    ensures Stored(files, ss, Space(files, ss))
    decreases |ss|
  {
    if ss != [] {
      var n := |ss| - 1;
      var init := ss[..n];
      TilesPrefix(ss, 0, total, n);
      SpaceStored(files, init, ss[n].off);
      assert Abuts(ss, n, total);
      var sp := Space(files, ss);
      forall i | 0 <= i < |ss|
        ensures Holds(files, ss[i], sp)
      {
        if i < n {
          assert Holds(files, init[i], Space(files, init));
          assert sp[ss[i].off..ss[i].End()] == Space(files, init)[ss[i].off..ss[i].End()];
        }
      }
    }
  }

  lemma {:induction false} StoredIsSpace(files: Files, ss: seq<Shard>, space: seq<Byte>)
    requires Stored(files, ss, space)
    ensures Present(files, ss)
    ensures space == Space(files, ss)
    decreases |ss|
  {
    if ss != [] {
      var n := |ss| - 1;
      assert Holds(files, ss[n], space) && Abuts(ss, n, |space|);
      TilesPrefix(ss, 0, |space|, n);
      var head := space[..ss[n].off];
      assert Stored(files, ss[..n], head) by {
        forall i | 0 <= i < n
          ensures Holds(files, ss[..n][i], head)
        {
          assert Holds(files, ss[i], space);
          EdgesAscend(ss, 0, |space|, i, n);
          assert head[ss[i].off..ss[i].End()] == space[ss[i].off..ss[i].End()];
        }
      }
      StoredIsSpace(files, ss[..n], head);
      assert space == head + space[ss[n].off..];
    }
  }

  lemma SliceJoin(s: seq<Byte>, a: nat, b: nat, c: nat)
    requires a <= b <= c <= |s|
    ensures s[a..b] + s[b..c] == s[a..c]
  {
  }

  /** A checkpoint known by its byte space. */
  lemma LoadableFrom(st: State, space: seq<Byte>)
    requires Stored(st.files, Ordered(st.index), space) && st.index.total == |space|
    requires AllPlaced(st.index.tensors, |space|) && DistinctNames(st.index.tensors) && Separated(st.index.tensors)
    ensures Sound(st) && SpaceOf(st) == space && ListingOf(st) == Listing(st.index.tensors, space)
  {
    StoredIsSpace(st.files, Ordered(st.index), space);
  }
}
