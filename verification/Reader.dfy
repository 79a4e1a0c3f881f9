/** Reading an entry back, across shard boundaries and in bounded pieces. */
module Reader {
  import opened Basics
  import opened Layout

  datatype ReadError = MissingFile | BadSeek | ShortRead | Incomplete

  datatype Result<+T> = Ok(value: T) | Err(error: ReadError)

  function Flatten(parts: seq<seq<Byte>>): seq<Byte> {
    if parts == [] then [] else Flatten(parts[..|parts| - 1]) + parts[|parts| - 1]
  }

  lemma {:induction false} FlattenConcat(a: seq<seq<Byte>>, b: seq<seq<Byte>>)
    ensures Flatten(a + b) == Flatten(a) + Flatten(b)
    decreases |b|
  {
    if b == [] {
      assert a + b == a;
    } else {
      var n := |b| - 1;
      FlattenConcat(a, b[..n]);
      assert (a + b)[..|a + b| - 1] == a + b[..n];
    }
  }

  ghost predicate Bounded(chunks: seq<seq<Byte>>) {
    forall i :: 0 <= i < |chunks| ==> 0 < |chunks[i]| <= CHUNK
  }

  /** Some shard that claims position p holds `b` there. */
  ghost predicate Serves(files: Files, ss: seq<Shard>, p: int, b: Byte) {
    exists i :: 0 <= i < |ss| && ServedBy(files, ss[i], p, b)
  }

  ghost predicate ServedBy(files: Files, sh: Shard, p: int, b: Byte) {
    && sh.off <= p < sh.End()
    && sh.file in files && p - sh.off < |files[sh.file]| && files[sh.file][p - sh.off] == b
  }

  /** The entry lies inside a space whose shards are all there. */
  ghost predicate Readable(files: Files, index: Index, e: Entry) {
    && Tiles(Ordered(index), 0, index.total) && Present(files, Ordered(index))
    && 0 <= e.off && 0 <= e.nbytes && e.off + e.nbytes <= index.total
  }

  /** The entry's part of the byte space. */
  ghost function BytesOf(files: Files, index: Index, e: Entry): (b: seq<Byte>)
    requires Readable(files, index, e)
    ensures |b| == e.nbytes
  {
    SpaceStored(files, Ordered(index), index.total);
    Space(files, Ordered(index))[e.off..e.off + e.nbytes]
  }

  /** One read call: up to `want` bytes from position `fp`, fewer at the end of the file. */
  function ReadAt(content: seq<Byte>, fp: nat, want: nat): (buf: seq<Byte>)
    ensures buf == [] <==> want == 0 || |content| <= fp
    ensures buf != [] ==> |buf| <= want && fp + |buf| <= |content| && buf == content[fp..fp + |buf|]
    ensures fp + want <= |content| ==> |buf| == want
  {
    if |content| <= fp then []
    else if fp + want <= |content| then content[fp..fp + want]
    else content[fp..]
  }

  lemma FlattenAppend(chunks: seq<seq<Byte>>, buf: seq<Byte>)
    ensures Flatten(chunks + [buf]) == Flatten(chunks) + buf
  {
    assert (chunks + [buf])[..|chunks|] == chunks;
  }

  /** Reads content[at..at + take], failing when the file is too short. */
  method ReadFrom(content: seq<Byte>, at: nat, take: nat) returns (r: Result<seq<seq<Byte>>>)
    requires take > 0
    ensures r.Ok? <==> at + take <= |content|
    ensures r.Ok? ==> Bounded(r.value) && Flatten(r.value) == content[at..at + take]
  {
    var chunks, fp, left := [], at, take;
    while left > 0
      invariant 0 <= left <= take && fp == at + take - left && Bounded(chunks)
      invariant left < take ==> fp <= |content|
      invariant at <= |content| ==> fp <= |content| && Flatten(chunks) == content[at..fp]
    {
      var buf := ReadAt(content, fp, if left < CHUNK then left else CHUNK);
      if buf == [] {
        return Err(ShortRead);
      }
      FlattenAppend(chunks, buf);
      BoundedConcat(chunks, [buf]);
      SliceJoin(content, at, fp, fp + |buf|);
      chunks, left, fp := chunks + [buf], left - |buf|, fp + |buf|;
    }
    return Ok(chunks);
  }

  /** Every byte, from global position `at` on, is served by some shard. */
  ghost predicate AllServed(files: Files, ss: seq<Shard>, at: int, bytes: seq<Byte>) {
    forall k :: 0 <= k < |bytes| ==> Serves(files, ss, at + k, bytes[k])
  }

  lemma ServedOn(files: Files, ss: seq<Shard>, at: int, before: seq<Byte>, k: nat, take: nat)
    requires AllServed(files, ss, at, before) && k < |ss| && ss[k].file in files
    requires var p := at + |before| - ss[k].off; 0 <= p && p + take <= ss[k].nbytes && p + take <= |files[ss[k].file]|
    ensures var p := at + |before| - ss[k].off;
            AllServed(files, ss, at, before + files[ss[k].file][p..p + take])
  {
    var p := at + |before| - ss[k].off;
    var all := before + files[ss[k].file][p..p + take];
    forall j | 0 <= j < |all|
      ensures Serves(files, ss, at + j, all[j])
    {
      if j < |before| {
        assert all[j] == before[j];
      } else {
        assert ServedBy(files, ss[k], at + j, all[j]);
      }
    }
  }

  /** How far a read over the first k shards of a sound layout has got. */
  ghost predicate OnTrack(files: Files, index: Index, e: Entry, k: nat, pos: int, bytes: seq<Byte>)
    requires Readable(files, index, e)
  {
    && e.off <= pos <= e.off + e.nbytes
    && (pos == e.off + e.nbytes || Edge(Ordered(index), k, index.total) <= pos)
    && bytes == BytesOf(files, index, e)[..pos - e.off]
  }

  lemma OnTrackSkips(files: Files, index: Index, e: Entry, k: nat, pos: int, bytes: seq<Byte>)
    requires Readable(files, index, e) && k < |Ordered(index)| && OnTrack(files, index, e, k, pos, bytes)
    requires e.off + e.nbytes <= pos || Ordered(index)[k].End() <= pos
    ensures OnTrack(files, index, e, k + 1, pos, bytes)
  {
    assert Abuts(Ordered(index), k, index.total);
  }

  /** The shard an entry goes on in is there and holds the next part of it. */
  lemma OnTrackTakes(files: Files, index: Index, e: Entry, k: nat, pos: int, bytes: seq<Byte>, take: int)
    requires Readable(files, index, e) && k < |Ordered(index)| && OnTrack(files, index, e, k, pos, bytes)
    requires pos < e.off + e.nbytes && pos < Ordered(index)[k].End()
    requires var sh, left := Ordered(index)[k], e.off + e.nbytes - pos;
             take == if sh.End() - pos < left then sh.End() - pos else left
    ensures var sh := Ordered(index)[k];
            && sh.file in files && sh.off <= pos && pos - sh.off + take <= |files[sh.file]|
            && OnTrack(files, index, e, k + 1, pos + take, bytes + files[sh.file][pos - sh.off..pos - sh.off + take])
  {
    var ss, space := Ordered(index), Space(files, Ordered(index));
    var sh := ss[k];
    SpaceStored(files, ss, index.total);
    assert Abuts(ss, k, index.total) && Holds(files, sh, space);
    EdgesAscend(ss, 0, index.total, k, k + 1);
    NextPart(space, sh.off, sh.End(), e.off, e.off + e.nbytes, pos, take);
    assert BytesOf(files, index, e) == space[e.off..e.off + e.nbytes];
  }

  /** What the shard [s0, s1) holds from `pos` on continues the entry [a, b). */
  lemma NextPart(space: seq<Byte>, s0: nat, s1: nat, a: nat, b: nat, pos: nat, take: nat)
    requires s0 <= pos && pos + take <= s1 <= |space| && a <= pos && pos + take <= b <= |space|
    ensures space[a..b][..pos - a] + space[s0..s1][pos - s0..pos - s0 + take] == space[a..b][..pos + take - a]
  {
    SliceOfSlice(space, s0, s1, pos - s0, pos - s0 + take);
    SliceOfSlice(space, a, b, 0, pos - a);
    SliceOfSlice(space, a, b, 0, pos + take - a);
    SliceJoin(space, a, pos, pos + take);
  }

  /** How far a read has got over the first k shards, on any layout. */
  ghost predicate Read(files: Files, index: Index, e: Entry, k: nat, pos: int, chunks: seq<seq<Byte>>) {
    && |Flatten(chunks)| == pos - e.off && Bounded(chunks)
    && AllServed(files, Ordered(index), e.off, Flatten(chunks))
    && (Readable(files, index, e) ==> OnTrack(files, index, e, k, pos, Flatten(chunks)))
  }

  lemma ReadStarts(files: Files, index: Index, e: Entry)
    ensures Read(files, index, e, 0, e.off, [])
  {
    if Readable(files, index, e) {
      EdgesAscend(Ordered(index), 0, index.total, 0, 0);
    }
  }

  /** A shard that has nothing to give is skipped. */
  lemma ReadSkips(files: Files, index: Index, e: Entry, k: nat, pos: int, chunks: seq<seq<Byte>>)
    requires k < |Ordered(index)| && Read(files, index, e, k, pos, chunks)
    requires e.off + e.nbytes <= pos || Ordered(index)[k].End() <= pos
    ensures Read(files, index, e, k + 1, pos, chunks)
  {
    if Readable(files, index, e) {
      OnTrackSkips(files, index, e, k, pos, Flatten(chunks));
    }
  }

  /** Of a readable entry, every shard it meets is there and long enough. */
  lemma ReadWorks(files: Files, index: Index, e: Entry, k: nat, pos: int, chunks: seq<seq<Byte>>)
    requires k < |Ordered(index)| && Read(files, index, e, k, pos, chunks) && Readable(files, index, e)
    requires pos < e.off + e.nbytes && pos < Ordered(index)[k].End()
    ensures var sh, left := Ordered(index)[k], e.off + e.nbytes - pos;
            var take := if sh.End() - pos < left then sh.End() - pos else left;
            sh.file in files && sh.off <= pos && pos - sh.off + take <= |files[sh.file]|
  {
    var sh, left := Ordered(index)[k], e.off + e.nbytes - pos;
    OnTrackTakes(files, index, e, k, pos, Flatten(chunks), if sh.End() - pos < left then sh.End() - pos else left);
  }

  /** What a shard gives continues the entry. */
  lemma ReadTakes(files: Files, index: Index, e: Entry, k: nat, pos: int, chunks: seq<seq<Byte>>, got: seq<seq<Byte>>, take: nat)
    requires k < |Ordered(index)| && Read(files, index, e, k, pos, chunks)
    requires pos < e.off + e.nbytes && Ordered(index)[k].off <= pos < Ordered(index)[k].End()
    requires var sh, left := Ordered(index)[k], e.off + e.nbytes - pos;
             && take == (if sh.End() - pos < left then sh.End() - pos else left)
             && sh.file in files && pos - sh.off + take <= |files[sh.file]|
             && Bounded(got) && Flatten(got) == files[sh.file][pos - sh.off..pos - sh.off + take]
    ensures Read(files, index, e, k + 1, pos + take, chunks + got)
  {
    FlattenConcat(chunks, got);
    BoundedConcat(chunks, got);
    TakenOn(files, index, e, k, pos, Flatten(chunks), Flatten(got), take);
  }

  lemma BoundedConcat(a: seq<seq<Byte>>, b: seq<seq<Byte>>)
    requires Bounded(a) && Bounded(b)
    ensures Bounded(a + b)
  {
  }

  lemma TakenOn(files: Files, index: Index, e: Entry, k: nat, pos: int, before: seq<Byte>, part: seq<Byte>, take: nat)
    requires k < |Ordered(index)| && |before| == pos - e.off && AllServed(files, Ordered(index), e.off, before)
    requires Readable(files, index, e) ==> OnTrack(files, index, e, k, pos, before)
    requires pos < e.off + e.nbytes && Ordered(index)[k].off <= pos < Ordered(index)[k].End()
    requires var sh, left := Ordered(index)[k], e.off + e.nbytes - pos;
             && take == (if sh.End() - pos < left then sh.End() - pos else left)
             && sh.file in files && pos - sh.off + take <= |files[sh.file]|
             && part == files[sh.file][pos - sh.off..pos - sh.off + take]
    ensures |before + part| == pos + take - e.off && AllServed(files, Ordered(index), e.off, before + part)
    ensures Readable(files, index, e) ==> OnTrack(files, index, e, k + 1, pos + take, before + part)
  {
    ServedOn(files, Ordered(index), e.off, before, k, take);
    if Readable(files, index, e) {
      OnTrackTakes(files, index, e, k, pos, before, take);
    }
  }

  /**
   The bytes of an entry. Whatever the layout, a successful read has the entry's length and
   every byte comes from a shard that claims its position; on a readable entry it succeeds
   and returns exactly the entry's part of the byte space.
   */
  method EntryChunks(files: Files, index: Index, e: Entry) returns (r: Result<seq<seq<Byte>>>)
    ensures r.Ok? ==> Bounded(r.value) && |Flatten(r.value)| == e.nbytes
    ensures r.Ok? ==> AllServed(files, Ordered(index), e.off, Flatten(r.value))
    ensures Readable(files, index, e) ==> r.Ok? && Flatten(r.value) == BytesOf(files, index, e)
  {
    var ss := Ordered(index);
    var pos, remaining := e.off, e.nbytes;
    var out: seq<seq<Byte>> := [];
    ReadStarts(files, index, e);
    for k := 0 to |ss|
      invariant pos + remaining == e.off + e.nbytes && Read(files, index, e, k, pos, out)
    {
      var sh := ss[k];
      if remaining <= 0 || pos >= sh.End() {
        ReadSkips(files, index, e, k, pos, out);
        continue;
      }
      if Readable(files, index, e) {
        ReadWorks(files, index, e, k, pos, out);
      }
      if sh.file !in files {
        return Err(MissingFile);
      }
      if pos < sh.off {
        return Err(BadSeek);
      }
      var take := if sh.End() - pos < remaining then sh.End() - pos else remaining;
      var got := ReadFrom(files[sh.file], pos - sh.off, take);
      if got.Err? {
        return got;
      }
      ReadTakes(files, index, e, k, pos, out, got.value, take);
      out, pos, remaining := out + got.value, pos + take, remaining - take;
    }
    if remaining != 0 {
      return Err(Incomplete);
    }
    return Ok(out);
  }
}
