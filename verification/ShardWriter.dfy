/** Streaming entries into shard files, into a new directory or after the end of an old one. */
module ShardWriter {
  import opened Layout
  import opened Disk
  import opened Reader
  import opened Packing

  /** Outside the shard numbers from `first` on nothing differs. */
  ghost predicate Untouched(first: nat, a: Files, b: Files) {
    forall f: File :: f.Named? || f.num < first ==> (f in a <==> f in b) && (f in a ==> a[f] == b[f])
  }

  /** A state a writer may leave behind: same index, only shard numbers in [first, next) written. */
  ghost predicate Spilled(first: nat, next: nat, was: State, s: State) {
    && s.index == was.index && Untouched(first, was.files, s.files)
    && forall f :: f in s.files && f.Numbered? && first <= f.num ==> f.num < next || f in was.files
  }

  ghost predicate OnlySpilled(first: nat, next: nat, was: State, past: seq<State>, history: seq<State>) {
    && |past| <= |history| && history[..|past|] == past
    && forall i :: |past| <= i < |history| ==> Spilled(first, next, was, history[i])
  }

  lemma WriteSpills(first: nat, n: nat, next: nat, was: State, st: State, data: seq<Byte>)
    requires Spilled(first, next, was, st) && first <= n
    ensures Spilled(first, if next <= n then n + 1 else next, was, State(st.files[Numbered(n) := data], st.index))
  {
  }

  lemma TornSpills(first: nat, n: nat, next: nat, was: State, st: State, data: seq<Byte>)
    requires Spilled(first, next, was, st) && first <= n < next && Numbered(n) in st.files
    ensures forall i :: 0 <= i < |data| ==> Spilled(first, next, was, Torn(st, Numbered(n), data)[i])
  {
    forall i | 0 <= i < |data|
      ensures Spilled(first, next, was, Torn(st, Numbered(n), data)[i])
    {
      WriteSpills(first, n, next, was, st, st.files[Numbered(n)] + data[..i + 1]);
    }
  }

  lemma SpillOn(first: nat, next: nat, next': nat, was: State, past: seq<State>, mid: seq<State>, history: seq<State>)
    requires OnlySpilled(first, next, was, past, mid) && next <= next'
    requires |mid| <= |history| && history[..|mid|] == mid
    requires forall i :: |mid| <= i < |history| ==> Spilled(first, next', was, history[i])
    ensures OnlySpilled(first, next', was, past, history)
  {
    assert history[..|past|] == mid[..|past|];
    forall i | |past| <= i < |history|
      ensures Spilled(first, next', was, history[i])
    {
      if i < |mid| {
        assert history[i] == history[..|mid|][i] == mid[i];
      }
    }
  }

  /** What is fixed when a writer is made: its numbers and limit, the space in front of it, and the disk then. */
  datatype Origin = Origin(first: nat, limit: nat, prefix: seq<Byte>, was: State, past: seq<State>) {
    predicate Aligned() {
      limit % ALIGN == 0 && |prefix| % ALIGN == 0
    }
  }

  /** With an aligned limit and start, shards are cut at ALIGN multiples. */
  ghost predicate CutAligned(o: Origin, all: seq<Shard>) {
    o.Aligned() ==> forall i :: 0 <= i < |all| ==> all[i].off % ALIGN == 0
  }

  /** The bytes written so far are where the shards say, and nothing but new shard files was touched. */
  ghost predicate Flow(o: Origin, now: State, history: seq<State>, all: seq<Shard>, space: seq<Byte>) {
    && o.limit > 0 && o.prefix <= space
    && Laid(now.files, all, o.first, o.limit, |o.prefix|, space)
    && CutAligned(o, all)
    && Spilled(o.first, o.first + |all|, o.was, now)
    && OnlySpilled(o.first, o.first + |all|, o.was, o.past, history)
  }

  lemma FlowRoll(o: Origin, now: State, history: seq<State>, all: seq<Shard>, space: seq<Byte>)
    requires Flow(o, now, history, all, space) && (o.Aligned() ==> |space| % ALIGN == 0)
    ensures var f := Numbered(o.first + |all|);
            var now' := State(now.files[f := []], now.index);
            Flow(o, now', history + [now'], all + [Shard(f, |space|, 0)], space)
  {
    var n := o.first + |all|;
    var now' := State(now.files[Numbered(n) := []], now.index);
    LaidRoll(now.files, all, o.first, o.limit, |o.prefix|, space);
    WriteSpills(o.first, n, n, o.was, now, []);
    SpillOn(o.first, n, n + 1, o.was, o.past, history, history + [now']);
  }

  lemma FlowPut(o: Origin, now: State, history: seq<State>, all: seq<Shard>, space: seq<Byte>, data: seq<Byte>)
    requires Flow(o, now, history, all, space) && all != [] && all[|all| - 1].nbytes + |data| <= o.limit
    ensures var last := all[|all| - 1];
            && last.file == Numbered(o.first + |all| - 1) && last.file in now.files
            && Flow(o, State(now.files[last.file := now.files[last.file] + data], now.index),
                    history + Torn(now, last.file, data),
                    all[|all| - 1 := last.(nbytes := last.nbytes + |data|)], space + data)
  {
    var n := o.first + |all| - 1;
    assert ShardLaid(now.files, all, o.first, o.limit, space, |all| - 1);
    LaidAppend(now.files, all, o.first, o.limit, |o.prefix|, space, data);
    TornSpills(o.first, n, n + 1, o.was, now, data);
    WriteSpills(o.first, n, n + 1, o.was, now, now.files[Numbered(n)] + data);
    SpillOn(o.first, n + 1, n + 1, o.was, o.past, history, history + Torn(now, Numbered(n), data));
  }

  lemma LastGrows(shards: seq<Shard>, last: Shard, n: nat)
    ensures var all := shards + [last];
            && all[|all| - 1] == last
            && all[|all| - 1 := last.(nbytes := last.nbytes + n)] == shards + [last.(nbytes := last.nbytes + n)]
  {
  }

  class ShardWriter {
    const disk: Disk
    const limit: nat
    const first: nat
    var globalOff: int
    var shardIdx: int
    /** Whether a shard is being written, and which file it is. */
    var open: bool
    var file: File
    var start: int
    var cur: int
    var shards: seq<Shard>
    var entries: seq<Entry>

    /** The disk when the writer was made, its past, and the space in front of the writer. */
    ghost const was: State
    ghost const past: seq<State>
    ghost const prefix: seq<Byte>
    /** Everything in front of `globalOff`. */
    ghost var space: seq<Byte>
    ghost var payloads: seq<seq<Byte>>

    ghost function Start(): Origin {
      Origin(first, limit, prefix, was, past)
    }

    /** The finished shards and the one being written. */
    ghost function All(): seq<Shard>
      reads this
    {
      shards + if open then [Shard(file, start, cur)] else []
    }

    /** The bytes written so far are where the shards say. */
    ghost predicate Streaming()
      reads this, disk
    {
      && globalOff == |space| && shardIdx == first + |All()| - 1 && disk.Recorded()
      && Flow(Start(), disk.Now(), disk.history, All(), space)
    }

    /** Between entries, the bytes written are the padded payloads of the entries. */
    ghost predicate Valid()
      reads this, disk
    {
      && Streaming()
      && space == prefix + Packed(payloads)
      && Listed(entries, payloads, |prefix|)
      && Whole(entries, All(), limit)
    }

    /** The writer has not been closed, and began every shard for a reason. */
    ghost predicate Running()
      reads this
    {
      (open || All() == []) && Thrifty(entries, All(), limit)
    }

    constructor (disk: Disk, limit: nat, first: nat, globalOff: nat, ghost prefix: seq<Byte>)
      requires disk.Recorded() && limit > 0 && |prefix| == globalOff
      ensures Valid() && this.disk == disk && this.limit == limit && this.first == first
      ensures entries == [] && payloads == [] && this.prefix == prefix && All() == []
      ensures was == disk.Now() && past == disk.history
    {
      this.disk, this.limit, this.first, this.globalOff := disk, limit, first, globalOff;
      this.shardIdx, this.open, this.start, this.cur := first - 1, false, 0, 0;
      this.file, this.shards, this.entries := Numbered(first), [], [];
      this.was, this.past, this.prefix := State(disk.files, disk.index), disk.history, prefix;
      this.space, this.payloads := prefix, [];
    }

    /** Ends the shard being written, if any, and opens the next. */
    method Roll()
      requires Streaming() && (Start().Aligned() ==> globalOff % ALIGN == 0)
      modifies this, disk
      ensures Streaming() && open && cur == 0 && start == globalOff && space == old(space)
      ensures All() == old(All()) + [Shard(file, globalOff, 0)]
      ensures entries == old(entries) && payloads == old(payloads)
    {
      ghost var all := All();
      FlowRoll(Start(), disk.Now(), disk.history, all, space);
      if open {
        shards := shards + [Shard(file, start, cur)];
      }
      shardIdx := shardIdx + 1;
      start, cur := globalOff, 0;
      file := Numbered(shardIdx);
      disk.Create(file);
      open := true;
      assert All() == all + [Shard(file, globalOff, 0)];
    }

    /** Appends bytes that fit to the shard being written. */
    method Put(data: seq<Byte>)
      requires Streaming() && open && cur + |data| <= limit
      modifies this, disk
      ensures Streaming() && open && space == old(space) + data && cur == old(cur) + |data|
      ensures All() == old(All())[|old(All())| - 1 := Shard(file, start, cur)]
      ensures file == old(file) && start == old(start) && shards == old(shards)
      ensures entries == old(entries) && payloads == old(payloads)
    {
      ghost var all := All();
      FlowPut(Start(), disk.Now(), disk.history, all, space, data);
      LastGrows(shards, Shard(file, start, cur), |data|);
      disk.Append(file, data);
      cur := cur + |data|;
      globalOff := globalOff + |data|;
      space := space + data;
    }

    /** How much is in the shard the next byte goes to, and where that shard starts. */
    ghost function Filled(): int
      reads this
    {
      if open then cur else 0
    }

    ghost function Begin(): int
      reads this
    {
      if open then start else globalOff
    }

    /** Makes sure a shard with room is open. */
    method Ready()
      requires Streaming() && (open || (Start().Aligned() ==> globalOff % ALIGN == 0))
      modifies this, disk
      ensures Streaming() && open && 0 <= cur < limit && space == old(space) && Continues(old(All()), All())
      ensures old(open) ==> Fills(old(All()), All(), limit)
      ensures old(Filled()) < limit ==> cur == old(Filled()) && start == old(Begin())
      ensures entries == old(entries) && payloads == old(payloads)
    {
      if open {
        ShardRoom();
        OpenEnds();
        assert All()[|All()| - 1] == Shard(file, start, cur);
      }
      if !open || cur == limit {
        Roll();
      }
    }

    /** Writes as much of `data` as the current shard takes, after rolling if there is none or it is full. */
    method WriteSome(data: seq<Byte>) returns (take: nat)
      requires Streaming() && data != [] && (open || (Start().Aligned() ==> globalOff % ALIGN == 0))
      modifies this, disk
      ensures Streaming() && open && 0 < take <= |data| && space == old(space) + data[..take]
      ensures Continues(old(All()), All()) && (old(open) ==> Fills(old(All()), All(), limit))
      ensures old(Filled()) + |data| <= limit ==> cur == old(Filled()) + take && start == old(Begin())
      ensures entries == old(entries) && payloads == old(payloads)
    {
      Ready();
      ghost var ready := All();
      take := if |data| < limit - cur then |data| else limit - cur;
      Put(data[..take]);
      if old(open) {
        FillsOn(old(All()), ready, All(), limit);
      }
    }

    /** Writes `data`, rolling to a new shard whenever there is none or the current one is full. */
    method Write(data: seq<Byte>)
      requires Streaming() && (open || (Start().Aligned() ==> globalOff % ALIGN == 0))
      modifies this, disk
      ensures Streaming() && open == (old(open) || data != []) && space == old(space) + data
      ensures Continues(old(All()), All()) && (old(open) ==> Fills(old(All()), All(), limit))
      ensures old(Filled()) + |data| <= limit ==> Filled() == old(Filled()) + |data| && Begin() == old(Begin())
      ensures entries == old(entries) && payloads == old(payloads)
    {
      var off := 0;
      assert space == space + data[..0];
      while off < |data|
        invariant 0 <= off <= |data| && Streaming() && open == (old(open) || off > 0)
        invariant off == 0 ==> globalOff == old(globalOff)
        invariant space == old(space) + data[..off]
        invariant Continues(old(All()), All()) && (old(open) ==> Fills(old(All()), All(), limit))
        invariant old(Filled()) + |data| <= limit ==> Filled() == old(Filled()) + off && Begin() == old(Begin())
        invariant entries == old(entries) && payloads == old(payloads)
      {
        ghost var before := All();
        var take := WriteSome(data[off..]);
        if old(open) {
          FillsOn(old(All()), before, All(), limit);
        }
        assert data[..off] + data[off..][..take] == data[..off + take];
        off := off + take;
      }
      assert data[..|data|] == data;
    }

    lemma ShardRoom()
      requires Streaming() && open
      ensures 0 <= cur <= limit
    {
      assert ShardLaid(disk.files, All(), first, limit, space, |All()| - 1);
      assert Abuts(All(), |All()| - 1, |space|);
    }
 
    /** After the early roll an entry that fits a shard fits the current one; there is no roll without need. */
    method MakeRoom(nbytes: int)
      requires Streaming()
      requires Start().Aligned() ==> globalOff % ALIGN == 0
      modifies this, disk
      ensures Streaming() && open && space == old(space) && Continues(old(All()), All())
      ensures nbytes <= limit ==> cur + nbytes <= limit
      ensures if old(open) && !(nbytes <= limit < old(cur) + nbytes) then All() == old(All())
              else All() == old(All()) + [Shard(file, globalOff, 0)]
      ensures entries == old(entries) && payloads == old(payloads)
    {
      if !open || (nbytes <= limit && cur + nbytes > limit) {
        Roll();
      }
    }

    /** Writes the chunks of one entry, in the current shard alone when they fit it. */
    method WriteAll(chunks: seq<seq<Byte>>) returns (written: nat)
      requires Streaming() && open
      modifies this, disk
      ensures Streaming() && open && space == old(space) + Flatten(chunks) && written == |Flatten(chunks)|
      ensures Continues(old(All()), All()) && Fills(old(All()), All(), limit)
      ensures old(cur) + written <= limit ==> start == old(start) && cur == old(cur) + written
      ensures entries == old(entries) && payloads == old(payloads)
    {
      written := 0;
      for k := 0 to |chunks|
        invariant Streaming() && open && space == old(space) + Flatten(chunks[..k]) && written == |Flatten(chunks[..k])|
        invariant Continues(old(All()), All()) && Fills(old(All()), All(), limit)
        invariant old(cur) + written <= limit ==> start == old(start) && cur == old(cur) + written
        invariant entries == old(entries) && payloads == old(payloads)
      {
        FlattenAppend(chunks[..k], chunks[k]);
        assert chunks[..k + 1] == chunks[..k] + [chunks[k]];
        ghost var before := All();
        Write(chunks[k]);
        FillsOn(old(All()), before, All(), limit);
        written := written + |chunks[k]|;
      }
      assert chunks[..|chunks|] == chunks;
    }

    /** Writes the bytes of an entry that starts at the end of the space; the padding is still missing. */
    method Place(e: Entry, chunks: seq<seq<Byte>>) returns (written: nat)
      requires Streaming() && open && e.off == globalOff && Whole(entries, All(), limit)
      requires e.nbytes <= limit ==> cur + e.nbytes <= limit
      modifies this, disk
      ensures Streaming() && open && space == old(space) + Flatten(chunks) && written == |Flatten(chunks)|
      ensures entries == old(entries) + [e] && payloads == old(payloads)
      ensures written == e.nbytes ==> Whole(entries, All(), limit)
      ensures Continues(old(All()), All()) && Fills(old(All()), All(), limit)
    {
      OpenEnds();
      ShardRoom();
      ghost var before := All();
      written := WriteAll(chunks);
      WholeContinues(entries, before, All(), limit);
      if e.nbytes <= limit && written == e.nbytes {
        assert All()[|All()| - 1] == Shard(file, start, cur);
        assert Inside(e, All()[|All()| - 1]);
        assert InOneShard(e, All());
      }
      entries := entries + [e];
    }

    /** Pads a placed entry to ALIGN. */
    method PadOut(ghost payload: seq<Byte>)
      requires Streaming() && open && Whole(entries, All(), limit)
      requires |prefix| % ALIGN == 0 && space == prefix + Packed(payloads) + payload
      requires Listed(entries, payloads + [payload], |prefix|)
      modifies this, disk
      ensures Valid() && open && entries == old(entries) && payloads == old(payloads) + [payload]
      ensures Continues(old(All()), All()) && Fills(old(All()), All(), limit)
    {
      PackedAligned(payloads);
      PadFrom(|prefix| + |Packed(payloads)|, |payload|);
      var pad := AlignUp(globalOff) - globalOff;
      ghost var before := All();
      Write(Zeros(pad));
      WholeContinues(entries, before, All(), limit);
      PackedOn(prefix, payloads, payload);
      payloads := payloads + [payload];
    }

    /**
     Adds an entry. It succeeds exactly when the writer started aligned and the chunks have
     the announced length; then the payload follows the earlier ones, padded to ALIGN.
     */
    method Add(entry: Entry, chunks: seq<seq<Byte>>) returns (ok: bool)
      requires Valid()
      modifies this, disk
      ensures Streaming()
      ensures ok <==> |prefix| % ALIGN == 0 && |Flatten(chunks)| == entry.nbytes
      ensures ok ==> Valid() && entries == old(entries) + [entry.(off := old(globalOff))]
      ensures ok ==> payloads == old(payloads) + [Flatten(chunks)]
      ensures ok && old(Running()) ==> Running()
    {
      PackedAligned(payloads);
      MakeRoom(entry.nbytes);
      WholeContinues(entries, old(All()), All(), limit);
      if globalOff % ALIGN != 0 {
        return false;
      }
      if old(Running()) {
        RoomIsThrifty(old(All()), entry.(off := globalOff), old(open), old(Shard(file, start, cur)));
      }
      ok := Lay(entry.(off := globalOff), chunks);
    }

    /** If a shard was begun to make room, it was for the entry at hand. */
    lemma RoomIsThrifty(before: seq<Shard>, e: Entry, wasOpen: bool, last: Shard)
      requires Thrifty(entries, before, limit) && e.off == globalOff
      requires if wasOpen then before != [] && before[|before| - 1] == last else before == []
      requires if wasOpen && !(e.nbytes <= limit < last.nbytes + e.nbytes) then All() == before
               else All() == before + [Shard(file, globalOff, 0)]
      ensures Thrifty(entries + [e], All(), limit)
    {
      if All() == before {
        ThriftyEntry(entries, before, limit, e);
      } else {
        ThriftyRoll(entries, before, limit, e, Shard(file, globalOff, 0));
      }
    }

    /** Writes an entry that starts at the end of the space, padded, unless its chunks have another length. */
    method Lay(e: Entry, chunks: seq<seq<Byte>>) returns (ok: bool)
      requires Streaming() && open && e.off == globalOff && Whole(entries, All(), limit)
      requires e.nbytes <= limit ==> cur + e.nbytes <= limit
      requires |prefix| % ALIGN == 0 && space == prefix + Packed(payloads) && Listed(entries, payloads, |prefix|)
      modifies this, disk
      ensures Streaming() && (ok <==> |Flatten(chunks)| == e.nbytes)
      ensures ok ==> Valid() && open && entries == old(entries) + [e] && payloads == old(payloads) + [Flatten(chunks)]
      ensures ok && Thrifty(old(entries) + [e], old(All()), limit) ==> Thrifty(entries, All(), limit)
    {
      var written := Place(e, chunks);
      if written != e.nbytes {
        return false;
      }
      ListedAppend(old(entries), payloads, |prefix|, e, Flatten(chunks));
      ghost var placed := All();
      PadOut(Flatten(chunks));
      if Thrifty(entries, old(All()), limit) {
        ThriftyFills(entries, old(All()), placed, limit);
        ThriftyFills(entries, placed, All(), limit);
      }
      return true;
    }

    /** The shard being written ends where the space ends. */
    lemma OpenEnds()
      requires Streaming() && open
      ensures start + cur == |space|
    {
      assert Abuts(All(), |All()| - 1, |space|);
    }

    /** Ends the last shard. */
    method Close() returns (all: seq<Shard>)
      requires Streaming()
      modifies this
      ensures Streaming() && !open && all == shards == All() == old(All())
      ensures old(Valid()) ==> Valid()
      ensures entries == old(entries) && payloads == old(payloads) && space == old(space)
    {
      if open {
        shards := shards + [Shard(file, start, cur)];
        open := false;
      }
      assert All() == old(All());
      all := shards;
    }

    /** What is left of the invariant when a write has failed half way: only new shard files were touched. */
    ghost predicate Abortable()
      reads this, disk
    {
      && first <= shardIdx + 1 && disk.Recorded()
      && Spilled(first, shardIdx + 1, was, disk.Now())
      && OnlySpilled(first, shardIdx + 1, was, past, disk.history)
    }

    /** A write that fails after its first n bytes, as on a full disk; the writer has not counted them. */
    method PutFails(data: seq<Byte>, n: nat)
      requires Streaming() && open && cur + |data| <= limit && n <= |data|
      modifies disk
      ensures Abortable() && file in old(disk.files)
      ensures disk.files == old(disk.files)[file := old(disk.files)[file] + data[..n]]
    {
      FlowPut(Start(), disk.Now(), disk.history, All(), space, data[..n]);
      disk.Append(file, data[..n]);
    }

    /** Removes every file this writer made, also after a failed write. */
    method Abort()
      requires Streaming() || Abortable()
      modifies this, disk
      ensures disk.Recorded() && disk.index == was.index && Untouched(first, was.files, disk.files)
      ensures forall n :: first <= n <= old(shardIdx) ==> Numbered(n) !in disk.files
      ensures OnlySpilled(first, old(shardIdx) + 1, was, past, disk.history)
      ensures Spilled(first, first, was, disk.Now())
    {
      open := false;
      var end: nat := shardIdx + 1;
      for i := first to end
        invariant disk.Recorded() && Spilled(first, end, was, disk.Now())
        invariant OnlySpilled(first, end, was, past, disk.history)
        invariant forall n :: first <= n < i ==> Numbered(n) !in disk.files
      {
        ghost var mid := disk.history;
        disk.Remove(Numbered(i));
        SpillOn(first, end, end, was, past, mid, disk.history);
      }
    }
  }
}
