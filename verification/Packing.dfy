/**
 What a writer lays down: payloads one after another, each padded with zeros to ALIGN, in
 shard files of bounded size.
 */
module Packing {
  import opened Layout

  function Zeros(n: nat): seq<Byte> {
    seq(n, i => 0 as Byte)
  }

  function Pad(n: nat): nat {
    AlignUp(n) - n
  }

  /** From an aligned position the padding depends on the payload alone. */
  lemma PadFrom(at: int, n: nat)
    requires at % ALIGN == 0
    ensures AlignUp(at + n) - (at + n) == Pad(n)
  {
  }

  /** The padded payloads, end to end. */
  ghost function Packed(payloads: seq<seq<Byte>>): seq<Byte> {
    if payloads == [] then [] else
      var n := |payloads| - 1;
      Packed(payloads[..n]) + (payloads[n] + Zeros(Pad(|payloads[n]|)))
  }

  lemma {:induction false} PackedAligned(payloads: seq<seq<Byte>>)
    ensures |Packed(payloads)| % ALIGN == 0
  {
    if payloads != [] {
      PackedAligned(payloads[..|payloads| - 1]);
    }
  }

  lemma PackedAppend(payloads: seq<seq<Byte>>, p: seq<Byte>)
    ensures Packed(payloads + [p]) == Packed(payloads) + (p + Zeros(Pad(|p|)))
  {
    assert (payloads + [p])[..|payloads|] == payloads;
  }

  /** A payload and its padding continue a packed space. */
  lemma PackedOn(prefix: seq<Byte>, payloads: seq<seq<Byte>>, p: seq<Byte>)
    ensures prefix + Packed(payloads) + p + Zeros(Pad(|p|)) == prefix + Packed(payloads + [p])
  {
    PackedAppend(payloads, p);
    assert prefix + Packed(payloads) + p + Zeros(Pad(|p|)) == prefix + (Packed(payloads) + (p + Zeros(Pad(|p|))));
  }

  /** Payload i is found where the padded payloads before it end. */
  lemma {:induction false} PackedAt(payloads: seq<seq<Byte>>, i: nat)
    requires i < |payloads|
    ensures var at := |Packed(payloads[..i])|;
            && at + AlignUp(|payloads[i]|) <= |Packed(payloads)|
            && Packed(payloads)[at..at + |payloads[i]|] == payloads[i]
    decreases |payloads|
  {
    var n := |payloads| - 1;
    var init := payloads[..n];
    if i == n {
    } else {
      PackedAt(init, i);
      assert init[..i] == payloads[..i];
      var at := |Packed(payloads[..i])|;
      assert Packed(payloads)[at..at + |payloads[i]|] == Packed(init)[at..at + |payloads[i]|];
    }
  }

  // ------------------------------------------------------------ entries over payloads

  /** The entries name the payloads, in order, from offset `base` on. */
  ghost predicate Listed(entries: seq<Entry>, payloads: seq<seq<Byte>>, base: int) {
    && |entries| == |payloads|
    && forall i :: 0 <= i < |entries| ==> EntryListed(entries, payloads, base, i)
  }

  ghost predicate EntryListed(entries: seq<Entry>, payloads: seq<seq<Byte>>, base: int, i: nat)
    requires i < |entries| == |payloads|
  {
    entries[i].off == base + |Packed(payloads[..i])| && entries[i].nbytes == |payloads[i]|
  }

  lemma ListedAppend(entries: seq<Entry>, payloads: seq<seq<Byte>>, base: int, e: Entry, p: seq<Byte>)
    requires Listed(entries, payloads, base)
    requires e.off == base + |Packed(payloads)| && e.nbytes == |p|
    ensures Listed(entries + [e], payloads + [p], base)
  {
    var es, ps := entries + [e], payloads + [p];
    forall i | 0 <= i < |es|
      ensures EntryListed(es, ps, base, i)
    {
      if i < |entries| {
        assert EntryListed(entries, payloads, base, i);
        assert ps[..i] == payloads[..i];
      } else {
        assert ps[..i] == payloads;
      }
    }
  }

  /** The blocks of listed entries follow one another without gap. */
  lemma {:induction false} ListedBlocks(entries: seq<Entry>, payloads: seq<seq<Byte>>, base: int, i: nat)
    requires Listed(entries, payloads, base) && i < |entries|
    ensures entries[i].End() == base + |Packed(payloads[..i + 1])|
    ensures base <= entries[i].off
  {
    assert EntryListed(entries, payloads, base, i);
    PackedAppend(payloads[..i], payloads[i]);
    assert payloads[..i + 1] == payloads[..i] + [payloads[i]];
  }

  lemma {:induction false} PackedGrows(payloads: seq<seq<Byte>>, i: nat, j: nat)
    requires i <= j <= |payloads|
    ensures |Packed(payloads[..i])| <= |Packed(payloads[..j])|
    decreases j
  {
    if i < j {
      PackedGrows(payloads, i, j - 1);
      PackedAppend(payloads[..j - 1], payloads[j - 1]);
      assert payloads[..j] == payloads[..j - 1] + [payloads[j - 1]];
    }
  }

  /** A listed entry is well placed and reads back its payload. */
  lemma ListedReads(entries: seq<Entry>, payloads: seq<seq<Byte>>, prefix: seq<Byte>, i: nat)
    requires Listed(entries, payloads, |prefix|) && |prefix| % ALIGN == 0 && i < |entries|
    ensures Placed(entries[i], |prefix + Packed(payloads)|) && entries[i].nbytes == |payloads[i]|
    ensures (prefix + Packed(payloads))[entries[i].off..entries[i].off + entries[i].nbytes] == payloads[i]
  {
    assert EntryListed(entries, payloads, |prefix|, i);
    PackedAt(payloads, i);
    PackedAligned(payloads[..i]);
    EntryReads(entries[i], prefix, Packed(payloads), |Packed(payloads[..i])|, payloads[i]);
  }

  /** An entry at a payload's place reads it, whatever else is packed. */
  lemma EntryReads(e: Entry, prefix: seq<Byte>, packed: seq<Byte>, at: nat, p: seq<Byte>)
    requires |prefix| % ALIGN == 0 && at % ALIGN == 0 && at + AlignUp(|p|) <= |packed|
    requires packed[at..at + |p|] == p && e.off == |prefix| + at && e.nbytes == |p|
    ensures Placed(e, |prefix + packed|)
    ensures (prefix + packed)[e.off..e.off + e.nbytes] == p
  {
    SliceAfter(prefix, packed, at, at + |p|);
  }

  lemma SliceAfter(a: seq<Byte>, b: seq<Byte>, lo: nat, hi: nat)
    requires lo <= hi <= |b|
    ensures (a + b)[|a| + lo..|a| + hi] == b[lo..hi]
  {
  }

  lemma ListedSeparated(entries: seq<Entry>, payloads: seq<seq<Byte>>, base: int)
    requires Listed(entries, payloads, base)
    ensures Separated(entries)
  {
    forall i, j | 0 <= i < j < |entries|
      ensures Apart(entries[i], entries[j])
    {
      assert EntryListed(entries, payloads, base, j);
      ListedBlocks(entries, payloads, base, i);
      PackedGrows(payloads, i + 1, j);
    }
  }

  /** Every byte written belongs to some listed entry's block. */
  lemma {:induction false} ListedOwns(entries: seq<Entry>, payloads: seq<seq<Byte>>, base: int, n: nat, p: int)
    requires Listed(entries, payloads, base) && n <= |entries|
    requires base <= p < base + |Packed(payloads[..n])|
    ensures Live(entries, p)
  {
    ListedBlocks(entries, payloads, base, n - 1);
    assert EntryListed(entries, payloads, base, n - 1);
    if p < entries[n - 1].off {
      ListedOwns(entries, payloads, base, n - 1, p);
    } else {
      assert entries[n - 1].Covers(p);
    }
  }

  // ------------------------------------------------------------ shards under construction

  /** The shards written so far: numbered from `first`, bounded by `limit`, and holding `space` from `base` on. */
  ghost predicate Laid(files: Files, all: seq<Shard>, first: nat, limit: nat, base: int, space: seq<Byte>) {
    && Tiles(all, base, |space|)
    && forall i :: 0 <= i < |all| ==> ShardLaid(files, all, first, limit, space, i)
  }

  ghost predicate ShardLaid(files: Files, all: seq<Shard>, first: nat, limit: nat, space: seq<Byte>, i: nat)
    requires i < |all|
  {
    all[i].file == Numbered(first + i) && all[i].nbytes <= limit && Holds(files, all[i], space)
  }

  /** A new, empty shard may be opened at the end. */
  lemma LaidRoll(files: Files, all: seq<Shard>, first: nat, limit: nat, base: int, space: seq<Byte>)
    requires Laid(files, all, first, limit, base, space) && 0 <= base <= |space|
    ensures var f := Numbered(first + |all|);
            Laid(files[f := []], all + [Shard(f, |space|, 0)], first, limit, base, space)
  {
    var f := Numbered(first + |all|);
    var more, files' := all + [Shard(f, |space|, 0)], files[f := []];
    forall i | 0 <= i < |more|
      ensures ShardLaid(files', more, first, limit, space, i) && Abuts(more, i, |space|)
    {
      if i < |all| {
        assert ShardLaid(files, all, first, limit, space, i) && Abuts(all, i, |space|);
      }
    }
  }

  /** Bytes that fit may be appended to the last shard. */
  lemma LaidAppend(files: Files, all: seq<Shard>, first: nat, limit: nat, base: int, space: seq<Byte>, data: seq<Byte>)
    requires Laid(files, all, first, limit, base, space) && all != []
    requires var last := all[|all| - 1]; last.nbytes + |data| <= limit && last.file in files
    ensures var n := |all| - 1;
            var last := all[n];
            Laid(files[last.file := files[last.file] + data], all[n := last.(nbytes := last.nbytes + |data|)],
                 first, limit, base, space + data)
  {
    var n := |all| - 1;
    var last := all[n];
    var more := all[n := last.(nbytes := last.nbytes + |data|)];
    var files', space' := files[last.file := files[last.file] + data], space + data;
    forall i | 0 <= i < |more|
      ensures ShardLaid(files', more, first, limit, space', i) && Abuts(more, i, |space'|)
    {
      assert ShardLaid(files, all, first, limit, space, i) && ShardLaid(files, all, first, limit, space, n);
      assert Abuts(all, i, |space|) && Abuts(all, n, |space|);
      if i < n {
        assert space'[all[i].off..all[i].End()] == space[all[i].off..all[i].End()];
      } else {
        assert space'[last.off..] == space[last.off..last.End()] + data;
      }
    }
  }

  /** Every entry that fits one shard lies inside one. */
  ghost predicate Whole(entries: seq<Entry>, all: seq<Shard>, limit: nat) {
    forall i :: 0 <= i < |entries| && entries[i].nbytes <= limit ==> InOneShard(entries[i], all)
  }

  ghost predicate InOneShard(e: Entry, all: seq<Shard>) {
    exists j :: 0 <= j < |all| && Inside(e, all[j])
  }

  ghost predicate Inside(e: Entry, sh: Shard) {
    sh.off <= e.off && e.off + e.nbytes <= sh.End()
  }

  /** The later list continues the earlier one, which may only have grown at its end. */
  ghost predicate Continues(all: seq<Shard>, all': seq<Shard>) {
    && |all| <= |all'|
    && forall i :: 0 <= i < |all| ==> all'[i].off == all[i].off && all[i].End() <= all'[i].End()
  }

  lemma WholeContinues(entries: seq<Entry>, all: seq<Shard>, all': seq<Shard>, limit: nat)
    requires Whole(entries, all, limit) && Continues(all, all')
    ensures Whole(entries, all', limit)
  {
    forall i | 0 <= i < |entries| && entries[i].nbytes <= limit
      ensures InOneShard(entries[i], all')
    {
      assert InOneShard(entries[i], all);
      var j :| 0 <= j < |all| && Inside(entries[i], all[j]);
      assert Inside(entries[i], all'[j]);
    }
  }

  /** The later list differs from the earlier from its last shard on; each shard that follows found the one before full. */
  ghost predicate Fills(all: seq<Shard>, all': seq<Shard>, limit: nat) {
    && |all| <= |all'|
    && (forall k :: 0 <= k < |all| - 1 ==> all'[k] == all[k])
    && (forall k :: 0 <= k < |all'| - 1 && |all| - 1 <= k ==> all'[k].nbytes == limit)
  }

  lemma FillsOn(a: seq<Shard>, b: seq<Shard>, c: seq<Shard>, limit: nat)
    requires Fills(a, b, limit) && Fills(b, c, limit)
    ensures Fills(a, c, limit)
  {
  }

  /** Shard k was begun because the one before was full, or had no room for the entry that begins shard k. */
  ghost predicate Begun(entries: seq<Entry>, all: seq<Shard>, limit: nat, k: nat)
    requires 0 < k < |all|
  {
    all[k - 1].nbytes == limit || exists i :: 0 <= i < |entries| && Crowded(entries[i], all[k - 1], all[k], limit)
  }

  /** The entry fits a shard but not what was left of `last`, so it begins the shard `next`. */
  ghost predicate Crowded(e: Entry, last: Shard, next: Shard, limit: nat) {
    e.off == next.off && e.nbytes <= limit < last.nbytes + e.nbytes
  }

  ghost predicate Thrifty(entries: seq<Entry>, all: seq<Shard>, limit: nat) {
    forall k :: 0 < k < |all| ==> Begun(entries, all, limit, k)
  }

  lemma ThriftyFills(entries: seq<Entry>, all: seq<Shard>, all': seq<Shard>, limit: nat)
    requires Thrifty(entries, all, limit) && Continues(all, all') && Fills(all, all', limit)
    ensures Thrifty(entries, all', limit)
  {
    forall k | 0 < k < |all'|
      ensures Begun(entries, all', limit, k)
    {
      if k < |all| {
        assert Begun(entries, all, limit, k);
      }
    }
  }

  lemma ThriftyEntry(entries: seq<Entry>, all: seq<Shard>, limit: nat, e: Entry)
    requires Thrifty(entries, all, limit)
    ensures Thrifty(entries + [e], all, limit)
  {
    forall k | 0 < k < |all|
      ensures Begun(entries + [e], all, limit, k)
    {
      assert Begun(entries, all, limit, k);
      if i :| 0 <= i < |entries| && Crowded(entries[i], all[k - 1], all[k], limit) {
        assert Crowded((entries + [e])[i], all[k - 1], all[k], limit);
      }
    }
  }

  /** A shard begun early is begun for the entry at hand. */
  lemma ThriftyRoll(entries: seq<Entry>, all: seq<Shard>, limit: nat, e: Entry, next: Shard)
    requires Thrifty(entries, all, limit)
    requires all == [] || Crowded(e, all[|all| - 1], next, limit)
    ensures Thrifty(entries + [e], all + [next], limit)
  {
    ThriftyEntry(entries, all, limit, e);
    var more, es := all + [next], entries + [e];
    forall k | 0 < k < |more|
      ensures Begun(es, more, limit, k)
    {
      if k < |all| {
        assert Begun(es, all, limit, k);
      } else {
        assert Crowded(es[|entries|], more[k - 1], more[k], limit);
      }
    }
  }

  /** Between one payload and the next there is nothing but zeros. */
  lemma {:induction false} PaddingIsZero(payloads: seq<seq<Byte>>, i: nat, p: nat)
    requires i < |payloads|
    requires |Packed(payloads[..i])| + |payloads[i]| <= p < |Packed(payloads[..i + 1])|
    ensures |Packed(payloads[..i + 1])| <= |Packed(payloads)| && Packed(payloads)[p] == 0
    decreases |payloads|
  {
    var n := |payloads| - 1;
    var init := payloads[..n];
    if i < n {
      assert init[..i] == payloads[..i] && init[..i + 1] == payloads[..i + 1];
      PaddingIsZero(init, i, p);
    } else {
      assert payloads[..i + 1] == payloads;
      PaddedEnd(Packed(init), payloads[n], p);
    }
  }

  lemma PaddedEnd(front: seq<Byte>, payload: seq<Byte>, p: nat)
    requires |front| + |payload| <= p < |front + (payload + Zeros(Pad(|payload|)))|
    ensures (front + (payload + Zeros(Pad(|payload|))))[p] == 0
  {
  }
}
