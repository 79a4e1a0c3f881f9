/**
 What one compaction step means: delete the unowned bytes of one shard from the whole byte
 space, and move every offset to its rank among the surviving bytes.
 */
module Compaction {
  import opened Layout
  import opened Deletion

  ghost function DeadOf(ts: seq<Entry>, sh: Shard): set<int> {
    DeadIn(ts, sh.off, sh.End())
  }

  ghost function MoveEntry(dead: set<int>, e: Entry): Entry {
    e.(off := Rank(dead, e.off))
  }

  ghost function MoveTensors(dead: set<int>, ts: seq<Entry>): seq<Entry> {
    seq(|ts|, i requires 0 <= i < |ts| => MoveEntry(dead, ts[i]))
  }

  ghost function MoveShard(dead: set<int>, sh: Shard): Shard {
    Shard(sh.file, Rank(dead, sh.off), Rank(dead, sh.End()) - Rank(dead, sh.off))
  }

  ghost function MoveShards(dead: set<int>, ss: seq<Shard>): seq<Shard> {
    seq(|ss|, i requires 0 <= i < |ss| => MoveShard(dead, ss[i]))
  }

  /** The rewritten shard takes a new file, or disappears when nothing of it survives. */
  ghost function Refile(m: seq<Shard>, k: nat, f: File): seq<Shard>
    requires k < |m|
  {
    if m[k].nbytes == 0 then m[..k] + m[k + 1..] else m[k := m[k].(file := f)]
  }

  ghost function Compacted(index: Index, k: nat, f: File): Index
    requires k < |Ordered(index)|
  {
    var ss := Ordered(index);
    var dead := DeadOf(index.tensors, ss[k]);
    Index(MoveTensors(dead, index.tensors), Refile(MoveShards(dead, ss), k, f), Rank(dead, index.total), index.limit)
  }

  // ------------------------------------------------------------ entries

  ghost predicate Unowned(ts: seq<Entry>, dead: set<int>) {
    forall p :: p in dead ==> !Live(ts, p)
  }

  lemma BlockMoves(ts: seq<Entry>, dead: set<int>, i: nat)
    requires i < |ts| && 0 <= ts[i].off && 0 <= ts[i].nbytes && Unowned(ts, dead)
    ensures AllKept(dead, ts[i].off, ts[i].End())
    ensures MoveTensors(dead, ts)[i].End() == Rank(dead, ts[i].End())
  {
    forall p | ts[i].off <= p < ts[i].End()
      ensures p !in dead
    {
      assert ts[i].Covers(p);
    }
    RankKept(dead, ts[i].off, ts[i].End());
  }

  /** A surviving byte is owned after the move exactly when it was owned before. */
  lemma LiveMoves(ts: seq<Entry>, dead: set<int>, total: int, p: int)
    requires AllPlaced(ts, total) && Unowned(ts, dead)
    requires 0 <= p && p !in dead
    ensures Live(MoveTensors(dead, ts), Rank(dead, p)) <==> Live(ts, p)
  {
    forall i | 0 <= i < |ts|
      ensures MoveTensors(dead, ts)[i].Covers(Rank(dead, p)) <==> ts[i].Covers(p)
    {
      assert Placed(ts[i], total);
      BlockMoves(ts, dead, i);
      RankReflects(dead, p, ts[i].off);
      RankReflects(dead, p, ts[i].End());
    }
  }

  lemma SeparatedMoves(ts: seq<Entry>, dead: set<int>, total: int)
    requires AllPlaced(ts, total) && Unowned(ts, dead) && Separated(ts)
    ensures Separated(MoveTensors(dead, ts))
  {
    var mt := MoveTensors(dead, ts);
    forall i, j | 0 <= i < j < |mt|
      ensures Apart(mt[i], mt[j])
    {
      assert Placed(ts[i], total) && Placed(ts[j], total) && Apart(ts[i], ts[j]);
      BlockMoves(ts, dead, i);
      BlockMoves(ts, dead, j);
      if ts[i].End() <= ts[j].off {
        RankMonotone(dead, ts[i].End(), ts[j].off);
      } else {
        RankMonotone(dead, ts[j].End(), ts[i].off);
      }
    }
  }

  /** Every entry reads the same bytes before and after, wherever its bytes lie. */
  lemma ListingMoves(ts: seq<Entry>, dead: set<int>, space: seq<Byte>)
    requires AllPlaced(ts, |space|) && Unowned(ts, dead)
    requires AllPlaced(MoveTensors(dead, ts), |Sift(dead, space)|)
    ensures Listing(MoveTensors(dead, ts), Sift(dead, space)) == Listing(ts, space)
  {
    forall i | 0 <= i < |ts|
      ensures Listing(MoveTensors(dead, ts), Sift(dead, space))[i] == Listing(ts, space)[i]
    {
      assert Placed(ts[i], |space|) && Placed(MoveTensors(dead, ts)[i], |Sift(dead, space)|);
      BlockMoves(ts, dead, i);
      ItemMoves(ts[i], dead, space);
    }
  }

  lemma ItemMoves(e: Entry, dead: set<int>, space: seq<Byte>)
    requires Placed(e, |space|) && Placed(MoveEntry(dead, e), |Sift(dead, space)|) && AllKept(dead, e.off, e.End())
    ensures ItemOf(MoveEntry(dead, e), Sift(dead, space)) == ItemOf(e, space)
  {
    SiftSlice(dead, space, e.off, e.off + e.nbytes);
  }

  // ------------------------------------------------------------ alignment

  /** `dead` is made of whole ALIGN pages. */
  ghost predicate Paged(dead: set<int>) {
    forall p :: 0 <= p && p % ALIGN == 0 ==> Page(dead, p)
  }

  ghost predicate Page(dead: set<int>, p: int) {
    AllKept(dead, p, p + ALIGN) || AllDead(dead, p, p + ALIGN)
  }

  lemma SamePage(edge: int, p: int, q: int, r: int)
    requires edge % ALIGN == 0 && p % ALIGN == 0
    requires p <= q < p + ALIGN && p <= r < p + ALIGN
    ensures edge <= q <==> edge <= r
  {
  }

  lemma DeadIsPaged(ts: seq<Entry>, total: int, lo: int, hi: int)
    requires AllPlaced(ts, total) && lo % ALIGN == 0 && hi % ALIGN == 0
    ensures Paged(DeadIn(ts, lo, hi))
  {
    var dead := DeadIn(ts, lo, hi);
    forall p | 0 <= p && p % ALIGN == 0
      ensures Page(dead, p)
    {
      if q :| p <= q < p + ALIGN && q in dead {
        forall r | p <= r < p + ALIGN
          ensures r in dead
        {
          PageDiesTogether(ts, total, lo, hi, p, q, r);
        }
      }
    }
  }

  lemma PageDiesTogether(ts: seq<Entry>, total: int, lo: int, hi: int, p: int, q: int, r: int)
    requires AllPlaced(ts, total) && lo % ALIGN == 0 && hi % ALIGN == 0
    requires 0 <= p && p % ALIGN == 0 && p <= q < p + ALIGN && p <= r < p + ALIGN
    requires q in DeadIn(ts, lo, hi)
    ensures r in DeadIn(ts, lo, hi)
  {
    SamePage(lo, p, q, r);
    SamePage(hi, p, q, r);
    forall i | 0 <= i < |ts|
      ensures !ts[i].Covers(r)
    {
      assert Placed(ts[i], total) && !ts[i].Covers(q);
      SamePage(ts[i].off, p, q, r);
      SamePage(ts[i].End(), p, q, r);
    }
  }

  lemma {:induction false} RankAligned(dead: set<int>, p: int)
    requires Paged(dead) && 0 <= p && p % ALIGN == 0
    ensures Rank(dead, p) % ALIGN == 0
    decreases p
  {
    if p > 0 {
      RankAligned(dead, p - ALIGN);
      assert Page(dead, p - ALIGN);
      if AllKept(dead, p - ALIGN, p) {
        RankKept(dead, p - ALIGN, p);
      } else {
        RankDead(dead, p - ALIGN, p);
      }
    }
  }

  // ------------------------------------------------------------ shards

  lemma TilesMove(ss: seq<Shard>, dead: set<int>, total: int)
    requires Tiles(ss, 0, total)
    ensures Tiles(MoveShards(dead, ss), 0, Rank(dead, total))
  {
    var m := MoveShards(dead, ss);
    forall i | 0 <= i < |m|
      ensures Abuts(m, i, Rank(dead, total))
    {
      assert Abuts(ss, i, total);
      EdgesAscend(ss, 0, total, i, i + 1);
      RankMonotone(dead, ss[i].off, ss[i].End());
    }
  }

  lemma TilesRefile(m: seq<Shard>, k: nat, f: File, hi: int)
    requires Tiles(m, 0, hi) && k < |m|
    ensures Tiles(Refile(m, k, f), 0, hi)
  {
    var r := Refile(m, k, f);
    forall i | 0 <= i < |r|
      ensures Abuts(r, i, hi)
    {
      assert Abuts(m, i, hi);
      assert Abuts(m, k, hi);
      if |r| < |m| {
        assert Abuts(m, i + 1, hi);
      }
    }
    assert Abuts(m, k, hi);
  }

  /** Where a shard of the new list came from. */
  function CameFrom(m: seq<Shard>, k: nat, i: nat): nat
    requires k < |m|
  {
    if m[k].nbytes == 0 && k <= i then i + 1 else i
  }

  lemma RefileAt(m: seq<Shard>, k: nat, f: File, i: nat)
    requires k < |m| && i < |Refile(m, k, f)|
    ensures CameFrom(m, k, i) < |m|
    ensures Refile(m, k, f)[i] == if CameFrom(m, k, i) == k then m[k].(file := f) else m[CameFrom(m, k, i)]
    ensures CameFrom(m, k, i) == k ==> m[k].nbytes != 0
  {
  }

  /** Only shard k loses bytes. */
  lemma OthersKept(ts: seq<Entry>, ss: seq<Shard>, total: int, k: nat, j: nat)
    requires Tiles(ss, 0, total) && k < |ss| && j < |ss| && j != k
    ensures 0 <= ss[j].off <= ss[j].End() <= total
    ensures AllKept(DeadOf(ts, ss[k]), ss[j].off, ss[j].End())
  {
    EdgesAscend(ss, 0, total, j, j + 1);
    assert Abuts(ss, j, total);
    if j < k {
      EdgesAscend(ss, 0, total, j, k);
    } else {
      EdgesAscend(ss, 0, total, k, j);
    }
  }

  /** The new files hold the old ones' other shards, and the rewritten shard under `f`. */
  ghost predicate Rewritten(files: Files, files': Files, ss: seq<Shard>, k: nat, f: File, body: seq<Byte>)
    requires k < |ss|
  {
    && (forall j :: 0 <= j < |ss| && j != k && ss[j].file in files ==>
      ss[j].file in files' && files'[ss[j].file] == files[ss[j].file])
    && (body != [] ==> f in files' && files'[f] == body)
  }

  ghost function Body(ts: seq<Entry>, sh: Shard, space: seq<Byte>): seq<Byte>
    requires 0 <= sh.off <= sh.End() <= |space|
  {
    var dead := DeadOf(ts, sh);
    RankMonotone(dead, sh.off, sh.End());
    SiftPrefix(dead, space, sh.End());
    Sift(dead, space)[Rank(dead, sh.off)..Rank(dead, sh.End())]
  }

  lemma StoredMoves(ts: seq<Entry>, ss: seq<Shard>, k: nat, f: File, files: Files, files': Files, space: seq<Byte>)
    requires Stored(files, ss, space) && k < |ss| && Holds(files, ss[k], space)
    requires Rewritten(files, files', ss, k, f, Body(ts, ss[k], space))
    ensures var dead := DeadOf(ts, ss[k]);
            Stored(files', Refile(MoveShards(dead, ss), k, f), Sift(dead, space))
  {
    var dead := DeadOf(ts, ss[k]);
    var m := MoveShards(dead, ss);
    var r := Refile(m, k, f);
    SiftPrefix(dead, space, |space|);
    TilesMove(ss, dead, |space|);
    TilesRefile(m, k, f, |Sift(dead, space)|);
    forall i | 0 <= i < |r|
      ensures Holds(files', r[i], Sift(dead, space))
    {
      RefileAt(m, k, f, i);
      var j := CameFrom(m, k, i);
      if j != k {
        HoldsMoves(ts, ss, k, j, f, files, files', space);
      } else {
        EdgesAscend(r, 0, |Sift(dead, space)|, i, i + 1);
        assert Abuts(r, i, |Sift(dead, space)|);
      }
    }
  }

  /** A shard that is not rewritten holds its part of the sifted space. */
  lemma HoldsMoves(ts: seq<Entry>, ss: seq<Shard>, k: nat, j: nat, f: File, files: Files, files': Files, space: seq<Byte>)
    requires Stored(files, ss, space) && k < |ss| && j < |ss| && j != k && Holds(files, ss[k], space)
    requires Rewritten(files, files', ss, k, f, Body(ts, ss[k], space))
    ensures Holds(files', MoveShard(DeadOf(ts, ss[k]), ss[j]), Sift(DeadOf(ts, ss[k]), space))
  {
    OthersKept(ts, ss, |space|, k, j);
    assert Holds(files, ss[j], space);
    SiftSlice(DeadOf(ts, ss[k]), space, ss[j].off, ss[j].End());
  }

  lemma CutsMove(ss: seq<Shard>, dead: set<int>, total: int, k: nat, f: File)
    requires Tiles(ss, 0, total) && k < |ss| && Paged(dead)
    requires AlignedEdges(ss, total) && DistinctFiles(ss)
    requires forall j :: 0 <= j < |ss| ==> ss[j].file != f
    ensures AlignedEdges(Refile(MoveShards(dead, ss), k, f), Rank(dead, total))
    ensures DistinctFiles(Refile(MoveShards(dead, ss), k, f))
  {
    var m := MoveShards(dead, ss);
    var r := Refile(m, k, f);
    EdgesAscend(ss, 0, total, 0, 0);
    RankAligned(dead, total);
    forall i | 0 <= i < |r|
      ensures r[i].off % ALIGN == 0
    {
      RefileAt(m, k, f, i);
      var j := CameFrom(m, k, i);
      EdgesAscend(ss, 0, total, j, j);
      RankAligned(dead, ss[j].off);
    }
    forall i, j | 0 <= i < j < |r|
      ensures r[i].file != r[j].file
    {
      RefileAt(m, k, f, i);
      RefileAt(m, k, f, j);
    }
  }

  // ------------------------------------------------------------ progress

  lemma DeadUnowned(ts: seq<Entry>, sh: Shard)
    ensures Unowned(ts, DeadOf(ts, sh))
  {
  }

  ghost function LiveBytes(ts: seq<Entry>, sh: Shard): int {
    sh.nbytes - |DeadOf(ts, sh)|
  }

  ghost function Dirtiness(ts: seq<Entry>, ss: seq<Shard>): seq<bool> {
    seq(|ss|, i requires 0 <= i < |ss| => DeadOf(ts, ss[i]) != {})
  }

  ghost function Trues(flags: seq<bool>): nat {
    if flags == [] then 0 else Trues(flags[1..]) + if flags[0] then 1 else 0
  }

  /** How many shards hold bytes no entry owns. */
  ghost function DirtyCount(index: Index): nat {
    Trues(Dirtiness(index.tensors, Ordered(index)))
  }

  lemma {:induction false} TruesConcat(a: seq<bool>, b: seq<bool>)
    ensures Trues(a + b) == Trues(a) + Trues(b)
  {
    if a == [] {
      assert a + b == b;
    } else {
      TruesConcat(a[1..], b);
      assert (a + b)[1..] == a[1..] + b;
    }
  }

  ghost function Image(dead: set<int>, s: set<int>): set<int> {
    set p | p in s :: Rank(dead, p) as int
  }

  lemma Pick(s: set<int>) returns (p: int)
    requires s != {}
    ensures p in s
  {
    if forall q :: q !in s {
      assert false;
    }
    p :| p in s;
  }

  lemma {:induction false} ImageSize(dead: set<int>, s: set<int>)
    requires s !! dead && forall p :: p in s ==> 0 <= p
    ensures |Image(dead, s)| == |s|
  {
    if s == {} {
      assert Image(dead, s) == {};
    } else {
      var p := Pick(s);
      var rest := s - {p};
      ImageSize(dead, rest);
      assert Image(dead, s) == Image(dead, rest) + {Rank(dead, p)};
      forall q | q in rest
        ensures Rank(dead, q) != Rank(dead, p)
      {
        RankReflects(dead, p, q);
        RankReflects(dead, q, p);
      }
    }
  }

  /** The unowned bytes of a moved shard are the images of those that survive. */
  lemma DeadMoves(ts: seq<Entry>, dead: set<int>, total: int, sh: Shard)
    requires AllPlaced(ts, total) && Unowned(ts, dead) && 0 <= sh.off <= sh.End()
    ensures DeadOf(MoveTensors(dead, ts), MoveShard(dead, sh)) == Image(dead, DeadOf(ts, sh) - dead)
    ensures |DeadOf(MoveTensors(dead, ts), MoveShard(dead, sh))| == |DeadOf(ts, sh) - dead|
  {
    var moved := DeadOf(MoveTensors(dead, ts), MoveShard(dead, sh));
    forall q | q in moved
      ensures q in Image(dead, DeadOf(ts, sh) - dead)
    {
      var p := RankOnto(dead, sh.End(), q);
      RankReflects(dead, p, sh.off);
      LiveMoves(ts, dead, total, p);
    }
    forall q | q in Image(dead, DeadOf(ts, sh) - dead)
      ensures q in moved
    {
      var p :| p in DeadOf(ts, sh) - dead && Rank(dead, p) == q;
      RankReflects(dead, p, sh.off);
      RankReflects(dead, p, sh.End());
      LiveMoves(ts, dead, total, p);
    }
    ImageSize(dead, DeadOf(ts, sh) - dead);
  }

  ghost function Within(dead: set<int>, a: int, b: int): set<int> {
    set q | q in dead && a <= q < b
  }

  lemma WithinNext(dead: set<int>, a: int, b: int)
    requires a < b
    ensures |Within(dead, a, b)| == |Within(dead, a, b - 1)| + if b - 1 in dead then 1 else 0
  {
    assert Within(dead, a, b) == if b - 1 in dead then Within(dead, a, b - 1) + {b - 1} else Within(dead, a, b - 1);
  }

  lemma {:induction false} RankSize(dead: set<int>, a: int, b: int)
    requires 0 <= a <= b
    ensures Rank(dead, b) == Rank(dead, a) + b - a - |Within(dead, a, b)|
    decreases b
  {
    if a < b {
      RankSize(dead, a, b - 1);
      WithinNext(dead, a, b);
    } else {
      assert Within(dead, a, b) == {};
    }
  }

  /** The rewritten shard keeps exactly its live bytes and is fully owned; every other shard keeps its live count. */
  lemma StepShard(index: Index, k: nat, j: nat)
    requires Tiles(Ordered(index), 0, index.total) && AllPlaced(index.tensors, index.total)
    requires k < |Ordered(index)| && j < |Ordered(index)|
    ensures var ts, ss := index.tensors, Ordered(index);
            var dead := DeadOf(ts, ss[k]);
            var moved := MoveShard(dead, ss[j]);
            && moved.nbytes == (if j == k then LiveBytes(ts, ss[k]) else ss[j].nbytes)
            && LiveBytes(MoveTensors(dead, ts), moved) == LiveBytes(ts, ss[j])
            && (DeadOf(MoveTensors(dead, ts), moved) != {} <==> j != k && DeadOf(ts, ss[j]) != {})
  {
    var ts, ss, total := index.tensors, Ordered(index), index.total;
    var dead := DeadOf(ts, ss[k]);
    EdgesAscend(ss, 0, total, j, j + 1);
    assert Abuts(ss, j, total);
    DeadUnowned(ts, ss[k]);
    DeadMoves(ts, dead, total, ss[j]);
    RankSize(dead, ss[j].off, ss[j].End());
    if j == k {
      assert Within(dead, ss[j].off, ss[j].End()) == dead;
    } else {
      OthersKept(ts, ss, total, k, j);
      assert Within(dead, ss[j].off, ss[j].End()) == {};
      assert DeadOf(ts, ss[j]) - dead == DeadOf(ts, ss[j]);
    }
  }

  lemma ClearOne(before: seq<bool>, after: seq<bool>, k: nat)
    requires |before| == |after| && k < |before| && before[k]
    requires forall j :: 0 <= j < |before| ==> after[j] == (j != k && before[j])
    ensures Trues(after) == Trues(after[..k] + after[k + 1..]) == Trues(before) - 1
  {
    var head, tail := before[..k], before[k + 1..];
    assert before == head + ([true] + tail);
    assert after == head + ([false] + tail);
    assert after[..k] + after[k + 1..] == head + tail;
    TruesAround(head, true, tail);
    TruesAround(head, false, tail);
    TruesConcat(head, tail);
  }

  lemma TruesAround(head: seq<bool>, flag: bool, tail: seq<bool>)
    ensures Trues(head + ([flag] + tail)) == Trues(head) + Trues(tail) + if flag then 1 else 0
  {
    TruesConcat(head, [flag] + tail);
    assert ([flag] + tail)[1..] == tail;
  }

  // ------------------------------------------------------------ the end of the road

  ghost function AllDeadOf(index: Index): set<int> {
    DeadIn(index.tensors, 0, index.total)
  }

  /** The tensors a finished compaction must produce: every unowned byte gone, in one deletion. */
  ghost function FinalTensors(index: Index): seq<Entry> {
    MoveTensors(AllDeadOf(index), index.tensors)
  }

  lemma CleanHasNoDead(index: Index)
    requires Tiles(Ordered(index), 0, index.total) && DirtyCount(index) == 0
    ensures AllDeadOf(index) == {}
  {
    forall p | 0 <= p < index.total
      ensures Live(index.tensors, p)
    {
      var i := ShardAt(Ordered(index), 0, index.total, p);
      NoTrues(Dirtiness(index.tensors, Ordered(index)), i);
      assert p !in DeadOf(index.tensors, Ordered(index)[i]);
    }
  }

  lemma {:induction false} NoTrues(flags: seq<bool>, i: nat)
    requires Trues(flags) == 0 && i < |flags|
    ensures !flags[i]
  {
    if 0 < i {
      NoTrues(flags[1..], i - 1);
    }
  }
}
