/**
 Whether a compaction step keeps entries on the ALIGN grid. The validator lets shards be cut
 anywhere; cuts off the grid can push entries off it.
 */
module Grid {
  import opened Layout
  import opened Deletion
  import opened Compaction

  /** Outside the rewritten shard an offset stays, or shifts by the bytes dropped. */
  lemma RankOutside(ts: seq<Entry>, sh: Shard, p: int)
    requires 0 <= sh.off <= sh.End() && 0 <= p
    ensures p <= sh.off ==> Rank(DeadOf(ts, sh), p) == p
    ensures sh.End() <= p ==> Rank(DeadOf(ts, sh), p) == p - (sh.nbytes - LiveBytes(ts, sh))
  {
    var dead := DeadOf(ts, sh);
    if p <= sh.off {
      RankKept(dead, 0, p);
    }
    if sh.End() <= p {
      RankKept(dead, 0, sh.off);
      RankSize(dead, sh.off, sh.End());
      assert Within(dead, sh.off, sh.End()) == dead;
      RankKept(dead, sh.End(), p);
    }
  }

  /** Compacting the shard moves every entry by a multiple of ALIGN. */
  ghost predicate MovesByPages(ts: seq<Entry>, sh: Shard) {
    forall i :: 0 <= i < |ts| ==> Rank(DeadOf(ts, sh), ts[i].off) % ALIGN == 0
  }

  /** Some entry starts behind the shard. */
  ghost predicate SomeBehind(ts: seq<Entry>, sh: Shard) {
    exists i :: 0 <= i < |ts| && sh.End() <= ts[i].off
  }

  /** Some entry starts inside the shard. */
  ghost predicate SomeInside(ts: seq<Entry>, sh: Shard) {
    exists i :: 0 <= i < |ts| && sh.off <= ts[i].off < sh.End()
  }

  /**
   What can be told from the index before the step: an entry behind the shard needs the
   number of dropped bytes to be a multiple of ALIGN; an entry starting inside needs the
   shard to start on the grid or with an owned byte.
   */
  ghost predicate CutsSafely(ts: seq<Entry>, sh: Shard) {
    && (SomeBehind(ts, sh) ==> (sh.nbytes - LiveBytes(ts, sh)) % ALIGN == 0)
    && (SomeInside(ts, sh) ==> sh.off % ALIGN == 0 || Live(ts, sh.off))
  }

  /** The bytes between two neighbouring grid points are owned all or none. */
  lemma PageLivesTogether(ts: seq<Entry>, total: int, q: int, r: int)
    requires AllPlaced(ts, total) && q / ALIGN == r / ALIGN
    ensures Live(ts, q) <==> Live(ts, r)
  {
    forall i | 0 <= i < |ts|
      ensures ts[i].Covers(q) <==> ts[i].Covers(r)
    {
      assert Placed(ts[i], total);
      var p := q / ALIGN * ALIGN;
      SamePage(ts[i].off, p, q, r);
      SamePage(ts[i].End(), p, q, r);
    }
  }

  /** Over one page inside the shard the rank grows by all of it or nothing. */
  lemma RankOverPage(ts: seq<Entry>, total: int, sh: Shard, c: int)
    requires AllPlaced(ts, total) && 0 <= sh.off <= c && c + ALIGN <= sh.End() && c % ALIGN == 0
    ensures var grown := Rank(DeadOf(ts, sh), c + ALIGN) - Rank(DeadOf(ts, sh), c); grown == 0 || grown == ALIGN
  {
    var dead := DeadOf(ts, sh);
    forall p | c <= p < c + ALIGN
      ensures p in dead <==> c in dead
    {
      PageLivesTogether(ts, total, c, p);
    }
    if c in dead {
      RankDead(dead, c, c + ALIGN);
    } else {
      RankKept(dead, c, c + ALIGN);
    }
  }

  lemma PageBefore(a: int, b: int)
    requires a < b && a % ALIGN == 0 && b % ALIGN == 0
    ensures a <= b - ALIGN && (b - ALIGN) % ALIGN == 0
  {
  }

  lemma OnePageMore(x: int, y: int, z: int)
    requires (y - x) % ALIGN == 0 && (z == y || z == y + ALIGN)
    ensures (z - x) % ALIGN == 0
  {
  }

  /** Between grid points inside the shard, ranks differ by a multiple of ALIGN. */
  lemma {:induction false} RankByPages(ts: seq<Entry>, total: int, sh: Shard, a: int, b: int)
    requires AllPlaced(ts, total) && 0 <= sh.off <= a <= b <= sh.End() && a % ALIGN == 0 && b % ALIGN == 0
    ensures (Rank(DeadOf(ts, sh), b) - Rank(DeadOf(ts, sh), a)) % ALIGN == 0
    decreases b
  {
    if a < b {
      var c := b - ALIGN;
      PageBefore(a, b);
      RankByPages(ts, total, sh, a, c);
      RankOverPage(ts, total, sh, c);
      OnePageMore(Rank(DeadOf(ts, sh), a), Rank(DeadOf(ts, sh), c), Rank(DeadOf(ts, sh), b));
    }
  }

  /** The rank of the first grid point inside the shard. */
  lemma RankOfFirst(ts: seq<Entry>, total: int, sh: Shard)
    requires AllPlaced(ts, total) && 0 <= sh.off && AlignUp(sh.off) <= sh.End()
    ensures Rank(DeadOf(ts, sh), AlignUp(sh.off)) % ALIGN == 0 <==> sh.off % ALIGN == 0 || Live(ts, sh.off)
  {
    var dead, q := DeadOf(ts, sh), AlignUp(sh.off);
    RankKept(dead, 0, sh.off);
    if sh.off % ALIGN != 0 {
      forall p | sh.off <= p < q
        ensures p in dead <==> sh.off in dead
      {
        PageLivesTogether(ts, total, sh.off, p);
      }
      if sh.off in dead {
        RankDead(dead, sh.off, q);
      } else {
        RankKept(dead, sh.off, q);
      }
    }
  }

  /** Where one aligned entry goes, for each side of the shard. */
  lemma EntryByPages(ts: seq<Entry>, total: int, sh: Shard, e: Entry)
    requires AllPlaced(ts, total) && Placed(e, total) && 0 <= sh.off <= sh.End()
    ensures Rank(DeadOf(ts, sh), e.off) % ALIGN == 0 <==>
            if e.off < sh.off then true
            else if e.off < sh.End() then sh.off % ALIGN == 0 || Live(ts, sh.off)
            else (sh.nbytes - LiveBytes(ts, sh)) % ALIGN == 0
  {
    RankOutside(ts, sh, e.off);
    if sh.off <= e.off < sh.End() {
      RankInside(ts, total, sh, e.off);
    } else if sh.End() <= e.off {
      SameGrid(e.off, Rank(DeadOf(ts, sh), e.off), sh.nbytes - LiveBytes(ts, sh));
    }
  }

  lemma RankInside(ts: seq<Entry>, total: int, sh: Shard, go: int)
    requires AllPlaced(ts, total) && 0 <= sh.off <= go <= sh.End() && go % ALIGN == 0
    ensures Rank(DeadOf(ts, sh), go) % ALIGN == 0 <==> sh.off % ALIGN == 0 || Live(ts, sh.off)
  {
    var q := AlignUp(sh.off);
    FirstGridPoint(sh.off, go);
    RankOfFirst(ts, total, sh);
    RankByPages(ts, total, sh, q, go);
    GridStep(Rank(DeadOf(ts, sh), q), Rank(DeadOf(ts, sh), go));
  }

  lemma FirstGridPoint(lo: int, go: int)
    requires lo <= go && go % ALIGN == 0
    ensures AlignUp(lo) <= go
  {
  }

  lemma SameGrid(x: int, y: int, d: int)
    requires x % ALIGN == 0 && y == x - d
    ensures y % ALIGN == 0 <==> d % ALIGN == 0
  {
  }

  lemma GridStep(a: int, b: int)
    requires (b - a) % ALIGN == 0
    ensures a % ALIGN == 0 <==> b % ALIGN == 0
  {
  }

  lemma PagesIffSafeCuts(ts: seq<Entry>, total: int, sh: Shard)
    requires AllPlaced(ts, total) && 0 <= sh.off <= sh.End()
    ensures MovesByPages(ts, sh) <==> CutsSafely(ts, sh)
  {
    forall i | 0 <= i < |ts|
      ensures Rank(DeadOf(ts, sh), ts[i].off) % ALIGN == 0 <==>
            if ts[i].off < sh.off then true
            else if ts[i].off < sh.End() then sh.off % ALIGN == 0 || Live(ts, sh.off)
            else (sh.nbytes - LiveBytes(ts, sh)) % ALIGN == 0
    {
      assert Placed(ts[i], total);
      EntryByPages(ts, total, sh, ts[i]);
    }
  }

  /** Where an entry lands is in range; only its place on the grid is open. */
  lemma MovedEntry(ts: seq<Entry>, dead: set<int>, total: int, i: nat)
    requires AllPlaced(ts, total) && Unowned(ts, dead) && i < |ts|
    ensures Placed(MoveEntry(dead, ts[i]), Rank(dead, total)) <==> Rank(dead, ts[i].off) % ALIGN == 0
  {
    var e := ts[i];
    assert Placed(e, total);
    BlockMoves(ts, dead, i);
    RankKept(dead, e.off, e.off + e.nbytes);
    RankMonotone(dead, e.off + e.nbytes, total);
  }

  /** Everything but the grid survives a step, wherever the shards are cut. */
  lemma MovedUpToGrid(ts: seq<Entry>, dead: set<int>, total: int)
    requires AllPlaced(ts, total) && Unowned(ts, dead)
    ensures AllPlaced(MoveTensors(dead, ts), Rank(dead, total)) <==>
            forall i :: 0 <= i < |ts| ==> Rank(dead, ts[i].off) % ALIGN == 0
  {
    var mt := MoveTensors(dead, ts);
    forall i | 0 <= i < |ts|
      ensures Placed(mt[i], Rank(dead, total)) <==> Rank(dead, ts[i].off) % ALIGN == 0
    {
      MovedEntry(ts, dead, total, i);
    }
    assert forall i :: 0 <= i < |ts| && Placed(mt[i], Rank(dead, total)) ==> Rank(dead, ts[i].off) % ALIGN == 0;
  }

  /** A shard cut on the grid moves everything by whole pages. */
  lemma AlignedCutsAreSafe(ts: seq<Entry>, total: int, sh: Shard)
    requires AllPlaced(ts, total) && 0 <= sh.off <= sh.End() && sh.off % ALIGN == 0 && sh.End() % ALIGN == 0
    ensures CutsSafely(ts, sh)
  {
    DeadIsPaged(ts, total, sh.off, sh.End());
    forall i | 0 <= i < |ts|
      ensures Rank(DeadOf(ts, sh), ts[i].off) % ALIGN == 0
    {
      assert Placed(ts[i], total);
      RankAligned(DeadOf(ts, sh), ts[i].off);
    }
    PagesIffSafeCuts(ts, total, sh);
  }
}
