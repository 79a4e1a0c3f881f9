/**
 Prompt-lookup drafting and its replay over a known transcript. The drafter keeps an
 incremental index; the reference meaning looks the transcript up from scratch.
 */
module Ngram {
  import opened Basics
  import opened Sorting

  type Tokens = seq<int>

  // ------------------------------------------------------------ most recent occurrence

  /** The tokens from a to b, as far as there are any. */
  function Slice(tokens: Tokens, a: nat, b: nat): Tokens
    requires a <= b
  {
    if b <= |tokens| then tokens[a..b] else if a <= |tokens| then tokens[a..] else []
  }

  /** `key` ends at `end` in the transcript. */
  ghost predicate EndsAt(tokens: Tokens, key: Tokens, end: int) {
    |key| <= end && Slice(tokens, end - |key|, end) == key
  }

  /** The last place strictly before `upto` where `key` ends. */
  ghost function Latest(tokens: Tokens, key: Tokens, upto: int): Option<int>
    decreases upto
  {
    if upto <= 0 then None
    else if EndsAt(tokens, key, upto - 1) then Some(upto - 1)
    else Latest(tokens, key, upto - 1)
  }

  /** `Latest` finds an occurrence exactly when there is one, and no later one exists. */
  lemma {:induction false} LatestIsMostRecent(tokens: Tokens, key: Tokens, upto: int, end: int)
    ensures Latest(tokens, key, upto).Some? ==>
              0 <= Latest(tokens, key, upto).value < upto && EndsAt(tokens, key, Latest(tokens, key, upto).value)
    ensures end < upto && EndsAt(tokens, key, end) ==>
              Latest(tokens, key, upto).Some? && end <= Latest(tokens, key, upto).value
    decreases upto
  {
    if upto > 0 && !EndsAt(tokens, key, upto - 1) {
      LatestIsMostRecent(tokens, key, upto - 1, end);
    }
  }

  /** The index for one n answers like `Latest` and knows nothing else, save what is cut short behind the end. */
  ghost predicate Indexed(idx: map<Tokens, int>, tokens: Tokens, n: nat, upto: int) {
    && (forall key :: key in idx ==> |key| == n || (|key| < n < upto && |tokens| + 1 < upto))
    && (forall key {:trigger Agrees(idx, tokens, key, upto)} :: |key| == n ==> Agrees(idx, tokens, key, upto))
  }

  ghost predicate Agrees(idx: map<Tokens, int>, tokens: Tokens, key: Tokens, upto: int) {
    Lookup(idx, key) == Latest(tokens, key, upto)
  }

  function Lookup(idx: map<Tokens, int>, key: Tokens): Option<int> {
    if key in idx then Some(idx[key]) else None
  }

  lemma {:induction false} TooShort(tokens: Tokens, key: Tokens, upto: int)
    requires upto <= |key|
    ensures Latest(tokens, key, upto) == None
    decreases upto
  {
    if upto > 0 {
      TooShort(tokens, key, upto - 1);
    }
  }

  predicate Descending(a: nat, b: nat) {
    a >= b
  }

  lemma LongestFirst(ns: seq<nat>)
    ensures Sorted(Descending, Sort(Descending, ns))
  {
    SortCorrect(Descending, ns);
  }

  /** Nothing ends before position 0. */
  lemma NothingIndexed(tokens: Tokens, n: nat)
    ensures Indexed(map[], tokens, n, 0)
  {
  }

  /** The continuation an occurrence suggests, at most k tokens. */
  function Following(tokens: Tokens, hit: int, k: nat): Tokens
    requires 0 <= hit <= |tokens|
  {
    if hit + k <= |tokens| then tokens[hit..hit + k] else tokens[hit..]
  }

  /**
   The reference drafter: for the first n in the list that has an occurrence of the last n
   tokens ending strictly before both `seen` and `pos`, what followed its latest occurrence
   before `seen`.
   */
  ghost function Drafted(tokens: Tokens, nList: seq<nat>, seen: int, pos: nat, k: nat): Tokens
    requires pos <= |tokens|
    decreases |nList|
  {
    if nList == [] then [] else
      var n := nList[0];
      var found := if pos < n then None else Latest(tokens, tokens[pos - n..pos], seen);
      if found.Some? && 0 <= found.value < pos then Following(tokens, found.value, k)
      else Drafted(tokens, nList[1..], seen, pos, k)
  }

  lemma DraftedNext(tokens: Tokens, nList: seq<nat>, seen: int, pos: nat, k: nat, j: nat)
    requires pos <= |tokens| && j < |nList|
    ensures var n := nList[j];
            var found := if pos < n then None else Latest(tokens, tokens[pos - n..pos], seen);
            Drafted(tokens, nList[j..], seen, pos, k) ==
              if found.Some? && 0 <= found.value < pos then Following(tokens, found.value, k)
              else Drafted(tokens, nList[j + 1..], seen, pos, k)
  {
    assert nList[j..][1..] == nList[j + 1..];
  }

  class NgramDrafter {
    const nList: seq<nat>
    var index: map<nat, map<Tokens, int>>
    var cursor: map<nat, nat>

    /** Everything of `tokens` that ends strictly before `seen` is indexed. */
    ghost predicate Knows(tokens: Tokens, seen: int)
      reads this
    {
      && 0 <= seen && Sorted(Descending, nList)
      && forall n :: n in nList ==> KnowsAt(tokens, seen, n)
    }

    ghost predicate KnowsAt(tokens: Tokens, seen: int, n: nat)
      reads this
    {
      && n in index && n in cursor
      && cursor[n] == Windows(n, seen)
      && Indexed(index[n], tokens, n, seen)
    }

    constructor (ns: seq<nat>, ghost tokens: Tokens)
      ensures nList == Sort(Descending, ns)
      ensures Knows(tokens, 0)
    {
      var sorted := Sort(Descending, ns);
      nList := sorted;
      index := map n | n in sorted :: map[];
      cursor := map n | n in sorted :: 0;
      new;
      LongestFirst(ns);
      forall n | n in nList
        ensures KnowsAt(tokens, 0, n)
      {
        NothingIndexed(tokens, n);
      }
    }

    /** Indexes every n-gram that ends before `upto`; going back in the transcript changes nothing. */
    method Observe(tokens: Tokens, upto: int, ghost seen: int)
      requires Knows(tokens, seen)
      modifies this
      ensures Knows(tokens, Max(seen, upto))
    {
      ghost var now := Max(seen, upto);
      for j := 0 to |nList|
        invariant forall n :: n in nList ==> KnowsAt(tokens, seen, n) || KnowsAt(tokens, now, n)
        invariant forall i :: 0 <= i < j ==> KnowsAt(tokens, now, nList[i])
      {
        var n: nat := nList[j];
        assert KnowsAt(tokens, seen, n) || KnowsAt(tokens, now, n);
        ghost var from := if KnowsAt(tokens, now, n) then now else seen;
        var idx, i := IndexUpto(index[n], cursor[n], tokens, n, upto, from);
        label before:
        index := index[n := idx];
        cursor := cursor[n := i];
        forall m | m in nList
          ensures m != n ==> forall t :: old@before(KnowsAt(tokens, t, m)) ==> KnowsAt(tokens, t, m)
        {
        }
        assert KnowsAt(tokens, now, n);
      }
    }

    /** The scan for one n, from its cursor on. */
    static method IndexUpto(idx0: map<Tokens, int>, i0: nat, tokens: Tokens, n: nat, upto: int, ghost from: int)
      returns (idx: map<Tokens, int>, i: nat)
      requires 0 <= from
      requires Indexed(idx0, tokens, n, from) && i0 == Windows(n, from)
      ensures Indexed(idx, tokens, n, Max(from, upto)) && i == Windows(n, Max(from, upto))
    {
      IndexAligned(idx0, tokens, n, from);
      idx, i := Scan(idx0, i0, tokens, n, upto);
      IndexRealigned(idx, tokens, n, from, Max(from, upto), i);
    }

    static method Scan(idx0: map<Tokens, int>, i0: nat, tokens: Tokens, n: nat, upto: int)
      returns (idx: map<Tokens, int>, i: nat)
      requires Indexed(idx0, tokens, n, i0 + n)
      ensures Indexed(idx, tokens, n, i + n) && i == Max(i0, upto - n)
      ensures i == i0 ==> idx == idx0
    {
      idx, i := idx0, i0;
      while i + n <= upto - 1
        invariant Indexed(idx, tokens, n, i + n) && i0 <= i
        invariant i == i0 || i + n <= upto
        invariant i == i0 ==> idx == idx0
      {
        IndexNext(idx, tokens, n, i);
        idx := idx[Slice(tokens, i, i + n) := i + n];
        i := i + 1;
      }
    }

    /** Up to k tokens to follow tokens[..pos]; empty when nothing matches. */
    method Draft(tokens: Tokens, pos: nat, k: nat, ghost seen: int) returns (r: Tokens)
      requires Knows(tokens, seen) && pos <= |tokens|
      ensures r == Drafted(tokens, nList, seen, pos, k)
      ensures seen == pos ==> BestDraft(tokens, nList, pos, k, r)
    {
      r := FirstHit(tokens, pos, k, seen);
      DraftIsLongestMostRecent(tokens, nList, pos, k);
    }

    /** The loop over the lengths. */
    method FirstHit(tokens: Tokens, pos: nat, k: nat, ghost seen: int) returns (r: Tokens)
      requires Knows(tokens, seen) && pos <= |tokens|
      ensures r == Drafted(tokens, nList, seen, pos, k)
    {
      for j := 0 to |nList|
        invariant Drafted(tokens, nList, seen, pos, k) == Drafted(tokens, nList[j..], seen, pos, k)
      {
        var n: nat := nList[j];
        assert KnowsAt(tokens, seen, n);
        DraftedNext(tokens, nList, seen, pos, k, j);
        if pos < n {
          continue;
        }
        var key := tokens[pos - n..pos];
        var hit := Lookup(index[n], key);
        assert Agrees(index[n], tokens, key, seen);
        LatestIsMostRecent(tokens, key, seen, 0);
        if hit.None? || hit.value >= pos {
          continue;
        }
        return Following(tokens, hit.value, k);
      }
      return [];
    }
  }

  /** Entering the window that starts at i extends the index by one position. */
  lemma IndexNext(idx: map<Tokens, int>, tokens: Tokens, n: nat, i: nat)
    requires Indexed(idx, tokens, n, i + n)
    ensures Indexed(idx[Slice(tokens, i, i + n) := i + n], tokens, n, i + n + 1)
  {
    var window := Slice(tokens, i, i + n);
    forall key: Tokens {:trigger Agrees(idx[window := i + n], tokens, key, i + n + 1)} | |key| == n
      ensures Agrees(idx[window := i + n], tokens, key, i + n + 1)
    {
      assert Agrees(idx, tokens, key, i + n);
      assert EndsAt(tokens, key, i + n) <==> key == window;
    }
  }

  /** How many n-grams end strictly before `upto`. */
  function Windows(n: nat, upto: int): nat {
    if n <= upto then upto - n else 0
  }

  /** The cursor is where the index ends. */
  lemma IndexAligned(idx: map<Tokens, int>, tokens: Tokens, n: nat, upto: int)
    requires Indexed(idx, tokens, n, upto)
    ensures Indexed(idx, tokens, n, Windows(n, upto) + n)
  {
    if upto < n {
      IndexShort(idx, tokens, n, upto, n);
    }
  }

  lemma IndexRealigned(idx: map<Tokens, int>, tokens: Tokens, n: nat, from: int, now: int, i: nat)
    requires 0 <= from <= now && Indexed(idx, tokens, n, i + n) && i == Max(Windows(n, from), now - n)
    ensures Indexed(idx, tokens, n, now) && i == Windows(n, now)
  {
    if now < n {
      IndexShort(idx, tokens, n, n, now);
    }
  }

  /** Before position n there is no n-gram to index. */
  lemma IndexShort(idx: map<Tokens, int>, tokens: Tokens, n: nat, a: int, b: int)
    requires Indexed(idx, tokens, n, a) && a <= n && b <= n
    ensures Indexed(idx, tokens, n, b)
  {
    forall key: Tokens {:trigger Agrees(idx, tokens, key, b)} | |key| == n
      ensures Agrees(idx, tokens, key, b)
    {
      assert Agrees(idx, tokens, key, a);
      TooShort(tokens, key, a);
      TooShort(tokens, key, b);
    }
  }

  // ------------------------------------------------------------ what a draft means

  /** The last n tokens before `pos` also end at `e`. */
  ghost predicate RecursAt(tokens: Tokens, pos: nat, n: nat, e: int)
    requires n <= pos <= |tokens|
  {
    n <= e <= |tokens| && tokens[e - n..e] == tokens[pos - n..pos]
  }

  lemma RecursIsEnds(tokens: Tokens, pos: nat, n: nat, e: int)
    requires n <= pos <= |tokens| && e <= |tokens|
    ensures RecursAt(tokens, pos, n, e) <==> EndsAt(tokens, tokens[pos - n..pos], e)
  {
  }

  /** The last n tokens before `pos` occur earlier. */
  ghost predicate Recurs(tokens: Tokens, pos: nat, n: nat)
    requires pos <= |tokens|
  {
    n <= pos && exists e :: e < pos && RecursAt(tokens, pos, n, e)
  }

  /** n is the longest listed length that recurs, and `hit` its most recent earlier end. */
  ghost predicate IsBest(tokens: Tokens, nList: seq<nat>, pos: nat, n: nat, hit: int)
    requires pos <= |tokens|
  {
    && n in nList && n <= pos && 0 <= hit < pos && RecursAt(tokens, pos, n, hit)
    && (forall e :: hit < e < pos ==> !RecursAt(tokens, pos, n, e))
    && (forall m :: m in nList && n < m ==> !Recurs(tokens, pos, m))
  }

  /** The draft is what followed `hit`, cut at k tokens or at the end of the transcript. */
  ghost predicate Follows(tokens: Tokens, hit: int, k: nat, draft: Tokens) {
    && 0 <= hit <= |tokens| && |draft| == Min(k, |tokens| - hit)
    && forall j :: 0 <= j < |draft| ==> draft[j] == tokens[hit + j]
  }

  /** The draft continues the latest earlier occurrence of the longest listed n-gram that has one. */
  ghost predicate BestDraft(tokens: Tokens, nList: seq<nat>, pos: nat, k: nat, draft: Tokens)
    requires pos <= |tokens|
  {
    if AnyRecurs(tokens, nList, pos)
    then exists n, hit :: IsBest(tokens, nList, pos, n, hit) && Follows(tokens, hit, k, draft)
    else draft == []
  }

  lemma FollowingFollows(tokens: Tokens, hit: int, k: nat)
    requires 0 <= hit <= |tokens|
    ensures Follows(tokens, hit, k, Following(tokens, hit, k))
  {
  }

  /**
   Right after observing up to `pos`, a draft continues the most recent earlier occurrence of
   the longest listed n-gram that has one; when none has, there is no draft.
   */
  lemma {:induction false} DraftIsLongestMostRecent(tokens: Tokens, nList: seq<nat>, pos: nat, k: nat)
    requires pos <= |tokens| && Sorted(Descending, nList)
    ensures BestDraft(tokens, nList, pos, k, Drafted(tokens, nList, pos, pos, k))
    decreases |nList|
  {
    if nList != [] {
      RecursIffFound(tokens, pos, nList[0]);
      if Recurs(tokens, pos, nList[0]) {
        var hit := BestHit(tokens, pos, nList[0]);
        DraftedHere(tokens, nList, pos, k, hit);
        FollowingFollows(tokens, hit, k);
        BestOfFirst(tokens, nList, pos, k, hit, Following(tokens, hit, k));
      } else {
        DraftedLater(tokens, nList, pos, k);
        DraftIsLongestMostRecent(tokens, nList[1..], pos, k);
        BestOfRest(tokens, nList, pos, k, Drafted(tokens, nList[1..], pos, pos, k));
      }
    }
  }

  lemma DraftedHere(tokens: Tokens, nList: seq<nat>, pos: nat, k: nat, hit: int)
    requires nList != [] && nList[0] <= pos <= |tokens| && 0 <= hit < pos
    requires Latest(tokens, tokens[pos - nList[0]..pos], pos) == Some(hit)
    ensures Drafted(tokens, nList, pos, pos, k) == Following(tokens, hit, k)
  {
  }

  lemma DraftedLater(tokens: Tokens, nList: seq<nat>, pos: nat, k: nat)
    requires nList != [] && pos <= |tokens|
    requires pos < nList[0] || Latest(tokens, tokens[pos - nList[0]..pos], pos).None?
    ensures Drafted(tokens, nList, pos, pos, k) == Drafted(tokens, nList[1..], pos, pos, k)
  {
  }

  ghost predicate AnyRecurs(tokens: Tokens, nList: seq<nat>, pos: nat)
    requires pos <= |tokens|
  {
    exists m :: m in nList && Recurs(tokens, pos, m)
  }

  lemma AnyRecursCons(tokens: Tokens, nList: seq<nat>, pos: nat)
    requires pos <= |tokens| && nList != []
    ensures AnyRecurs(tokens, nList, pos) <==> Recurs(tokens, pos, nList[0]) || AnyRecurs(tokens, nList[1..], pos)
  {
    assert forall m :: m in nList <==> m == nList[0] || m in nList[1..];
  }

  lemma BestOfFirst(tokens: Tokens, nList: seq<nat>, pos: nat, k: nat, hit: int, draft: Tokens)
    requires pos <= |tokens| && nList != [] && Sorted(Descending, nList) && Recurs(tokens, pos, nList[0])
    requires 0 <= hit < pos && RecursAt(tokens, pos, nList[0], hit) && Follows(tokens, hit, k, draft)
    requires forall e :: hit < e < pos ==> !RecursAt(tokens, pos, nList[0], e)
    ensures BestDraft(tokens, nList, pos, k, draft)
  {
    assert forall m :: m in nList ==> m <= nList[0];
    assert IsBest(tokens, nList, pos, nList[0], hit);
  }

  lemma BestOfRest(tokens: Tokens, nList: seq<nat>, pos: nat, k: nat, draft: Tokens)
    requires pos <= |tokens| && nList != [] && !Recurs(tokens, pos, nList[0])
    requires BestDraft(tokens, nList[1..], pos, k, draft)
    ensures BestDraft(tokens, nList, pos, k, draft)
  {
    AnyRecursCons(tokens, nList, pos);
    if AnyRecurs(tokens, nList, pos) {
      assert forall m :: m in nList <==> m == nList[0] || m in nList[1..];
      var n, hit :| IsBest(tokens, nList[1..], pos, n, hit) && Follows(tokens, hit, k, draft);
      assert IsBest(tokens, nList, pos, n, hit);
    }
  }

  lemma BestHit(tokens: Tokens, pos: nat, n: nat) returns (hit: int)
    requires pos <= |tokens| && n <= pos && Latest(tokens, tokens[pos - n..pos], pos).Some?
    ensures Latest(tokens, tokens[pos - n..pos], pos) == Some(hit)
    ensures 0 <= hit < pos && RecursAt(tokens, pos, n, hit) && forall e :: hit < e < pos ==> !RecursAt(tokens, pos, n, e)
  {
    var key := tokens[pos - n..pos];
    hit := Latest(tokens, key, pos).value;
    LatestIsMostRecent(tokens, key, pos, 0);
    RecursIsEnds(tokens, pos, n, hit);
    forall e | hit < e < pos
      ensures !RecursAt(tokens, pos, n, e)
    {
      RecursIsEnds(tokens, pos, n, e);
      LatestIsMostRecent(tokens, key, pos, e);
    }
  }

  lemma RecursIffFound(tokens: Tokens, pos: nat, n: nat)
    requires pos <= |tokens|
    ensures Recurs(tokens, pos, n) <==> n <= pos && Latest(tokens, tokens[pos - n..pos], pos).Some?
  {
    if n <= pos {
      var key := tokens[pos - n..pos];
      var found := Latest(tokens, key, pos);
      LatestIsMostRecent(tokens, key, pos, 0);
      if found.Some? {
        RecursIsEnds(tokens, pos, n, found.value);
        assert RecursAt(tokens, pos, n, found.value);
      }
      forall e | e < pos && RecursAt(tokens, pos, n, e)
        ensures Latest(tokens, key, pos).Some?
      {
        RecursIsEnds(tokens, pos, n, e);
        LatestIsMostRecent(tokens, key, pos, e);
      }
    }
  }

  // ------------------------------------------------------------ the decode it replays

  /** One decode step: a plain token, or a verified draft of some length. */
  datatype Step = Plain | Verify(length: nat, accepted: nat, emit: nat)

  /** How many leading draft tokens the transcript confirms. */
  function Confirmed(tokens: Tokens, pos: nat, draft: Tokens): (c: nat)
    requires pos <= |tokens|
    ensures c <= |draft| && pos + c <= |tokens|
    ensures forall j :: 0 <= j < c ==> tokens[pos + j] == draft[j]
    ensures c < |draft| ==> pos + c == |tokens| || tokens[pos + c] != draft[c]
    decreases |draft|
  {
    if draft == [] || pos == |tokens| || tokens[pos] != draft[0] then 0
    else 1 + Confirmed(tokens, pos + 1, draft[1..])
  }

  function NextK(k: int, kMax: int, adaptive: bool, length: nat, accepted: nat): int {
    if !adaptive then k
    else if accepted == length then Min(kMax, k + 2)
    else Max(1, accepted + 1)
  }

  ghost function DraftAt(tokens: Tokens, nList: seq<nat>, pos: nat, k: int): Tokens
    requires pos <= |tokens|
  {
    if k > 0 then Drafted(tokens, nList, pos, pos, k) else []
  }

  /** A step, and where and with which draft length the decode goes on. */
  datatype Move = Move(step: Step, pos: nat, k: int)

  function Emit(s: Step): nat {
    if s.Plain? then 1 else s.emit
  }

  function Verified(tokens: Tokens, draft: Tokens, kMax: int, adaptive: bool, pos: nat, k: int): Move
    requires pos < |tokens|
  {
    var accepted := Confirmed(tokens, pos, draft);
    var emit := Min(accepted + 1, |tokens| - pos);
    Move(Verify(|draft|, accepted, emit), pos + emit, NextK(k, kMax, adaptive, |draft|, accepted))
  }

  /** One step with the reference drafter. */
  ghost function Advance(tokens: Tokens, nList: seq<nat>, kMax: int, adaptive: bool, pos: nat, k: int): (m: Move)
    requires pos < |tokens|
    ensures pos < m.pos <= |tokens| && m.pos == pos + Emit(m.step)
  {
    var draft := DraftAt(tokens, nList, pos, k);
    if draft == [] then Move(Plain, pos + 1, k) else Verified(tokens, draft, kMax, adaptive, pos, k)
  }

  /** The steps of a speculative greedy decode of tokens[pos..]. */
  ghost function Decode(tokens: Tokens, nList: seq<nat>, kMax: int, adaptive: bool, pos: nat, k: int): seq<Step>
    decreases |tokens| - pos
  {
    if pos >= |tokens| then [] else
      var m := Advance(tokens, nList, kMax, adaptive, pos, k);
      [m.step] + Decode(tokens, nList, kMax, adaptive, m.pos, m.k)
  }

  // ------------------------------------------------------------ counters

  datatype Tally = Tally(generated: nat, drafted: nat, plain: nat, accepted: nat, proposed: nat, width: nat,
                         hist: map<nat, nat>, widths: map<nat, nat>)

  function Bump(m: map<nat, nat>, key: nat): map<nat, nat> {
    m[key := (if key in m then m[key] else 0) + 1]
  }

  const ZERO: Tally := Tally(0, 0, 0, 0, 0, 0, map[], map[])

  function AddStep(t: Tally, s: Step): Tally {
    match s
    case Plain => t.(generated := t.generated + 1, plain := t.plain + 1)
    case Verify(length, accepted, emit) =>
      Tally(t.generated + emit, t.drafted + 1, t.plain, t.accepted + accepted, t.proposed + length, t.width + length + 1,
            Bump(t.hist, emit), Bump(t.widths, length + 1))
  }

  function TallyOf(steps: seq<Step>): Tally {
    if steps == [] then ZERO else AddStep(TallyOf(steps[..|steps| - 1]), steps[|steps| - 1])
  }

  lemma TallyNext(steps: seq<Step>, s: Step)
    ensures TallyOf(steps + [s]) == AddStep(TallyOf(steps), s)
  {
    assert (steps + [s])[..|steps|] == steps;
  }

  method CountConfirmed(tokens: Tokens, pos: nat, draft: Tokens) returns (accepted: nat)
    requires pos <= |tokens|
    ensures accepted == Confirmed(tokens, pos, draft)
  {
    accepted := 0;
    while accepted < |draft| && pos + accepted < |tokens| && tokens[pos + accepted] == draft[accepted]
      invariant 0 <= accepted <= |draft| && pos + accepted <= |tokens|
      invariant forall j :: 0 <= j < accepted ==> tokens[pos + j] == draft[j]
    {
      accepted := accepted + 1;
    }
    ConfirmedIs(tokens, pos, draft, accepted);
  }

  /** No draft is asked for when k has come down to nothing. */
  method DraftUpTo(drafter: NgramDrafter, tokens: Tokens, pos: nat, k: int) returns (draft: Tokens)
    requires pos < |tokens| && drafter.Knows(tokens, pos)
    ensures draft == DraftAt(tokens, drafter.nList, pos, k)
  {
    draft := [];
    if k > 0 {
      draft := drafter.Draft(tokens, pos, k, pos);
    }
  }

  /** One turn of the replay loop. */
  method StepAt(drafter: NgramDrafter, tokens: Tokens, pos: nat, k: int, kMax: int, adaptive: bool, ghost seen: int)
    returns (m: Move)
    requires pos < |tokens| && drafter.Knows(tokens, seen) && seen <= pos
    modifies drafter
    ensures drafter.Knows(tokens, pos)
    ensures m == Advance(tokens, drafter.nList, kMax, adaptive, pos, k)
  {
    drafter.Observe(tokens, pos, seen);
    var draft := DraftUpTo(drafter, tokens, pos, k);
    if draft == [] {
      return Move(Plain, pos + 1, k);
    }
    var accepted := CountConfirmed(tokens, pos, draft);
    var emit := Min(accepted + 1, |tokens| - pos);
    return Move(Verify(|draft|, accepted, emit), pos + emit, NextK(k, kMax, adaptive, |draft|, accepted));
  }

  /** Replays a transcript with the incremental drafter and counts what the reference decode does. */
  method Simulate(tokens: Tokens, start: nat, ns: seq<nat>, kMax: int, adaptive: bool) 
    returns (t: Tally, ghost steps: seq<Step>, ghost at: seq<nat>, ghost ks: seq<int>)
    ensures t == TallyOf(Decode(tokens, Sort(Descending, ns), kMax, adaptive, start, kMax))
    ensures Replays(Setting(tokens, ns, kMax, adaptive), start, kMax, steps, at, ks) && TalliesUp(t, steps)
  {
    var drafter := new NgramDrafter(ns, tokens);
    var pos, k := start, kMax;
    t := ZERO;
    ghost var run := Setting(tokens, drafter.nList, kMax, adaptive);
    ghost var done: seq<Step> := [];
    ghost var seen := 0;
    while pos < |tokens|
      invariant drafter.Knows(tokens, seen) && seen <= pos
      invariant Reached(run, start, done, pos, k) && t == TallyOf(done)
      decreases |tokens| - pos
    {
      var m := StepAt(drafter, tokens, pos, k, kMax, adaptive, seen);
      seen := pos;
      TallyNext(done, m.step);
      ReachedNext(run, start, done, pos, k, m);
      t := AddStep(t, m.step);
      done := done + [m.step];
      pos, k := m.pos, m.k;
    }
    ReachedEnd(run, start, done, pos, k);
    steps := done;
    at, ks := DecodeReplays(run, start, kMax);
    SortedReplays(run, Setting(tokens, ns, kMax, adaptive), start, kMax, steps, at, ks);
    TallyCounts(steps);
  }

  /** The order the lengths are listed in does not matter. */
  lemma SortedReplays(run: Setting, run': Setting, pos: nat, k: int, steps: seq<Step>, at: seq<nat>, ks: seq<int>)
    requires run == run'.(nList := Sort(Descending, run'.nList)) && Replays(run, pos, k, steps, at, ks)
    ensures Replays(run', pos, k, steps, at, ks)
  {
    forall i | 0 <= i < |steps|
      ensures Turn(run', at[i], ks[i], Move(steps[i], at[i + 1], ks[i + 1]))
    {
      assert Turn(run, at[i], ks[i], Move(steps[i], at[i + 1], ks[i + 1]));
      SortedTurn(run, run', at[i], ks[i], Move(steps[i], at[i + 1], ks[i + 1]));
    }
  }

  lemma SortedTurn(run: Setting, run': Setting, pos: nat, k: int, m: Move)
    requires run == run'.(nList := Sort(Descending, run'.nList)) && Turn(run, pos, k, m)
    ensures Turn(run', pos, k, m)
  {
    var draft :|
      && (if k > 0 then BestDraft(run.tokens, run.nList, pos, k, draft) else draft == [])
      && TurnBy(run, pos, k, draft, m);
    forall n
      ensures n in run.nList <==> n in run'.nList
    {
      SortMembers(Descending, run'.nList, n);
    }
    if k > 0 {
      SameLengths(run.tokens, run.nList, run'.nList, pos, k, draft);
    }
    assert TurnBy(run', pos, k, draft, m);
  }

  lemma SameLengths(tokens: Tokens, a: seq<nat>, b: seq<nat>, pos: nat, k: nat, draft: Tokens)
    requires pos <= |tokens| && BestDraft(tokens, a, pos, k, draft) && forall n :: n in a <==> n in b
    ensures BestDraft(tokens, b, pos, k, draft)
  {
    if AnyRecurs(tokens, a, pos) {
      var n, hit :| IsBest(tokens, a, pos, n, hit) && Follows(tokens, hit, k, draft);
      assert IsBest(tokens, b, pos, n, hit);
    }
  }

  datatype Setting = Setting(tokens: Tokens, nList: seq<nat>, kMax: int, adaptive: bool) {
    ghost function DecodeFrom(pos: nat, k: int): seq<Step> {
      Decode(tokens, nList, kMax, adaptive, pos, k)
    }
  }

  /** The steps done are the first of the whole decode, and the rest is still ahead. */
  ghost predicate Reached(run: Setting, start: nat, done: seq<Step>, pos: nat, k: int) {
    run.DecodeFrom(start, run.kMax) == done + run.DecodeFrom(pos, k)
  }

  lemma ReachedNext(run: Setting, start: nat, done: seq<Step>, pos: nat, k: int, m: Move)
    requires pos < |run.tokens| && m == Advance(run.tokens, run.nList, run.kMax, run.adaptive, pos, k)
    requires Reached(run, start, done, pos, k)
    ensures Reached(run, start, done + [m.step], m.pos, m.k)
  {
    StepsShift(run.DecodeFrom(start, run.kMax), done, run.DecodeFrom(pos, k), m.step, run.DecodeFrom(m.pos, m.k));
  }

  lemma StepsShift(all: seq<Step>, done: seq<Step>, here: seq<Step>, step: Step, rest: seq<Step>)
    requires all == done + here && here == [step] + rest
    ensures all == done + [step] + rest
  {
  }

  lemma ReachedEnd(run: Setting, start: nat, done: seq<Step>, pos: nat, k: int)
    requires Reached(run, start, done, pos, k) && pos >= |run.tokens|
    ensures run.DecodeFrom(start, run.kMax) == done
  {
    assert done + [] == done;
  }

  lemma {:induction false} ConfirmedIs(tokens: Tokens, pos: nat, draft: Tokens, c: nat)
    requires pos + c <= |tokens| && c <= |draft| && forall j :: 0 <= j < c ==> tokens[pos + j] == draft[j]
    requires c < |draft| ==> pos + c == |tokens| || tokens[pos + c] != draft[c]
    ensures Confirmed(tokens, pos, draft) == c
    decreases c
  {
    if c > 0 {
      assert tokens[pos + 0] == draft[0];
      assert forall j :: 0 <= j < c - 1 ==> tokens[pos + 1 + j] == tokens[pos + (j + 1)] == draft[j + 1] == draft[1..][j];
      ConfirmedIs(tokens, pos + 1, draft[1..], c - 1);
    }
  }

  // ------------------------------------------------------------ what a replay means

  /** The transcript confirms the first c tokens of the draft, and no further one. */
  ghost predicate Confirms(tokens: Tokens, pos: nat, draft: Tokens, c: nat) {
    && c <= |draft| && pos + c <= |tokens|
    && (forall j :: 0 <= j < c ==> draft[j] == tokens[pos + j])
    && (c < |draft| && pos + c < |tokens| ==> draft[c] != tokens[pos + c])
  }

  /** One turn of the loop with this draft: what it does, where it goes on, and with which draft length. */
  ghost predicate TurnBy(run: Setting, pos: nat, k: int, draft: Tokens, m: Move) {
    if draft == [] then m == Move(Plain, pos + 1, k)
    else
      && m.step.Verify? && m.step.length == |draft| && Confirms(run.tokens, pos, draft, m.step.accepted)
      && m.step.emit == m.step.accepted + (if pos + m.step.accepted < |run.tokens| then 1 else 0)
      && m.pos == pos + m.step.emit
      && (!run.adaptive ==> m.k == k)
      && (run.adaptive && m.step.accepted < |draft| ==> m.k == m.step.accepted + 1)
      && (run.adaptive && m.step.accepted == |draft| ==>
        m.k <= run.kMax && (m.k == k + 2 || (m.k == run.kMax && run.kMax < k + 2)))
  }

  ghost predicate Turn(run: Setting, pos: nat, k: int, m: Move) {
    pos < |run.tokens| && exists draft ::
      && (if k > 0 then BestDraft(run.tokens, run.nList, pos, k, draft) else draft == [])
      && TurnBy(run, pos, k, draft, m)
  }

  /** The steps lead from `pos` to the end of the transcript; turn i starts at at[i] with draft length ks[i]. */
  ghost predicate Replays(run: Setting, pos: nat, k: int, steps: seq<Step>, at: seq<nat>, ks: seq<int>) {
    && |at| == |ks| == |steps| + 1 && at[0] == pos && ks[0] == k && |run.tokens| <= at[|steps|]
    && forall i :: 0 <= i < |steps| ==> Turn(run, at[i], ks[i], Move(steps[i], at[i + 1], ks[i + 1]))
  }

  /** The reference step is such a turn. */
  lemma AdvanceTurns(run: Setting, pos: nat, k: int)
    requires pos < |run.tokens| && Sorted(Descending, run.nList)
    ensures Turn(run, pos, k, Advance(run.tokens, run.nList, run.kMax, run.adaptive, pos, k))
  {
    var draft := DraftAt(run.tokens, run.nList, pos, k);
    if k > 0 {
      DraftIsLongestMostRecent(run.tokens, run.nList, pos, k);
    }
    var m := if draft == [] then Move(Plain, pos + 1, k) else Verified(run.tokens, draft, run.kMax, run.adaptive, pos, k);
    if draft != [] {
      VerifiedTurns(run, pos, k, draft);
    }
    assert TurnBy(run, pos, k, draft, m);
  }

  lemma VerifiedTurns(run: Setting, pos: nat, k: int, draft: Tokens)
    requires pos < |run.tokens| && draft != []
    ensures TurnBy(run, pos, k, draft, Verified(run.tokens, draft, run.kMax, run.adaptive, pos, k))
  {
  }

  /** The reference decode is a replay. */
  lemma {:induction false} DecodeReplays(run: Setting, pos: nat, k: int) returns (at: seq<nat>, ks: seq<int>)
    requires Sorted(Descending, run.nList)
    ensures Replays(run, pos, k, run.DecodeFrom(pos, k), at, ks)
    decreases |run.tokens| - pos
  {
    at, ks := [pos], [k];
    if pos < |run.tokens| {
      var m := Advance(run.tokens, run.nList, run.kMax, run.adaptive, pos, k);
      AdvanceTurns(run, pos, k);
      var at', ks' := DecodeReplays(run, m.pos, m.k);
      at, ks := at + at', ks + ks';
      ReplaysCons(run, pos, k, m, run.DecodeFrom(m.pos, m.k), at', ks');
    }
  }

  lemma ReplaysCons(run: Setting, pos: nat, k: int, m: Move, rest: seq<Step>, at: seq<nat>, ks: seq<int>)
    requires Turn(run, pos, k, m) && Replays(run, m.pos, m.k, rest, at, ks)
    ensures Replays(run, pos, k, [m.step] + rest, [pos] + at, [k] + ks)
  {
    var all, at', ks' := [m.step] + rest, [pos] + at, [k] + ks;
    forall i | 0 <= i < |all|
      ensures Turn(run, at'[i], ks'[i], Move(all[i], at'[i + 1], ks'[i + 1]))
    {
      if i > 0 {
        assert Turn(run, at[i - 1], ks[i - 1], Move(rest[i - 1], at[i], ks[i]));
      }
    }
  }

  function Accepts(s: Step): nat {
    if s.Plain? then 0 else s.accepted
  }

  function Proposes(s: Step): nat {
    if s.Plain? then 0 else s.length
  }

  ghost function SumOver(f: Step -> nat, steps: seq<Step>): nat {
    if steps == [] then 0 else SumOver(f, steps[..|steps| - 1]) + f(steps[|steps| - 1])
  }

  /** The verified steps; those of them that emit m tokens; those that verify m positions. */
  ghost function Verifies(steps: seq<Step>): set<int> {
    set i | 0 <= i < |steps| && steps[i].Verify?
  }

  ghost function Emitting(steps: seq<Step>, m: nat): set<int> {
    set i | 0 <= i < |steps| && steps[i].Verify? && steps[i].emit == m
  }

  ghost function Covering(steps: seq<Step>, m: nat): set<int> {
    set i | 0 <= i < |steps| && steps[i].Verify? && steps[i].length + 1 == m
  }

  /** The map counts how often each m occurs, and has no entry for one that does not. */
  ghost predicate CountsAt(h: map<nat, nat>, m: nat, n: nat) {
    (m in h <==> n > 0) && (m in h ==> h[m] == n)
  }

  /** Every sum is what its name says of the steps. */
  ghost predicate Sums(t: Tally, steps: seq<Step>) {
    && t.drafted == |Verifies(steps)| && t.plain + t.drafted == |steps|
    && t.generated == SumOver(Emit, steps)
    && t.accepted == SumOver(Accepts, steps) && t.proposed == SumOver(Proposes, steps)
    && t.width == SumOver(Proposes, steps) + |Verifies(steps)|
  }

  /** And so is every histogram. */
  ghost predicate TalliesUp(t: Tally, steps: seq<Step>) {
    && Sums(t, steps)
    && (forall m: nat :: CountsAt(t.hist, m, |Emitting(steps, m)|))
    && (forall m: nat :: CountsAt(t.widths, m, |Covering(steps, m)|))
  }

  lemma SetsNext(init: seq<Step>, s: Step, m: nat)
    ensures var steps, here := init + [s], {|init|};
            && Verifies(steps) == Verifies(init) + (if s.Verify? then here else {})
            && Emitting(steps, m) == Emitting(init, m) + (if s.Verify? && s.emit == m then here else {})
            && Covering(steps, m) == Covering(init, m) + (if s.Verify? && s.length + 1 == m then here else {})
  {
  }

  lemma BumpCounts(h: map<nat, nat>, key: nat, m: nat, n: nat)
    requires CountsAt(h, m, n)
    ensures CountsAt(Bump(h, key), m, if m == key then n + 1 else n)
  {
  }

  /** One more step keeps the histograms right. */
  lemma EmitsNext(t: Tally, init: seq<Step>, s: Step, m: nat)
    requires CountsAt(t.hist, m, |Emitting(init, m)|)
    ensures CountsAt(AddStep(t, s).hist, m, |Emitting(init + [s], m)|)
  {
    SetsNext(init, s, m);
    assert |init| !in Emitting(init, m);
    if s.Verify? {
      BumpCounts(t.hist, s.emit, m, |Emitting(init, m)|);
    }
  }

  lemma WidthsNext(t: Tally, init: seq<Step>, s: Step, m: nat)
    requires CountsAt(t.widths, m, |Covering(init, m)|)
    ensures CountsAt(AddStep(t, s).widths, m, |Covering(init + [s], m)|)
  {
    CoveringSize(init, s, m);
    if s.Verify? {
      BumpCounts(t.widths, s.length + 1, m, |Covering(init, m)|);
    }
  }

  lemma CoveringSize(init: seq<Step>, s: Step, m: nat)
    ensures |Covering(init + [s], m)| == |Covering(init, m)| + if s.Verify? && s.length + 1 == m then 1 else 0
  {
    SetsNext(init, s, m);
    assert |init| !in Covering(init, m);
  }

  /** And the other counters. */
  lemma SumsNext(t: Tally, init: seq<Step>, s: Step)
    requires Sums(t, init)
    ensures Sums(AddStep(t, s), init + [s])
  {
    SumOverNext(Emit, init, s);
    SumOverNext(Accepts, init, s);
    SumOverNext(Proposes, init, s);
    VerifiesNext(init, s);
  }

  lemma SumOverNext(f: Step -> nat, init: seq<Step>, s: Step)
    ensures SumOver(f, init + [s]) == SumOver(f, init) + f(s)
  {
    assert (init + [s])[..|init|] == init;
  }

  lemma VerifiesNext(init: seq<Step>, s: Step)
    ensures |Verifies(init + [s])| == |Verifies(init)| + if s.Verify? then 1 else 0
  {
    SetsNext(init, s, 0);
    assert |init| !in Verifies(init);
  }

  lemma {:induction false} TallyCounts(steps: seq<Step>)
    ensures TalliesUp(TallyOf(steps), steps)
  {
    if steps == [] {
      assert Verifies([]) == {} && forall m: nat :: Emitting([], m) == {} && Covering([], m) == {};
    } else {
      var init, s := steps[..|steps| - 1], steps[|steps| - 1];
      assert steps == init + [s];
      TallyCounts(init);
      SumsNext(TallyOf(init), init, s);
      forall m: nat
        ensures CountsAt(TallyOf(steps).hist, m, |Emitting(steps, m)|)
        ensures CountsAt(TallyOf(steps).widths, m, |Covering(steps, m)|)
      {
        EmitsNext(TallyOf(init), init, s, m);
        WidthsNext(TallyOf(init), init, s, m);
      }
    }
  }

  // ------------------------------------------------------------ conservation

  lemma NextKBounded(k: int, kMax: int, adaptive: bool, length: nat, accepted: nat)
    requires 1 <= k <= kMax && accepted <= length <= k
    ensures 1 <= NextK(k, kMax, adaptive, length, accepted) <= kMax
  {
  }

  lemma {:induction false} DraftLength(tokens: Tokens, nList: seq<nat>, pos: nat, k: nat)
    requires pos <= |tokens|
    ensures |Drafted(tokens, nList, pos, pos, k)| <= k
    decreases |nList|
  {
    if nList != [] {
      DraftLength(tokens, nList[1..], pos, k);
    }
  }

  /** A verified draft is non-empty and at most kMax long, and emits its accepted tokens and one more, unless the transcript ends. */
  ghost predicate StepOk(s: Step, last: bool, kMax: int) {
    s.Plain? || (1 <= s.length <= kMax && s.accepted <= s.length && 1 <= s.emit &&
      (s.emit == s.accepted + 1 || (last && s.emit == s.accepted)))
  }

  ghost predicate StepsOk(steps: seq<Step>, kMax: int) {
    forall i :: 0 <= i < |steps| ==> StepOk(steps[i], i == |steps| - 1, kMax)
  }

  lemma StepsOkCons(s: Step, rest: seq<Step>, kMax: int)
    requires StepOk(s, rest == [], kMax) && StepsOk(rest, kMax)
    ensures StepsOk([s] + rest, kMax)
  {
    var all := [s] + rest;
    forall i | 0 <= i < |all|
      ensures StepOk(all[i], i == |all| - 1, kMax)
    {
      assert i > 0 ==> all[i] == rest[i - 1];
    }
  }

  lemma DraftAtLength(tokens: Tokens, nList: seq<nat>, pos: nat, k: int)
    requires pos <= |tokens|
    ensures |DraftAt(tokens, nList, pos, k)| <= Max(k, 0)
  {
    if k > 0 {
      DraftLength(tokens, nList, pos, k);
    }
  }

  lemma VerifiedOk(tokens: Tokens, draft: Tokens, kMax: int, adaptive: bool, pos: nat, k: int)
    requires pos < |tokens| && 1 <= |draft| <= k <= kMax
    ensures var m := Verified(tokens, draft, kMax, adaptive, pos, k);
            StepOk(m.step, m.pos == |tokens|, kMax) && 1 <= m.k <= kMax
  {
    NextKBounded(k, kMax, adaptive, |draft|, Confirmed(tokens, pos, draft));
  }

  lemma AdvanceOk(tokens: Tokens, nList: seq<nat>, kMax: int, adaptive: bool, pos: nat, k: int)
    requires pos < |tokens| && k <= kMax
    ensures var m := Advance(tokens, nList, kMax, adaptive, pos, k);
            StepOk(m.step, m.pos == |tokens|, kMax) && m.k <= kMax && (k >= 1 ==> m.k >= 1)
  {
    var draft := DraftAt(tokens, nList, pos, k);
    DraftAtLength(tokens, nList, pos, k);
    if draft != [] {
      VerifiedOk(tokens, draft, kMax, adaptive, pos, k);
    }
  }

  lemma {:induction false} DecodeOk(tokens: Tokens, nList: seq<nat>, kMax: int, adaptive: bool, pos: nat, k: int)
    requires k <= kMax
    ensures StepsOk(Decode(tokens, nList, kMax, adaptive, pos, k), kMax)
    decreases |tokens| - pos
  {
    if pos < |tokens| {
      var m := Advance(tokens, nList, kMax, adaptive, pos, k);
      AdvanceOk(tokens, nList, kMax, adaptive, pos, k);
      DecodeOk(tokens, nList, kMax, adaptive, m.pos, m.k);
      StepsOkCons(m.step, Decode(tokens, nList, kMax, adaptive, m.pos, m.k), kMax);
    }
  }

  lemma {:induction false} SumOverFront(f: Step -> nat, s: Step, rest: seq<Step>)
    ensures SumOver(f, [s] + rest) == f(s) + SumOver(f, rest)
  {
    if rest == [] {
      assert ([s] + rest)[..0] == [];
    } else {
      var n := |rest| - 1;
      SumOverFront(f, s, rest[..n]);
      assert ([s] + rest)[..|rest|] == [s] + rest[..n];
    }
  }

  /** The replay emits exactly the tokens that follow `pos`. */
  lemma {:induction false} DecodeEmitsAll(tokens: Tokens, nList: seq<nat>, kMax: int, adaptive: bool, pos: nat, k: int)
    ensures SumOver(Emit, Decode(tokens, nList, kMax, adaptive, pos, k)) == Max(0, |tokens| - pos)
    decreases |tokens| - pos
  {
    if pos < |tokens| {
      var m := Advance(tokens, nList, kMax, adaptive, pos, k);
      DecodeEmitsAll(tokens, nList, kMax, adaptive, m.pos, m.k);
      SumOverFront(Emit, m.step, Decode(tokens, nList, kMax, adaptive, m.pos, m.k));
    }
  }

  /** Sum of the values, and of key times value, over keys up to n. */
  function Counted(m: map<nat, nat>, n: nat): nat {
    (if n in m then m[n] else 0) + if n == 0 then 0 else Counted(m, n - 1)
  }

  function Weighted(m: map<nat, nat>, n: nat): nat {
    (if n in m then n * m[n] else 0) + if n == 0 then 0 else Weighted(m, n - 1)
  }

  lemma {:induction false} BumpSums(m: map<nat, nat>, key: nat, n: nat)
    ensures Counted(Bump(m, key), n) == Counted(m, n) + if key <= n then 1 else 0
    ensures Weighted(Bump(m, key), n) == Weighted(m, n) + if key <= n then key else 0
  {
    if n > 0 {
      BumpSums(m, key, n - 1);
    }
    if key == n {
      var v: nat := if n in m then m[n] else 0;
      assert n * (v + 1) == n * v + n;
    }
  }

  /** The histograms account for every emitted token and every verified position. */
  ghost predicate HistogramsAgree(t: Tally, bound: nat) {
    && t.generated == t.plain + Weighted(t.hist, bound) && t.drafted == Counted(t.hist, bound)
    && t.width == Weighted(t.widths, bound) && t.drafted == Counted(t.widths, bound)
    && (forall m :: m in t.widths ==> 2 <= m <= bound) && (forall m :: m in t.hist ==> 1 <= m <= bound)
  }

  /** Each drafted step verifies its draft and one position more, and emits what it accepts and one token more, save perhaps the last. */
  ghost predicate MarginsAgree(t: Tally) {
    && t.width == t.proposed + t.drafted
    && t.accepted <= t.proposed && (t.drafted == 0 ==> t.proposed == 0)
    && t.generated <= t.plain + t.drafted + t.accepted <= t.generated + 1
  }

  /** The relations the counters keep, whatever was accepted. */
  ghost predicate Balanced(t: Tally, bound: nat) {
    HistogramsAgree(t, bound) && MarginsAgree(t)
  }

  lemma {:induction false} TallyHistograms(steps: seq<Step>, kMax: int, bound: nat)
    requires StepsOk(steps, kMax) && bound == Max(kMax, 0) + 1
    ensures HistogramsAgree(TallyOf(steps), bound)
  {
    if steps == [] {
      ZeroSums(bound);
    } else {
      var n := |steps| - 1;
      var t, s := TallyOf(steps[..n]), steps[n];
      StepsOkInit(steps, kMax);
      TallyHistograms(steps[..n], kMax, bound);
      if s.Verify? {
        BumpSums(t.hist, s.emit, bound);
        BumpSums(t.widths, s.length + 1, bound);
      }
    }
  }

  lemma StepsOkInit(steps: seq<Step>, kMax: int)
    requires steps != [] && StepsOk(steps, kMax)
    ensures StepsOk(steps[..|steps| - 1], kMax) && StepOk(steps[|steps| - 1], true, kMax)
    ensures |steps| > 1 ==> StepOk(steps[|steps| - 2], false, kMax)
  {
    forall i | 0 <= i < |steps| - 1
      ensures StepOk(steps[i], false, kMax)
    {
      assert StepOk(steps[i], i == |steps| - 1, kMax);
    }
  }

  /** No drafted step has been cut short yet. */
  ghost predicate InFull(t: Tally) {
    t.generated == t.plain + t.drafted + t.accepted
  }

  lemma MarginsStep(t: Tally, s: Step, kMax: int)
    requires MarginsAgree(t) && InFull(t) && StepOk(s, true, kMax)
    ensures MarginsAgree(AddStep(t, s))
    ensures StepOk(s, false, kMax) ==> InFull(AddStep(t, s))
  {
  }

  lemma {:induction false} TallyMargins(steps: seq<Step>, kMax: int)
    requires StepsOk(steps, kMax)
    ensures MarginsAgree(TallyOf(steps))
    ensures steps == [] || StepOk(steps[|steps| - 1], false, kMax) ==> InFull(TallyOf(steps))
  {
    if steps != [] {
      var n := |steps| - 1;
      StepsOkInit(steps, kMax);
      TallyMargins(steps[..n], kMax);
      assert n > 0 ==> steps[..n][n - 1] == steps[n - 1];
      MarginsStep(TallyOf(steps[..n]), steps[n], kMax);
    }
  }

  lemma {:induction false} ZeroSums(n: nat)
    ensures Counted(map[], n) == 0 && Weighted(map[], n) == 0
  {
    if n > 0 {
      ZeroSums(n - 1);
    }
  }

  /** What `Simulate` returns: all tokens emitted, and every counter accounted for. */
  lemma SimulationConserves(tokens: Tokens, nList: seq<nat>, kMax: int, adaptive: bool, start: nat)
    ensures var t := TallyOf(Decode(tokens, nList, kMax, adaptive, start, kMax));
            t.generated == Max(0, |tokens| - start) && Balanced(t, Max(kMax, 0) + 1)
  {
    var steps := Decode(tokens, nList, kMax, adaptive, start, kMax);
    DecodeEmitsAll(tokens, nList, kMax, adaptive, start, kMax);
    TallyCounts(steps);
    DecodeOk(tokens, nList, kMax, adaptive, start, kMax);
    TallyHistograms(steps, kMax, Max(kMax, 0) + 1);
    TallyMargins(steps, kMax);
  }

  // ------------------------------------------------------------ projected cost

  /** What `count` steps of total width `weight` cost at 1 + c(m-1) for each width m. */
  function Mix(c: real, count: real, weight: real): real {
    count + c * (weight - count)
  }

  function FlatCost(t: Tally, c: real): real {
    Mix(c, t.drafted as real, t.width as real)
  }

  /** The speedup is the tokens generated over what they cost. */
  lemma SpeedupIs(t: Tally, verify: real)
    ensures t.plain as real + verify != 0.0 ==> Speedup(t, verify) * (t.plain as real + verify) == t.generated as real
    ensures t.plain as real + verify == 0.0 ==> Speedup(t, verify) == 0.0
  {
    var total := t.plain as real + verify;
    if total != 0.0 {
      assert t.generated as real / total * total == t.generated as real;
    }
  }

  /** Every width that occurred has a price. */
  ghost predicate Priced(widths: map<nat, nat>, cost: map<nat, real>) {
    widths.Keys <= cost.Keys
  }

  /** Every width that occurred is priced at 1 + c(m-1). */
  ghost predicate LinearCost(widths: map<nat, nat>, cost: map<nat, real>, c: real) {
    Priced(widths, cost) && forall m {:trigger LinearAt(cost, c, m)} :: m in widths ==> LinearAt(cost, c, m)
  }

  ghost predicate LinearAt(cost: map<nat, real>, c: real, m: nat) {
    m in cost && cost[m] == 1.0 + c * (m as real - 1.0)
  }

  /** The measured table's cost: each width's cost times how often it occurred. */
  function TableCost(widths: map<nat, nat>, cost: map<nat, real>, n: nat): real
    requires Priced(widths, cost)
  {
    (if n in widths then cost[n] * (widths[n] as real) else 0.0) + if n == 0 then 0.0 else TableCost(widths, cost, n - 1)
  }

  function Total(t: Tally, verify: real): real {
    t.plain as real + verify
  }

  function Speedup(t: Tally, verify: real): real {
    if Total(t, verify) != 0.0 then t.generated as real / Total(t, verify) else 0.0
  }

  /** The sums over the widths below n, and what they cost. */
  ghost predicate Below(widths: map<nat, nat>, cost: map<nat, real>, n: nat, count: nat, weight: nat, bill: real)
    requires Priced(widths, cost)
  {
    if n == 0 then count == 0 && weight == 0 && bill == 0.0
    else count == Counted(widths, n - 1) && weight == Weighted(widths, n - 1) && bill == TableCost(widths, cost, n - 1)
  }

  lemma SumsWith(widths: map<nat, nat>, cost: map<nat, real>, n: nat, count: nat, weight: nat, bill: real)
    requires Priced(widths, cost) && Below(widths, cost, n, count, weight, bill) && n in widths
    ensures Counted(widths, n) == widths[n] + count
    ensures Weighted(widths, n) == n * widths[n] + weight
    ensures TableCost(widths, cost, n) == cost[n] * (widths[n] as real) + bill
  {
  }

  lemma SumsWithout(widths: map<nat, nat>, cost: map<nat, real>, n: nat, count: nat, weight: nat, bill: real)
    requires Priced(widths, cost) && Below(widths, cost, n, count, weight, bill) && n !in widths
    ensures Counted(widths, n) == count && Weighted(widths, n) == weight && TableCost(widths, cost, n) == bill
  {
  }

  /** The bill is what the count and the weight cost at 1 + c(m-1). */
  ghost predicate Bills(c: real, count: nat, weight: nat, bill: real) {
    bill == Mix(c, count as real, weight as real)
  }

  lemma BillsOn(widths: map<nat, nat>, cost: map<nat, real>, c: real, n: nat, count: nat, weight: nat, bill: real)
    requires LinearCost(widths, cost, c) && Below(widths, cost, n, count, weight, bill) && Bills(c, count, weight, bill)
    ensures Bills(c, Counted(widths, n), Weighted(widths, n), TableCost(widths, cost, n))
  {
    if n in widths {
      assert LinearAt(cost, c, n);
      SumsWith(widths, cost, n, count, weight, bill);
      LinearStep(c, n, widths[n], cost[n], count, weight, bill);
    } else {
      SumsWithout(widths, cost, n, count, weight, bill);
    }
  }

  lemma {:induction false} LinearTable(widths: map<nat, nat>, cost: map<nat, real>, c: real, n: nat)
    requires LinearCost(widths, cost, c)
    ensures Bills(c, Counted(widths, n), Weighted(widths, n), TableCost(widths, cost, n))
  {
    if n == 0 {
      MixNothing(c);
      BillsOn(widths, cost, c, n, 0, 0, 0.0);
    } else {
      LinearTable(widths, cost, c, n - 1);
      BillsOn(widths, cost, c, n, Counted(widths, n - 1), Weighted(widths, n - 1), TableCost(widths, cost, n - 1));
    }
  }

  lemma MixNothing(c: real)
    ensures Mix(c, 0 as real, 0 as real) == 0.0
  {
  }

  lemma LinearStep(c: real, n: nat, v: nat, cost: real, count: nat, weight: nat, rest: real)
    requires cost == 1.0 + c * (n as real - 1.0) && rest == Mix(c, count as real, weight as real)
    ensures cost * (v as real) + rest == Mix(c, (v + count) as real, (n * v + weight) as real)
  {
    var area: nat := n * v;
    LinearEntry(c, n, v, cost);
    MixAdds(c, v as real, area as real, count as real, weight as real);
    assert (v + count) as real == v as real + count as real;
    assert (area + weight) as real == area as real + weight as real;
  }

  /** What one width contributes. */
  lemma LinearEntry(c: real, n: nat, v: nat, cost: real)
    requires cost == 1.0 + c * (n as real - 1.0)
    ensures cost * (v as real) == Mix(c, v as real, (n * v) as real)
  {
    assert (n * v) as real == (n as real) * (v as real);
    LinearTerm(c, n as real, v as real);
  }

  lemma LinearTerm(c: real, m: real, v: real)
    ensures (1.0 + c * (m - 1.0)) * v == Mix(c, v, m * v)
  {
  }

  lemma MixAdds(c: real, a: real, b: real, x: real, y: real)
    ensures Mix(c, a, b) + Mix(c, x, y) == Mix(c, a + x, b + y)
  {
  }

  /** With cost 1 + c(m-1) per width m, the table form and the closed form agree on every simulation. */
  lemma FlatEqualsTable(t: Tally, bound: nat, cost: map<nat, real>, c: real)
    requires Balanced(t, bound)
    requires LinearCost(t.widths, cost, c)
    ensures TableCost(t.widths, cost, bound) == FlatCost(t, c)
  {
    LinearTable(t.widths, cost, c, bound);
  }

  /** Speculation loses when fewer tokens are accepted than c times those proposed, and does not lose when one more is. */
  lemma WhenItPays(t: Tally, bound: nat, c: real)
    requires Balanced(t, bound) && c >= 0.0
    ensures t.accepted as real < c * (t.proposed as real) ==> Speedup(t, FlatCost(t, c)) < 1.0
    ensures t.accepted as real - 1.0 >= c * (t.proposed as real) ==> Speedup(t, FlatCost(t, c)) >= 1.0
  {
    var bill := c * (t.proposed as real);
    assert bill >= 0.0;
    FlatIs(t, c);
    Pays(t, FlatCost(t, c), bill);
  }

  lemma FlatIs(t: Tally, c: real)
    requires t.width == t.proposed + t.drafted
    ensures FlatCost(t, c) == t.drafted as real + c * (t.proposed as real)
  {
    assert t.width as real - t.drafted as real == t.proposed as real;
  }

  lemma Pays(t: Tally, verify: real, bill: real)
    requires MarginsAgree(t) && bill >= 0.0 && verify == t.drafted as real + bill
    ensures t.accepted as real < bill ==> Speedup(t, verify) < 1.0
    ensures t.accepted as real - 1.0 >= bill ==> Speedup(t, verify) >= 1.0
  {
    var total := Total(t, verify);
    if total > 0.0 {
      QuotientSides(t.generated as real, total);
    }
  }

  lemma QuotientSides(a: real, b: real)
    requires b > 0.0
    ensures a < b ==> a / b < 1.0
    ensures a >= b ==> a / b >= 1.0
  {
    assert a == (a / b) * b;
  }
}
