/**
 The session-serialising replay pool: one submitter and many workers share a ready queue, a
 set of busy sessions and the turns held behind them. Each atomic action is a step; every
 interleaving is a run.
 */
module ReplayPool {
  import opened Basics

  /** What a worker thread is doing: waiting, issuing a turn, or about to account for one it has issued. */
  datatype Worker = Idle | Issuing(rec: nat) | Reported(rec: nat)

  /** Where a turn is. Auxiliary: it mirrors the shared structures and no action reads it. */
  datatype Place = Unsubmitted | InHand | Held | Queued | AtIssue(w: nat) | AtReport(w: nat) | Done

  datatype Pool = Pool(
    next: nat,                        // the submitter's position in the trace
    hand: Option<nat>,                // a turn marked busy but not yet queued
    ready: seq<nat>,
    pending: map<string, seq<nat>>,   // session -> turns held behind a running one
    busy: set<string>,
    left: int,
    workers: seq<Worker>,
    results: seq<nat>,                // one per turn issued
    issued: seq<nat>,                 // auxiliary: the order in which issuing started
    place: seq<Place>)

  /** The session of each turn, in trace order; a turn without one is independent. */
  type Trace = seq<Option<string>>

  function Initial(trace: Trace, workers: nat): Pool {
    Pool(0, None, [], map[], {}, |trace|, seq(workers, i => Idle), [], [], seq(|trace|, i => Unsubmitted))
  }

  // ------------------------------------------------------------ actions

  datatype Action = Submit | Put | Get(w: nat) | Report(w: nat) | Finish(w: nat)

  predicate Enabled(trace: Trace, p: Pool, a: Action) {
    match a
    case Submit => p.hand.None? && p.next < |trace|
    case Put => p.hand.Some?
    case Get(w) => w < |p.workers| && p.workers[w].Idle? && p.ready != []
    case Report(w) => w < |p.workers| && p.workers[w].Issuing?
    case Finish(w) => w < |p.workers| && p.workers[w].Reported?
  }

  function Apply(trace: Trace, p: Pool, a: Action): Pool
    requires Enabled(trace, p, a)
  {
    match a
    case Submit => SubmitNext(trace, p)
    case Put => p.(hand := None, ready := p.ready + [p.hand.value], place := Mark(p.place, p.hand.value, Queued))
    case Get(w) =>
      var r := p.ready[0];
      p.(ready := p.ready[1..], workers := p.workers[w := Issuing(r)], issued := p.issued + [r], place := Mark(p.place, r, AtIssue(w)))
    case Report(w) =>
      var r := p.workers[w].rec;
      p.(workers := p.workers[w := Reported(r)], results := p.results + [r], place := Mark(p.place, r, AtReport(w)))
    case Finish(w) => FinishTurn(trace, p, w)
  }

  function Mark(place: seq<Place>, r: nat, x: Place): seq<Place> {
    if r < |place| then place[r := x] else place
  }

  function SessionOf(trace: Trace, r: nat): Option<string> {
    if r < |trace| then trace[r] else None
  }

  /** A turn without a session is queued; one whose session is busy is held; else it is taken in hand. */
  function SubmitNext(trace: Trace, p: Pool): Pool {
    var r := p.next;
    match SessionOf(trace, r)
    case None => p.(next := r + 1, ready := p.ready + [r], place := Mark(p.place, r, Queued))
    case Some(s) =>
      if s in p.busy then
        var held := if s in p.pending then p.pending[s] else [];
        p.(next := r + 1, pending := p.pending[s := held + [r]], place := Mark(p.place, r, Held))
      else
        p.(next := r + 1, busy := p.busy + {s}, hand := Some(r), place := Mark(p.place, r, InHand))
  }

  /** Accounting for a finished turn: wake the session's next held turn, or free the session. */
  function FinishTurn(trace: Trace, p: Pool, w: nat): Pool
    requires Enabled(trace, p, Finish(w))
  {
    var r := p.workers[w].rec;
    var q := p.(workers := p.workers[w := Idle], left := p.left - 1, place := Mark(p.place, r, Done));
    match SessionOf(trace, r)
    case None => q
    case Some(s) =>
      if s in p.pending && p.pending[s] != [] then
        var h := p.pending[s][0];
        q.(pending := p.pending[s := p.pending[s][1..]], ready := p.ready + [h], place := Mark(q.place, h, Queued))
      else
        q.(pending := p.pending - {s}, busy := p.busy - {s})
  }

  // ------------------------------------------------------------ invariant

  predicate Active(x: Place) {
    x.InHand? || x.Queued? || x.AtIssue? || x.AtReport?
  }

  /** How far a turn has come; within a session this never grows along the trace. */
  function Stage(x: Place): nat {
    match x
    case Unsubmitted => 0
    case Held => 1
    case Done => 3
    case _ => 2
  }

  ghost predicate NoDups(s: seq<nat>) {
    forall i, j :: 0 <= i < j < |s| ==> s[i] != s[j]
  }

  ghost predicate Increasing(s: seq<nat>) {
    forall i, j :: 0 <= i < j < |s| ==> s[i] < s[j]
  }

  /** The submitter's position, its hand and the ready queue account for the turns they hold. */
  ghost predicate Queues(place: seq<Place>, next: nat, hand: Option<nat>, ready: seq<nat>) {
    && next <= |place| && (hand.Some? ==> hand.value < |place|)
    && (forall r :: 0 <= r < |place| ==> (place[r] == Unsubmitted <==> next <= r))
    && (forall r :: 0 <= r < |place| ==> (place[r] == InHand <==> hand == Some(r)))
    && NoDups(ready)
    && (forall r :: r in ready ==> r < |place|)
    && (forall r :: 0 <= r < |place| ==> (place[r] == Queued <==> r in ready))
  }

  ghost predicate Threads(place: seq<Place>, workers: seq<Worker>) {
    && (forall w :: 0 <= w < |workers| ==> Attends(place, w, workers[w]))
    && (forall r :: 0 <= r < |place| && place[r].AtIssue? ==> place[r].w < |workers| && workers[place[r].w] == Issuing(r))
    && (forall r :: 0 <= r < |place| && place[r].AtReport? ==> place[r].w < |workers| && workers[place[r].w] == Reported(r))
  }

  ghost predicate Attends(place: seq<Place>, w: nat, worker: Worker) {
    match worker
    case Idle => true
    case Issuing(r) => r < |place| && place[r] == AtIssue(w)
    case Reported(r) => r < |place| && place[r] == AtReport(w)
  }

  /** A held turn waits in its session's queue, in trace order, behind a busy session. */
  ghost predicate HeldTurns(trace: Trace, place: seq<Place>, pending: map<string, seq<nat>>, busy: set<string>)
    requires |place| == |trace|
  {
    && (forall s :: s in pending ==> s in busy && HeldQueue(trace, place, s, pending[s]))
    && (forall r :: 0 <= r < |trace| && place[r] == Held ==> Waits(trace, pending, r))
  }

  ghost predicate HeldQueue(trace: Trace, place: seq<Place>, s: string, q: seq<nat>)
    requires |place| == |trace|
  {
    Increasing(q) && forall k :: 0 <= k < |q| ==> q[k] < |trace| && trace[q[k]] == Some(s) && place[q[k]] == Held
  }

  ghost predicate Waits(trace: Trace, pending: map<string, seq<nat>>, r: nat)
    requires r < |trace|
  {
    trace[r].Some? && trace[r].value in pending && r in pending[trace[r].value]
  }

  ghost predicate HasActive(trace: Trace, place: seq<Place>, s: string)
    requires |place| == |trace|
  {
    exists r :: 0 <= r < |trace| && ActiveIn(trace, place, s, r)
  }

  ghost predicate ActiveIn(trace: Trace, place: seq<Place>, s: string, r: nat)
    requires |place| == |trace| && r < |trace|
  {
    trace[r] == Some(s) && Active(place[r])
  }

  ghost predicate SameSession(trace: Trace, i: nat, j: nat)
    requires i < |trace| && j < |trace|
  {
    trace[i].Some? && trace[i] == trace[j]
  }

  /** Turns of one session: at most one active, and stages falling along the trace. */
  ghost predicate Sessions(trace: Trace, place: seq<Place>, busy: set<string>)
    requires |place| == |trace|
  {
    && (forall s :: s in busy <==> HasActive(trace, place, s))
    && (forall i, j :: 0 <= i < j < |trace| && SameSession(trace, i, j) ==>
      Stage(place[i]) >= Stage(place[j]) && !(Active(place[i]) && Active(place[j])))
  }

  ghost predicate Started(x: Place) {
    x.AtIssue? || x.AtReport? || x.Done?
  }

  ghost predicate Answered(x: Place) {
    x.AtReport? || x.Done?
  }

  /** A log of turns: those with the given property, each once. */
  ghost predicate Logs(place: seq<Place>, issued: seq<nat>, results: seq<nat>) {
    && NoDups(issued) && NoDups(results)
    && (forall r :: r in issued ==> r < |place|)
    && (forall r :: r in results ==> r < |place|)
    && (forall r :: 0 <= r < |place| ==> (Started(place[r]) <==> r in issued))
    && (forall r :: 0 <= r < |place| ==> (Answered(place[r]) <==> r in results))
  }

  /** A session's turns start in trace order. */
  ghost predicate InOrder(trace: Trace, issued: seq<nat>) {
    && (forall a :: 0 <= a < |issued| ==> issued[a] < |trace|)
    && (forall a, b :: 0 <= a < b < |issued| && SameSession(trace, issued[a], issued[b]) ==> issued[a] < issued[b])
  }

  ghost function Unfinished(place: seq<Place>): nat {
    if place == [] then 0 else Unfinished(place[..|place| - 1]) + if place[|place| - 1].Done? then 0 else 1
  }

  ghost predicate Inv(trace: Trace, p: Pool) {
    && |p.place| == |trace|
    && Queues(p.place, p.next, p.hand, p.ready)
    && Threads(p.place, p.workers)
    && HeldTurns(trace, p.place, p.pending, p.busy)
    && Sessions(trace, p.place, p.busy)
    && Logs(p.place, p.issued, p.results) && InOrder(trace, p.issued)
    && p.left == Unfinished(p.place)
  }

  // ------------------------------------------------------------ one turn moves

  lemma {:induction false} UnfinishedUpdate(place: seq<Place>, r: nat, x: Place)
    requires r < |place|
    ensures Unfinished(place[r := x]) ==
      Unfinished(place) + (if x.Done? then 0 else 1) - (if place[r].Done? then 0 else 1)
  {
    var n := |place| - 1;
    if r < n {
      UnfinishedUpdate(place[..n], r, x);
      assert place[r := x][..n] == place[..n][r := x];
    } else {
      assert place[r := x][..n] == place[..n];
    }
  }

  predicate AtWorker(x: Place) {
    x.AtIssue? || x.AtReport?
  }

  lemma ThreadsFrame(place: seq<Place>, workers: seq<Worker>, r: nat, x: Place)
    requires Threads(place, workers) && r < |place| && !AtWorker(place[r]) && !AtWorker(x)
    ensures Threads(place[r := x], workers)
  {
    forall w | 0 <= w < |workers|
      ensures Attends(place[r := x], w, workers[w])
    {
      assert Attends(place, w, workers[w]);
    }
  }

  lemma HeldFrame(trace: Trace, place: seq<Place>, pending: map<string, seq<nat>>, busy: set<string>, r: nat, x: Place)
    requires |place| == |trace| && HeldTurns(trace, place, pending, busy) && r < |place| && !place[r].Held? && !x.Held?
    ensures HeldTurns(trace, place[r := x], pending, busy)
  {
    forall s | s in pending
      ensures HeldQueue(trace, place[r := x], s, pending[s])
    {
      assert HeldQueue(trace, place, s, pending[s]);
    }
    forall i | 0 <= i < |trace| && place[r := x][i] == Held
      ensures Waits(trace, pending, i)
    {
      assert place[i] == Held;
    }
  }

  lemma LogsFrame(place: seq<Place>, issued: seq<nat>, results: seq<nat>, r: nat, x: Place)
    requires Logs(place, issued, results) && r < |place|
    requires Started(place[r]) == Started(x) && Answered(place[r]) == Answered(x)
    ensures Logs(place[r := x], issued, results)
  {
  }

  /** An active turn that stays active changes nothing for its session. */
  lemma SessionsFrame(trace: Trace, place: seq<Place>, busy: set<string>, r: nat, x: Place)
    requires |place| == |trace| && Sessions(trace, place, busy) && r < |place|
    requires (Active(place[r]) && Active(x)) || trace[r].None?
    ensures Sessions(trace, place[r := x], busy)
  {
    forall s
      ensures HasActive(trace, place[r := x], s) <==> HasActive(trace, place, s)
    {
      if HasActive(trace, place, s) {
        var i :| 0 <= i < |trace| && ActiveIn(trace, place, s, i);
        assert ActiveIn(trace, place[r := x], s, i);
      }
      if HasActive(trace, place[r := x], s) {
        var i :| 0 <= i < |trace| && ActiveIn(trace, place[r := x], s, i);
        assert ActiveIn(trace, place, s, i);
      }
    }
  }

  // ------------------------------------------------------------ submitting

  lemma SubmitQueues(place: seq<Place>, next: nat, hand: Option<nat>, ready: seq<nat>)
    requires Queues(place, next, hand, ready) && next < |place| && hand.None?
    ensures Queues(place[next := Queued], next + 1, hand, ready + [next])
    ensures Queues(place[next := Held], next + 1, hand, ready)
    ensures Queues(place[next := InHand], next + 1, Some(next), ready)
  {
    assert place[next] == Unsubmitted;
  }

  lemma HoldTurn(trace: Trace, place: seq<Place>, next: nat, pending: map<string, seq<nat>>, busy: set<string>, s: string, held: seq<nat>)
    requires |place| == |trace| && next < |trace| && trace[next] == Some(s) && s in busy
    requires HeldTurns(trace, place, pending, busy)
    requires forall i :: 0 <= i < |place| && place[i] == Held ==> i < next
    requires held == if s in pending then pending[s] else []
    ensures HeldTurns(trace, place[next := Held], pending[s := held + [next]], busy)
  {
    var place', pending' := place[next := Held], pending[s := held + [next]];
    HeldQueueGrows(trace, place, s, held, next);
    forall t | t in pending'
      ensures t in busy && HeldQueue(trace, place', t, pending'[t])
    {
      if t != s {
        HeldQueueStays(trace, place, t, pending[t], next);
      }
    }
    forall i | 0 <= i < |trace| && place'[i] == Held
      ensures Waits(trace, pending', i)
    {
      if i != next {
        WaitsStill(trace, pending, s, held, next, i);
      } else {
        assert (held + [next])[|held|] == next;
      }
    }
  }

  lemma WaitsStill(trace: Trace, pending: map<string, seq<nat>>, s: string, held: seq<nat>, next: nat, i: nat)
    requires i < |trace| && Waits(trace, pending, i) && held == if s in pending then pending[s] else []
    ensures Waits(trace, pending[s := held + [next]], i)
  {
  }

  lemma HeldQueueGrows(trace: Trace, place: seq<Place>, s: string, q: seq<nat>, next: nat)
    requires |place| == |trace| && HeldQueue(trace, place, s, q) && next < |trace| && trace[next] == Some(s)
    requires forall i :: 0 <= i < |place| && place[i] == Held ==> i < next
    ensures HeldQueue(trace, place[next := Held], s, q + [next])
  {
  }

  lemma HeldQueueStays(trace: Trace, place: seq<Place>, s: string, q: seq<nat>, next: nat)
    requires |place| == |trace| && HeldQueue(trace, place, s, q) && next < |trace|
    ensures HeldQueue(trace, place[next := Held], s, q)
  {
  }

  lemma HoldSessions(trace: Trace, place: seq<Place>, next: nat, busy: set<string>, s: string)
    requires |place| == |trace| && next < |trace| && trace[next] == Some(s) && s in busy
    requires Sessions(trace, place, busy)
    requires forall i :: 0 <= i < |place| ==> (place[i] == Unsubmitted <==> next <= i)
    ensures Sessions(trace, place[next := Held], busy)
  {
    forall t
      ensures HasActive(trace, place[next := Held], t) <==> HasActive(trace, place, t)
    {
      if HasActive(trace, place, t) {
        var i :| 0 <= i < |trace| && ActiveIn(trace, place, t, i);
        assert ActiveIn(trace, place[next := Held], t, i);
      }
      if HasActive(trace, place[next := Held], t) {
        var i :| 0 <= i < |trace| && ActiveIn(trace, place[next := Held], t, i);
        assert ActiveIn(trace, place, t, i);
      }
    }
  }

  lemma TakeSessions(trace: Trace, place: seq<Place>, next: nat, pending: map<string, seq<nat>>, busy: set<string>, s: string)
    requires |place| == |trace| && next < |trace| && trace[next] == Some(s) && s !in busy
    requires Sessions(trace, place, busy) && HeldTurns(trace, place, pending, busy)
    requires forall i :: 0 <= i < |place| ==> (place[i] == Unsubmitted <==> next <= i)
    ensures Sessions(trace, place[next := InHand], busy + {s})
    ensures HeldTurns(trace, place[next := InHand], pending, busy + {s})
  {
    var place' := place[next := InHand];
    forall t
      ensures HasActive(trace, place', t) <==> t in busy + {s}
    {
      assert t in busy <==> HasActive(trace, place, t);
      if HasActive(trace, place, t) {
        var i :| 0 <= i < |trace| && ActiveIn(trace, place, t, i);
        assert ActiveIn(trace, place', t, i);
      }
      if HasActive(trace, place', t) {
        var i :| 0 <= i < |trace| && ActiveIn(trace, place', t, i);
        assert i != next ==> ActiveIn(trace, place, t, i);
      }
      assert ActiveIn(trace, place', s, next);
    }
    forall i | 0 <= i < next && SameSession(trace, i, next)
      ensures place[i] == Done
    {
      assert !ActiveIn(trace, place, s, i);
    }
    HeldFrame(trace, place, pending, busy, next, InHand);
  }

  lemma SubmitKeeps(trace: Trace, p: Pool)
    requires Inv(trace, p) && Enabled(trace, p, Submit)
    ensures Inv(trace, Apply(trace, p, Submit))
  {
    var r := p.next;
    var x := Apply(trace, p, Submit).place[r];
    assert p.place[r] == Unsubmitted;
    UnfinishedUpdate(p.place, r, x);
    SubmitQueues(p.place, r, p.hand, p.ready);
    ThreadsFrame(p.place, p.workers, r, x);
    LogsFrame(p.place, p.issued, p.results, r, x);
    SubmitTurns(trace, p);
  }

  /** Submitting a turn keeps its session in order, whichever way it goes. */
  lemma SubmitTurns(trace: Trace, p: Pool)
    requires |p.place| == |trace| && p.next < |trace|
    requires HeldTurns(trace, p.place, p.pending, p.busy) && Sessions(trace, p.place, p.busy)
    requires forall i :: 0 <= i < |p.place| ==> (p.place[i] == Unsubmitted <==> p.next <= i)
    ensures var q := SubmitNext(trace, p);
            |q.place| == |trace| && HeldTurns(trace, q.place, q.pending, q.busy) && Sessions(trace, q.place, q.busy)
  {
    var r := p.next;
    if trace[r].None? {
      HeldFrame(trace, p.place, p.pending, p.busy, r, Queued);
      SessionsFrame(trace, p.place, p.busy, r, Queued);
    } else if trace[r].value in p.busy {
      var s := trace[r].value;
      HoldTurn(trace, p.place, r, p.pending, p.busy, s, if s in p.pending then p.pending[s] else []);
      HoldSessions(trace, p.place, r, p.busy, s);
    } else {
      TakeSessions(trace, p.place, r, p.pending, p.busy, trace[r].value);
    }
  }

  lemma PutKeeps(trace: Trace, p: Pool)
    requires Inv(trace, p) && Enabled(trace, p, Put)
    ensures Inv(trace, Apply(trace, p, Put))
  {
    var r := p.hand.value;
    assert p.place[r] == InHand;
    UnfinishedUpdate(p.place, r, Queued);
    ThreadsFrame(p.place, p.workers, r, Queued);
    LogsFrame(p.place, p.issued, p.results, r, Queued);
    HeldFrame(trace, p.place, p.pending, p.busy, r, Queued);
    SessionsFrame(trace, p.place, p.busy, r, Queued);
    PutQueues(p.place, p.next, r, p.ready);
  }

  lemma PutQueues(place: seq<Place>, next: nat, r: nat, ready: seq<nat>)
    requires Queues(place, next, Some(r), ready)
    ensures Queues(place[r := Queued], next, None, ready + [r])
  {
  }

  // ------------------------------------------------------------ working

  lemma GetQueues(place: seq<Place>, next: nat, hand: Option<nat>, ready: seq<nat>, r: nat, w: nat)
    requires Queues(place, next, hand, ready) && ready != [] && r == ready[0] && r < |place|
    ensures Queues(place[r := AtIssue(w)], next, hand, ready[1..])
  {
    assert forall i :: i in ready <==> i == r || i in ready[1..];
    assert r in ready;
  }

  lemma GetThreads(place: seq<Place>, workers: seq<Worker>, r: nat, w: nat)
    requires Threads(place, workers) && r < |place| && !AtWorker(place[r]) && w < |workers| && workers[w].Idle?
    ensures Threads(place[r := AtIssue(w)], workers[w := Issuing(r)])
  {
    var place', workers' := place[r := AtIssue(w)], workers[w := Issuing(r)];
    forall v | 0 <= v < |workers|
      ensures Attends(place', v, workers'[v])
    {
      assert Attends(place, v, workers[v]);
    }
  }

  lemma GetLogs(trace: Trace, place: seq<Place>, busy: set<string>, issued: seq<nat>, results: seq<nat>, r: nat, w: nat)
    requires |place| == |trace| && r < |place| && place[r] == Queued && Sessions(trace, place, busy)
    requires Logs(place, issued, results) && InOrder(trace, issued)
    ensures Logs(place[r := AtIssue(w)], issued + [r], results)
    ensures InOrder(trace, issued + [r])
  {
    forall a | 0 <= a < |issued| && SameSession(trace, issued[a], r)
      ensures issued[a] < r
    {
      assert issued[a] in issued;
      if r < issued[a] {
        assert SameSession(trace, r, issued[a]);
      }
    }
  }

  lemma GetKeeps(trace: Trace, p: Pool, w: nat)
    requires Inv(trace, p) && Enabled(trace, p, Get(w))
    ensures Inv(trace, Apply(trace, p, Get(w)))
  {
    var r := p.ready[0];
    assert r in p.ready && p.place[r] == Queued;
    UnfinishedUpdate(p.place, r, AtIssue(w));
    GetQueues(p.place, p.next, p.hand, p.ready, r, w);
    GetThreads(p.place, p.workers, r, w);
    GetLogs(trace, p.place, p.busy, p.issued, p.results, r, w);
    HeldFrame(trace, p.place, p.pending, p.busy, r, AtIssue(w));
    SessionsFrame(trace, p.place, p.busy, r, AtIssue(w));
  }

  lemma QueuesFrame(place: seq<Place>, next: nat, hand: Option<nat>, ready: seq<nat>, r: nat, x: Place)
    requires Queues(place, next, hand, ready) && r < |place|
    requires AtWorker(place[r]) && (AtWorker(x) || x.Done?)
    ensures Queues(place[r := x], next, hand, ready)
  {
  }

  /** A worker moves on with its turn, or is done with it. */
  lemma WorkerMoves(place: seq<Place>, workers: seq<Worker>, w: nat, r: nat)
    requires Threads(place, workers) && w < |workers| && r < |place|
    ensures workers[w] == Issuing(r) ==> Threads(place[r := AtReport(w)], workers[w := Reported(r)])
    ensures workers[w] == Reported(r) ==> Threads(place[r := Done], workers[w := Idle])
  {
    if workers[w] == Issuing(r) {
      var place', workers' := place[r := AtReport(w)], workers[w := Reported(r)];
      forall v | 0 <= v < |workers|
        ensures Attends(place', v, workers'[v])
      {
        assert Attends(place, v, workers[v]);
        assert Attends(place, w, workers[w]);
      }
    }
    if workers[w] == Reported(r) {
      var place', workers' := place[r := Done], workers[w := Idle];
      forall v | 0 <= v < |workers|
        ensures Attends(place', v, workers'[v])
      {
        assert Attends(place, v, workers[v]);
        assert Attends(place, w, workers[w]);
      }
    }
  }

  lemma ReportKeeps(trace: Trace, p: Pool, w: nat)
    requires Inv(trace, p) && Enabled(trace, p, Report(w))
    ensures Inv(trace, Apply(trace, p, Report(w)))
  {
    var r := p.workers[w].rec;
    assert Attends(p.place, w, p.workers[w]);
    UnfinishedUpdate(p.place, r, AtReport(w));
    QueuesFrame(p.place, p.next, p.hand, p.ready, r, AtReport(w));
    WorkerMoves(p.place, p.workers, w, r);
    HeldFrame(trace, p.place, p.pending, p.busy, r, AtReport(w));
    SessionsFrame(trace, p.place, p.busy, r, AtReport(w));
    ReportLogs(p.place, p.issued, p.results, r, w);
  }

  lemma ReportLogs(place: seq<Place>, issued: seq<nat>, results: seq<nat>, r: nat, w: nat)
    requires Logs(place, issued, results) && r < |place| && place[r] == AtIssue(w)
    ensures Logs(place[r := AtReport(w)], issued, results + [r])
  {
  }

  // ------------------------------------------------------------ finishing

  /** The session hands over to its first held turn. */
  lemma HandOver(trace: Trace, place: seq<Place>, pending: map<string, seq<nat>>, busy: set<string>, r: nat, s: string, h: nat)
    requires |place| == |trace| && r < |trace| && trace[r] == Some(s) && AtWorker(place[r])
    requires Sessions(trace, place, busy) && HeldTurns(trace, place, pending, busy)
    requires s in pending && pending[s] != [] && h == pending[s][0]
    ensures h < |place| && place[h] == Held && h != r
    ensures Sessions(trace, place[r := Done][h := Queued], busy)
    ensures HeldTurns(trace, place[r := Done][h := Queued], pending[s := pending[s][1..]], busy)
  {
    assert HeldQueue(trace, place, s, pending[s]);
    HandOverActive(trace, place, busy, r, s, h);
    HandOverOrder(trace, place, pending, busy, r, s, h);
    HeldFrame(trace, place, pending, busy, r, Done);
    WakeHeld(trace, place[r := Done], pending, busy, s, h);
  }

  lemma WakeHeld(trace: Trace, place: seq<Place>, pending: map<string, seq<nat>>, busy: set<string>, s: string, h: nat)
    requires |place| == |trace| && HeldTurns(trace, place, pending, busy)
    requires s in pending && pending[s] != [] && h == pending[s][0] && h < |place|
    ensures HeldTurns(trace, place[h := Queued], pending[s := pending[s][1..]], busy)
  {
    var place', pending' := place[h := Queued], pending[s := pending[s][1..]];
    forall t | t in pending'
      ensures t in busy && HeldQueue(trace, place', t, pending'[t])
    {
      assert HeldQueue(trace, place, t, pending[t]) && HeldQueue(trace, place, s, pending[s]);
    }
    forall i | 0 <= i < |trace| && place'[i] == Held
      ensures Waits(trace, pending', i)
    {
      assert Waits(trace, pending, i);
      assert i in pending[s] ==> i in pending[s][1..];
    }
  }

  lemma HandOverActive(trace: Trace, place: seq<Place>, busy: set<string>, r: nat, s: string, h: nat)
    requires |place| == |trace| && r < |trace| && trace[r] == Some(s) && AtWorker(place[r])
    requires h < |trace| && trace[h] == Some(s) && place[h] == Held
    requires Sessions(trace, place, busy)
    ensures forall t :: t in busy <==> HasActive(trace, place[r := Done][h := Queued], t)
  {
    var place' := place[r := Done][h := Queued];
    forall t
      ensures HasActive(trace, place', t) <==> t in busy
    {
      assert t in busy <==> HasActive(trace, place, t);
      if HasActive(trace, place, t) {
        var i :| 0 <= i < |trace| && ActiveIn(trace, place, t, i);
        assert ActiveIn(trace, place', t, if i == r then h else i);
      }
      if HasActive(trace, place', t) {
        var i :| 0 <= i < |trace| && ActiveIn(trace, place', t, i);
        assert ActiveIn(trace, place, t, if i == h then r else i);
      }
    }
  }

  lemma HandOverOrder(trace: Trace, place: seq<Place>, pending: map<string, seq<nat>>, busy: set<string>, r: nat, s: string, h: nat)
    requires |place| == |trace| && r < |trace| && trace[r] == Some(s) && AtWorker(place[r])
    requires Sessions(trace, place, busy) && HeldTurns(trace, place, pending, busy)
    requires s in pending && pending[s] != [] && h == pending[s][0]
    requires h < |trace| && trace[h] == Some(s) && place[h] == Held
    ensures var place' := place[r := Done][h := Queued];
            forall i, j :: 0 <= i < j < |trace| && SameSession(trace, i, j) ==>
              Stage(place'[i]) >= Stage(place'[j]) && !(Active(place'[i]) && Active(place'[j]))
  {
    var place' := place[r := Done][h := Queued];
    forall i, j | 0 <= i < j < |trace| && SameSession(trace, i, j)
      ensures Stage(place'[i]) >= Stage(place'[j]) && !(Active(place'[i]) && Active(place'[j]))
    {
      OnlyActive(trace, place, busy, r, i);
      OnlyActive(trace, place, busy, r, j);
      FirstHeld(trace, place, pending, busy, s, i);
    }
  }

  /** No held turn of the session precedes the head of its queue. */
  lemma FirstHeld(trace: Trace, place: seq<Place>, pending: map<string, seq<nat>>, busy: set<string>, s: string, i: nat)
    requires |place| == |trace| && i < |trace| && HeldTurns(trace, place, pending, busy)
    requires s in pending && pending[s] != []
    ensures trace[i] == Some(s) && place[i] == Held ==> pending[s][0] <= i
  {
    if trace[i] == Some(s) && place[i] == Held {
      assert Waits(trace, pending, i) && HeldQueue(trace, place, s, pending[s]);
    }
  }

  lemma OnlyActive(trace: Trace, place: seq<Place>, busy: set<string>, r: nat, i: nat)
    requires |place| == |trace| && r < |trace| && i < |trace| && Sessions(trace, place, busy) && Active(place[r])
    ensures i != r && SameSession(trace, i, r) ==> !Active(place[i])
    ensures i < r && SameSession(trace, i, r) ==> place[i].Done?
    ensures r < i && SameSession(trace, i, r) ==> Stage(place[i]) <= 1
  {
    if i < r {
    } else if r < i && SameSession(trace, i, r) {
      assert SameSession(trace, r, i);
    }
  }

  /** With nothing held the session becomes free. */
  lemma FreeSession(trace: Trace, place: seq<Place>, pending: map<string, seq<nat>>, busy: set<string>, r: nat, s: string)
    requires |place| == |trace| && r < |trace| && trace[r] == Some(s) && AtWorker(place[r])
    requires Sessions(trace, place, busy) && HeldTurns(trace, place, pending, busy)
    requires s !in pending || pending[s] == []
    ensures Sessions(trace, place[r := Done], busy - {s})
    ensures HeldTurns(trace, place[r := Done], pending - {s}, busy - {s})
  {
    var place' := place[r := Done];
    forall t
      ensures HasActive(trace, place', t) <==> t in busy - {s}
    {
      assert t in busy <==> HasActive(trace, place, t);
      if HasActive(trace, place, t) && t != s {
        var i :| 0 <= i < |trace| && ActiveIn(trace, place, t, i);
        assert ActiveIn(trace, place', t, i);
      }
      if HasActive(trace, place', t) {
        var i :| 0 <= i < |trace| && ActiveIn(trace, place', t, i);
        assert ActiveIn(trace, place, t, i);
        OnlyActive(trace, place, busy, r, i);
      }
    }
    forall i, j | 0 <= i < j < |trace| && SameSession(trace, i, j)
      ensures Stage(place'[i]) >= Stage(place'[j]) && !(Active(place'[i]) && Active(place'[j]))
    {
      OnlyActive(trace, place, busy, r, i);
    }
    HeldFrame(trace, place, pending, busy, r, Done);
    DropSession(trace, place', pending, busy, s);
  }

  lemma DropSession(trace: Trace, place: seq<Place>, pending: map<string, seq<nat>>, busy: set<string>, s: string)
    requires |place| == |trace| && HeldTurns(trace, place, pending, busy) && (s !in pending || pending[s] == [])
    ensures HeldTurns(trace, place, pending - {s}, busy - {s})
  {
    forall i | 0 <= i < |trace| && place[i] == Held
      ensures Waits(trace, pending - {s}, i)
    {
      assert Waits(trace, pending, i);
    }
  }

  lemma WakeQueues(place: seq<Place>, next: nat, hand: Option<nat>, ready: seq<nat>, h: nat)
    requires Queues(place, next, hand, ready) && h < |place| && place[h] == Held
    ensures Queues(place[h := Queued], next, hand, ready + [h])
  {
  }

  lemma FinishKeeps(trace: Trace, p: Pool, w: nat)
    requires Inv(trace, p) && Enabled(trace, p, Finish(w))
    ensures Inv(trace, Apply(trace, p, Finish(w)))
  {
    var r := p.workers[w].rec;
    assert Attends(p.place, w, p.workers[w]);
    UnfinishedUpdate(p.place, r, Done);
    QueuesFrame(p.place, p.next, p.hand, p.ready, r, Done);
    WorkerMoves(p.place, p.workers, w, r);
    LogsFrame(p.place, p.issued, p.results, r, Done);
    FinishTurns(trace, p, w);
    if trace[r].Some? && trace[r].value in p.pending && p.pending[trace[r].value] != [] {
      WakeOthers(p, p.place[r := Done], p.workers[w := Idle], p.pending[trace[r].value][0]);
    }
  }

  /** Finishing a turn keeps its session in order, and a woken turn was held. */
  lemma FinishTurns(trace: Trace, p: Pool, w: nat)
    requires |p.place| == |trace| && Enabled(trace, p, Finish(w))
    requires HeldTurns(trace, p.place, p.pending, p.busy) && Sessions(trace, p.place, p.busy)
    requires Attends(p.place, w, p.workers[w])
    ensures var q := FinishTurn(trace, p, w);
            |q.place| == |trace| && HeldTurns(trace, q.place, q.pending, q.busy) && Sessions(trace, q.place, q.busy)
    ensures var t := trace[p.workers[w].rec];
            t.Some? && t.value in p.pending && p.pending[t.value] != [] ==>
              var h := p.pending[t.value][0]; h < |p.place| && p.place[h] == Held && h != p.workers[w].rec
  {
    var r := p.workers[w].rec;
    if trace[r].None? {
      HeldFrame(trace, p.place, p.pending, p.busy, r, Done);
      SessionsFrame(trace, p.place, p.busy, r, Done);
    } else if trace[r].value in p.pending && p.pending[trace[r].value] != [] {
      var s := trace[r].value;
      HandOver(trace, p.place, p.pending, p.busy, r, s, p.pending[s][0]);
    } else {
      FreeSession(trace, p.place, p.pending, p.busy, r, trace[r].value);
    }
  }

  /** Waking a held turn concerns the ready queue only. */
  lemma WakeOthers(p: Pool, place: seq<Place>, workers: seq<Worker>, h: nat)
    requires h < |place| && place[h] == Held
    requires Queues(place, p.next, p.hand, p.ready) && Threads(place, workers) && Logs(place, p.issued, p.results)
    ensures Queues(place[h := Queued], p.next, p.hand, p.ready + [h])
    ensures Threads(place[h := Queued], workers) && Logs(place[h := Queued], p.issued, p.results)
    ensures Unfinished(place[h := Queued]) == Unfinished(place)
  {
    WakeQueues(place, p.next, p.hand, p.ready, h);
    UnfinishedUpdate(place, h, Queued);
    ThreadsFrame(place, workers, h, Queued);
    LogsFrame(place, p.issued, p.results, h, Queued);
  }

  lemma StepKeeps(trace: Trace, p: Pool, a: Action)
    requires Inv(trace, p) && Enabled(trace, p, a)
    ensures Inv(trace, Apply(trace, p, a))
  {
    match a
    case Submit => SubmitKeeps(trace, p);
    case Put => PutKeeps(trace, p);
    case Get(w) => GetKeeps(trace, p, w);
    case Report(w) => ReportKeeps(trace, p, w);
    case Finish(w) => FinishKeeps(trace, p, w);
  }

  // ------------------------------------------------------------ whole runs

  /** A run: states linked by enabled actions, from the start of a replay with `n` workers. */
  ghost predicate Run(trace: Trace, n: nat, states: seq<Pool>, acts: seq<Action>) {
    && |states| == |acts| + 1 && states[0] == Initial(trace, n)
    && forall k :: 0 <= k < |acts| ==> Linked(trace, states, acts, k)
  }

  ghost predicate Linked(trace: Trace, states: seq<Pool>, acts: seq<Action>, k: nat)
    requires k < |acts| && |states| == |acts| + 1
  {
    Enabled(trace, states[k], acts[k]) && states[k + 1] == Apply(trace, states[k], acts[k])
  }

  lemma {:induction false} InitialUnfinished(n: nat)
    ensures Unfinished(seq(n, i => Unsubmitted)) == n
  {
    if n > 0 {
      InitialUnfinished(n - 1);
      assert seq(n, i => Unsubmitted)[..n - 1] == seq(n - 1, i => Unsubmitted);
    }
  }

  lemma InitialInv(trace: Trace, n: nat)
    ensures Inv(trace, Initial(trace, n))
  {
    var p := Initial(trace, n);
    InitialUnfinished(|trace|);
    assert Queues(p.place, p.next, p.hand, p.ready) && Threads(p.place, p.workers);
    assert forall s :: !HasActive(trace, p.place, s);
    assert Sessions(trace, p.place, p.busy) && HeldTurns(trace, p.place, p.pending, p.busy);
  }

  /** The invariant holds in every state of every interleaving. */
  lemma {:induction false} RunKeepsInv(trace: Trace, n: nat, states: seq<Pool>, acts: seq<Action>, k: nat)
    requires Run(trace, n, states, acts) && k < |states|
    ensures Inv(trace, states[k]) && |states[k].workers| == n
  {
    if k == 0 {
      InitialInv(trace, n);
    } else {
      RunKeepsInv(trace, n, states, acts, k - 1);
      RunStep(trace, n, states, acts, k - 1);
    }
  }

  lemma RunStep(trace: Trace, n: nat, states: seq<Pool>, acts: seq<Action>, k: nat)
    requires Run(trace, n, states, acts) && k < |acts| && Inv(trace, states[k])
    ensures Inv(trace, states[k + 1]) && |states[k + 1].workers| == |states[k].workers|
  {
    assert Linked(trace, states, acts, k);
    StepKeeps(trace, states[k], acts[k]);
    ApplyWorkers(trace, states[k], acts[k]);
  }

  lemma ApplyWorkers(trace: Trace, p: Pool, a: Action)
    requires Enabled(trace, p, a)
    ensures |Apply(trace, p, a).workers| == |p.workers|
  {
  }

  /** The turn a worker has taken and not yet accounted for. */
  function TurnOf(x: Worker): Option<nat> {
    match x
    case Idle => None
    case Issuing(r) => Some(r)
    case Reported(r) => Some(r)
  }

  /** No two workers ever hold turns of the same session. */
  lemma TurnsNeverOverlap(trace: Trace, n: nat, states: seq<Pool>, acts: seq<Action>, k: nat, v: nat, w: nat)
    requires Run(trace, n, states, acts) && k < |states| && v < n && w < n && v != w
    ensures |states[k].workers| == n
    ensures var a, b := TurnOf(states[k].workers[v]), TurnOf(states[k].workers[w]);
            a.Some? && b.Some? ==>
              a.value < |trace| && b.value < |trace| && a != b && !SameSession(trace, a.value, b.value)
  {
    RunKeepsInv(trace, n, states, acts, k);
    var p := states[k];
    assert Attends(p.place, v, p.workers[v]) && Attends(p.place, w, p.workers[w]);
    var a, b := TurnOf(p.workers[v]), TurnOf(p.workers[w]);
    if a.Some? && b.Some? && a != b && SameSession(trace, a.value, b.value) {
      OnlyActive(trace, p.place, p.busy, a.value, b.value);
    }
  }

  /** When a turn is taken for issue, every earlier turn of its session is finished. */
  lemma IssueWaitsForPredecessors(trace: Trace, n: nat, states: seq<Pool>, acts: seq<Action>, k: nat, i: nat)
    requires Run(trace, n, states, acts) && k < |acts| && acts[k].Get?
    ensures states[k].ready != [] && states[k].ready[0] < |trace| == |states[k].place|
    ensures i < states[k].ready[0] && SameSession(trace, i, states[k].ready[0]) ==>
              states[k].place[i].Done? && i in states[k].results
  {
    RunKeepsInv(trace, n, states, acts, k);
    assert Linked(trace, states, acts, k);
    var p := states[k];
    var r := p.ready[0];
    assert r in p.ready && p.place[r] == Queued;
    if i < r {
      OnlyActive(trace, p.place, p.busy, r, i);
    }
  }

  /** A session's turns start in trace order, each at most once. */
  lemma IssueOrder(trace: Trace, n: nat, states: seq<Pool>, acts: seq<Action>, k: nat)
    requires Run(trace, n, states, acts) && k < |states|
    ensures InOrder(trace, states[k].issued) && NoDups(states[k].issued)
  {
    RunKeepsInv(trace, n, states, acts, k);
  }

  // ------------------------------------------------------------ first ready, first issued

  /** An action appends to what has become ready, to what was issued and to the results. */
  lemma StepAppends(trace: Trace, p: Pool, a: Action)
    requires Enabled(trace, p, a)
    ensures var q := Apply(trace, p, a);
            p.issued + p.ready <= q.issued + q.ready && p.issued <= q.issued && p.results <= q.results
  {
    if a.Get? {
      assert p.ready == [p.ready[0]] + p.ready[1..];
    }
  }

  /** The ready queue is first in, first out: what was issued or ready stays in front, in its order. */
  lemma {:induction false} ReadyIsFifo(trace: Trace, n: nat, states: seq<Pool>, acts: seq<Action>, j: nat, k: nat)
    requires Run(trace, n, states, acts) && j <= k < |states|
    ensures states[j].issued + states[j].ready <= states[k].issued + states[k].ready
    ensures states[j].issued <= states[k].issued && states[j].results <= states[k].results
    decreases k
  {
    if j < k {
      ReadyIsFifo(trace, n, states, acts, j, k - 1);
      assert Linked(trace, states, acts, k - 1);
      StepAppends(trace, states[k - 1], acts[k - 1]);
    }
  }

  /** A turn that became ready before another is issued before it. */
  lemma FirstReadyFirstIssued(trace: Trace, n: nat, states: seq<Pool>, acts: seq<Action>, j: nat, k: nat, a: nat, b: nat)
    returns (x: nat, y: nat)
    requires Run(trace, n, states, acts) && j <= k < |states|
    requires (a in states[j].issued || a in states[j].ready) && b !in states[j].issued && b !in states[j].ready
    requires b in states[k].issued
    ensures x < y < |states[k].issued| && states[k].issued[x] == a && states[k].issued[y] == b
  {
    ReadyIsFifo(trace, n, states, acts, j, k);
    var before, after := states[j].issued + states[j].ready, states[k].issued + states[k].ready;
    assert a in before && b !in before;
    x :| 0 <= x < |before| && before[x] == a;
    y :| 0 <= y < |states[k].issued| && states[k].issued[y] == b;
    assert after[y] == b;
    NotInPrefix(before, after, y);
  }

  lemma NotInPrefix(before: seq<nat>, after: seq<nat>, y: nat)
    requires before <= after && y < |after| && after[y] !in before
    ensures |before| <= y
  {
  }

  /** The first n numbers. */
  function Counting(n: nat): seq<nat> {
    seq(n, i => i)
  }

  /** Turns without a session become ready in trace order. */
  lemma {:induction false} SessionlessReady(trace: Trace, n: nat, states: seq<Pool>, acts: seq<Action>, k: nat)
    requires Run(trace, n, states, acts) && k < |states| && forall r :: 0 <= r < |trace| ==> trace[r].None?
    ensures states[k].hand.None? && states[k].issued + states[k].ready == Counting(states[k].next)
  {
    if k > 0 {
      var p, a := states[k - 1], acts[k - 1];
      SessionlessReady(trace, n, states, acts, k - 1);
      assert Linked(trace, states, acts, k - 1);
      assert Counting(p.next + 1) == Counting(p.next) + [p.next];
      match a
      case Submit =>
        assert p.issued + (p.ready + [p.next]) == p.issued + p.ready + [p.next];
      case Put =>
      case Get(w) =>
        assert p.ready == [p.ready[0]] + p.ready[1..];
      case Report(w) =>
      case Finish(w) =>
        assert SessionOf(trace, p.workers[w].rec).None?;
    }
  }

  /** A trace without sessions is issued in its own order. */
  lemma SessionlessInOrder(trace: Trace, n: nat, states: seq<Pool>, acts: seq<Action>, k: nat, i: nat)
    requires Run(trace, n, states, acts) && k < |states| && forall r :: 0 <= r < |trace| ==> trace[r].None?
    requires i < |states[k].issued|
    ensures states[k].issued[i] == i
  {
    SessionlessReady(trace, n, states, acts, k);
    assert (states[k].issued + states[k].ready)[i] == Counting(states[k].next)[i];
  }

  // ------------------------------------------------------------ nothing lost, nothing twice

  predicate AtSomeWorker(p: Pool, r: nat) {
    exists w :: 0 <= w < |p.workers| && TurnOf(p.workers[w]) == Some(r)
  }

  ghost predicate HeldSomewhere(p: Pool, r: nat) {
    exists s :: s in p.pending && r in p.pending[s]
  }

  /** In how many of the real structures a turn sits; a finished turn sits in none of them. */
  ghost function Sightings(p: Pool, r: nat): nat {
    (if p.next <= r then 1 else 0) + (if p.hand == Some(r) then 1 else 0) + (if r in p.ready then 1 else 0)
    + (if AtSomeWorker(p, r) then 1 else 0) + (if HeldSomewhere(p, r) then 1 else 0)
  }

  lemma WhereHeld(trace: Trace, p: Pool, r: nat)
    requires Inv(trace, p) && r < |trace|
    ensures HeldSomewhere(p, r) <==> p.place[r] == Held
    ensures AtSomeWorker(p, r) <==> AtWorker(p.place[r])
  {
    if p.place[r] == Held {
      assert Waits(trace, p.pending, r);
    }
    if HeldSomewhere(p, r) {
      var s :| s in p.pending && r in p.pending[s];
      assert HeldQueue(trace, p.place, s, p.pending[s]);
    }
    if AtWorker(p.place[r]) {
      assert TurnOf(p.workers[p.place[r].w]) == Some(r);
    }
    if AtSomeWorker(p, r) {
      var w :| 0 <= w < |p.workers| && TurnOf(p.workers[w]) == Some(r);
      assert Attends(p.place, w, p.workers[w]);
    }
  }

  /** Every turn is in exactly one place: waiting somewhere, or finished with a result. */
  lemma TurnsConserved(trace: Trace, n: nat, states: seq<Pool>, acts: seq<Action>, k: nat, r: nat)
    requires Run(trace, n, states, acts) && k < |states| && r < |trace|
    ensures |states[k].place| == |trace|
    ensures Sightings(states[k], r) == if states[k].place[r].Done? then 0 else 1
    ensures states[k].place[r].Done? ==> r in states[k].results
    ensures NoDups(states[k].results)
  {
    RunKeepsInv(trace, n, states, acts, k);
    WhereHeld(trace, states[k], r);
  }

  /** The turn is in hand, queued or at a worker. */
  ghost predicate Engaged(p: Pool, r: nat) {
    p.hand == Some(r) || r in p.ready || AtSomeWorker(p, r)
  }

  lemma EngagedIsActive(trace: Trace, p: Pool, r: nat)
    requires Inv(trace, p) && r < |trace|
    ensures Engaged(p, r) <==> Active(p.place[r])
  {
    WhereHeld(trace, p, r);
  }

  /** No two turns of a session are both in hand, queued or at a worker. */
  lemma OneEngaged(trace: Trace, n: nat, states: seq<Pool>, acts: seq<Action>, k: nat, a: nat, b: nat)
    requires Run(trace, n, states, acts) && k < |states| && a < |trace| && b < |trace|
    requires SameSession(trace, a, b) && Engaged(states[k], a) && Engaged(states[k], b)
    ensures a == b
  {
    RunKeepsInv(trace, n, states, acts, k);
    EngagedIsActive(trace, states[k], a);
    EngagedIsActive(trace, states[k], b);
  }

  /** A held turn has its session busy with exactly one turn in hand, queued or at a worker, and that one is earlier. */
  lemma HeldBehindActive(trace: Trace, n: nat, states: seq<Pool>, acts: seq<Action>, k: nat, r: nat) returns (b: nat)
    requires Run(trace, n, states, acts) && k < |states| && r < |trace| && HeldSomewhere(states[k], r)
    ensures trace[r].Some? && trace[r].value in states[k].busy
    ensures b < r && SameSession(trace, b, r) && Engaged(states[k], b)
    ensures forall c :: 0 <= c < |trace| && SameSession(trace, c, r) && Engaged(states[k], c) ==> c == b
  {
    RunKeepsInv(trace, n, states, acts, k);
    var p := states[k];
    WhereHeld(trace, p, r);
    assert Waits(trace, p.pending, r);
    var s := trace[r].value;
    assert s in p.busy && HasActive(trace, p.place, s);
    b :| 0 <= b < |trace| && ActiveIn(trace, p.place, s, b);
    EngagedIsActive(trace, p, b);
    if r < b {
      assert SameSession(trace, r, b);
    }
    forall c | 0 <= c < |trace| && SameSession(trace, c, r) && Engaged(p, c)
      ensures c == b
    {
      OneEngaged(trace, n, states, acts, k, c, b);
    }
  }

  lemma {:induction false} AllDone(place: seq<Place>, r: nat)
    requires Unfinished(place) == 0 && r < |place|
    ensures place[r].Done?
  {
    if r < |place| - 1 {
      AllDone(place[..|place| - 1], r);
    }
  }

  /** Whatever is next, in hand, queued, at a worker or first in a held queue is marked so. */
  ghost predicate Marked(trace: Trace, p: Pool) {
    && (p.next < |trace| ==> p.next < |p.place| && p.place[p.next] == Unsubmitted)
    && (p.hand.Some? ==> p.hand.value < |p.place| && p.place[p.hand.value] == InHand)
    && (p.ready != [] ==> p.ready[0] < |p.place| && p.place[p.ready[0]] == Queued)
    && (forall w :: 0 <= w < |p.workers| ==> Attends(p.place, w, p.workers[w]))
    && (forall s :: s in p.pending && p.pending[s] != [] ==> p.pending[s][0] < |p.place| && p.place[p.pending[s][0]] == Held)
  }

  lemma AllMarked(trace: Trace, p: Pool)
    requires Inv(trace, p)
    ensures Marked(trace, p)
  {
    if p.ready != [] {
      assert p.ready[0] in p.ready;
    }
    forall s | s in p.pending && p.pending[s] != []
      ensures p.pending[s][0] < |p.place| && p.place[p.pending[s][0]] == Held
    {
      assert HeldQueue(trace, p.place, s, p.pending[s]);
    }
  }

  /** When the count reaches zero every turn has its result and nothing is queued, held or busy. */
  lemma FinishedIsEmpty(trace: Trace, n: nat, states: seq<Pool>, acts: seq<Action>, k: nat)
    requires Run(trace, n, states, acts) && k < |states| && states[k].left <= 0
    ensures var p := states[k];
            && p.next == |trace| && p.hand.None? && p.ready == [] && p.busy == {} && p.pending == map[]
            && (forall w :: 0 <= w < |p.workers| ==> p.workers[w].Idle?)
            && (forall r :: 0 <= r < |trace| ==> r in p.results) && |p.results| == |trace|
  {
    RunKeepsInv(trace, n, states, acts, k);
    var p := states[k];
    AllMarked(trace, p);
    forall r | 0 <= r < |trace|
      ensures p.place[r].Done? && r in p.results
    {
      AllDone(p.place, r);
    }
    forall s
      ensures s !in p.busy
    {
      assert !HasActive(trace, p.place, s);
    }
    AllPresent(p.results, |trace|);
  }

  ghost function Upto(n: nat): (s: set<nat>)
    ensures forall r: nat :: r in s <==> r < n
    ensures |s| == n
  {
    if n == 0 then {} else Upto(n - 1) + {n - 1}
  }

  /** A list without repeats that holds exactly 0..n-1 has length n. */
  lemma AllPresent(s: seq<nat>, n: nat)
    requires NoDups(s) && (forall r :: r in s ==> r < n) && (forall r: nat :: r < n ==> r in s)
    ensures |s| == n
  {
    NoDupsSize(s);
    assert Elems(s) == Upto(n);
  }

  ghost function Elems(s: seq<nat>): set<nat> {
    set r | r in s
  }

  lemma {:induction false} NoDupsSize(s: seq<nat>)
    requires NoDups(s)
    ensures |Elems(s)| == |s|
  {
    if s == [] {
      assert Elems(s) == {};
    } else {
      var m := |s| - 1;
      NoDupsSize(s[..m]);
      assert s[m] !in s[..m];
      assert Elems(s) == Elems(s[..m]) + {s[m]};
    }
  }

  // ------------------------------------------------------------ progress

  /** Until everything is finished some action is possible: the pool cannot wedge. */
  lemma NeverWedged(trace: Trace, n: nat, states: seq<Pool>, acts: seq<Action>, k: nat) returns (a: Action)
    requires Run(trace, n, states, acts) && k < |states| && states[k].left > 0 && n > 0
    ensures Enabled(trace, states[k], a)
  {
    RunKeepsInv(trace, n, states, acts, k);
    var p := states[k];
    QuietIsFinished(trace, p);
    if p.hand.Some? {
      a := Put;
    } else if p.next < |trace| {
      a := Submit;
    } else if w :| 0 <= w < |p.workers| && !p.workers[w].Idle? {
      a := if p.workers[w].Issuing? then Report(w) else Finish(w);
    } else {
      a := Get(0);
    }
  }

  /** With everything submitted, nothing queued and every worker idle, nothing is left. */
  lemma QuietIsFinished(trace: Trace, p: Pool)
    requires Inv(trace, p)
    ensures p.hand.None? && p.next == |trace| && p.ready == [] && (forall w :: 0 <= w < |p.workers| ==> p.workers[w].Idle?) ==>
              p.left == 0
  {
    if p.hand.None? && p.next == |trace| && p.ready == [] && forall w :: 0 <= w < |p.workers| ==> p.workers[w].Idle? {
      assert forall r :: 0 <= r < |trace| ==> !Active(p.place[r]);
      forall s
        ensures s !in p.busy
      {
        assert !HasActive(trace, p.place, s);
      }
      forall r | 0 <= r < |trace|
        ensures p.place[r].Done?
      {
        assert p.place[r] != Unsubmitted;
      }
      NoneUnfinished(p.place);
    }
  }

  lemma {:induction false} NoneUnfinished(place: seq<Place>)
    requires forall r :: 0 <= r < |place| ==> place[r].Done?
    ensures Unfinished(place) == 0
  {
    if place != [] {
      NoneUnfinished(place[..|place| - 1]);
    }
  }

  /** Who takes an action: worker w, or the submitter. */
  function Actor(a: Action): Option<nat> {
    match a
    case Submit => None
    case Put => None
    case Get(w) => Some(w)
    case Report(w) => Some(w)
    case Finish(w) => Some(w)
  }

  /** No thread can stop another, except by taking the only ready turn before it. */
  lemma StaysEnabled(trace: Trace, p: Pool, a: Action, b: Action)
    requires Enabled(trace, p, a) && Enabled(trace, p, b) && Actor(a) != Actor(b)
    ensures Enabled(trace, Apply(trace, p, b), a) <==> !(a.Get? && b.Get? && |p.ready| == 1)
  {
  }

  /** How many actions a turn still needs at most. */
  function Steps(x: Place): nat {
    match x
    case Unsubmitted => 5
    case InHand => 4
    case Held => 4
    case Queued => 3
    case AtIssue(_) => 2
    case AtReport(_) => 1
    case Done => 0
  }

  ghost function Work(place: seq<Place>): nat {
    if place == [] then 0 else Work(place[..|place| - 1]) + Steps(place[|place| - 1])
  }

  lemma {:induction false} WorkUpdate(place: seq<Place>, r: nat, x: Place)
    requires r < |place|
    ensures Work(place[r := x]) == Work(place) - Steps(place[r]) + Steps(x)
  {
    var n := |place| - 1;
    if r < n {
      WorkUpdate(place[..n], r, x);
      assert place[r := x][..n] == place[..n][r := x];
    } else {
      assert place[r := x][..n] == place[..n];
    }
  }

  lemma {:induction false} WorkBound(place: seq<Place>)
    ensures Work(place) <= 5 * |place|
  {
    if place != [] {
      WorkBound(place[..|place| - 1]);
    }
  }

  lemma StepWorks(trace: Trace, p: Pool, a: Action)
    requires Marked(trace, p) && Enabled(trace, p, a)
    ensures Work(Apply(trace, p, a).place) < Work(p.place)
  {
    match a
    case Submit =>
      MarkWorks(p.place, p.next, Queued);
      MarkWorks(p.place, p.next, Held);
      MarkWorks(p.place, p.next, InHand);
    case Put =>
      MarkWorks(p.place, p.hand.value, Queued);
    case Get(w) =>
      MarkWorks(p.place, p.ready[0], AtIssue(w));
    case Report(w) =>
      assert Attends(p.place, w, p.workers[w]);
      MarkWorks(p.place, p.workers[w].rec, AtReport(w));
    case Finish(w) =>
      assert Attends(p.place, w, p.workers[w]);
      MarkWorks(p.place, p.workers[w].rec, Done);
      match SessionOf(trace, p.workers[w].rec)
      case None =>
      case Some(s) =>
        if s in p.pending && p.pending[s] != [] {
          MarkWorks(Mark(p.place, p.workers[w].rec, Done), p.pending[s][0], Queued);
        }
  }

  lemma MarkWorks(place: seq<Place>, r: nat, x: Place)
    requires r < |place|
    ensures Steps(x) < Steps(place[r]) ==> Work(Mark(place, r, x)) < Work(place)
  {
    WorkUpdate(place, r, x);
  }

  lemma {:induction false} RunWorks(trace: Trace, n: nat, states: seq<Pool>, acts: seq<Action>, k: nat)
    requires Run(trace, n, states, acts) && k < |states|
    ensures Work(states[k].place) + k <= 5 * |trace|
  {
    if k == 0 {
      WorkBound(states[0].place);
    } else {
      RunWorks(trace, n, states, acts, k - 1);
      RunKeepsInv(trace, n, states, acts, k - 1);
      assert Linked(trace, states, acts, k - 1);
      AllMarked(trace, states[k - 1]);
      StepWorks(trace, states[k - 1], acts[k - 1]);
    }
  }

  /** No interleaving is longer than five actions a turn; with `NeverWedged`, every replay finishes. */
  lemma RunsEnd(trace: Trace, n: nat, states: seq<Pool>, acts: seq<Action>)
    requires Run(trace, n, states, acts)
    ensures |acts| <= 5 * |trace|
  {
    RunWorks(trace, n, states, acts, |acts|);
  }

  // ------------------------------------------------------------ the object

  /**
   The replayer's shared fields. Each method is what one thread does between two points where
   another may run: a critical section, or one operation on the thread-safe queue.
   */
  class Replayer {
    const trace: Trace
    var next: nat
    var hand: Option<nat>
    var ready: seq<nat>
    var pending: map<string, seq<nat>>
    var busy: set<string>
    var left: int
    var workers: seq<Worker>
    var results: seq<nat>
    ghost var issued: seq<nat>
    ghost var place: seq<Place>

    ghost function Now(): Pool
      reads this
    {
      Pool(next, hand, ready, pending, busy, left, workers, results, issued, place)
    }

    constructor (trace: Trace, n: nat)
      ensures this.trace == trace && Now() == Initial(trace, n)
    {
      this.trace := trace;
      next, hand, ready, pending, busy, left := 0, None, [], map[], {}, |trace|;
      workers, results := seq(n, i => Idle), [];
      issued, place := [], seq(|trace|, i => Unsubmitted);
    }

    /** The submitter reaches its next turn. */
    method SubmitTurn()
      requires Enabled(trace, Now(), Submit)
      modifies this
      ensures Now() == Apply(trace, old(Now()), Submit)
    {
      var r := next;
      next := next + 1;
      if trace[r].None? {
        ready := ready + [r];
        place := Mark(place, r, Queued);
        return;
      }
      var s := trace[r].value;
      if s in busy {
        pending := pending[s := (if s in pending then pending[s] else []) + [r]];
        place := Mark(place, r, Held);
        return;
      }
      busy := busy + {s};
      hand := Some(r);
      place := Mark(place, r, InHand);
    }

    /** The submitter, out of the lock, queues the turn it marked busy. */
    method PutTurn()
      requires Enabled(trace, Now(), Put)
      modifies this
      ensures Now() == Apply(trace, old(Now()), Put)
    {
      ready := ready + [hand.value];
      place := Mark(place, hand.value, Queued);
      hand := None;
    }

    /** A worker takes the oldest ready turn and starts issuing it. */
    method GetTurn(w: nat)
      requires Enabled(trace, Now(), Get(w))
      modifies this
      ensures Now() == Apply(trace, old(Now()), Get(w))
    {
      var r := ready[0];
      ready := ready[1..];
      workers := workers[w := Issuing(r)];
      issued, place := issued + [r], Mark(place, r, AtIssue(w));
    }

    /** The answer, or the error that replaced it, is recorded. */
    method ReportTurn(w: nat)
      requires Enabled(trace, Now(), Report(w))
      modifies this
      ensures Now() == Apply(trace, old(Now()), Report(w))
    {
      var r := workers[w].rec;
      results := results + [r];
      workers := workers[w := Reported(r)];
      place := Mark(place, r, AtReport(w));
    }

    /** The worker's final critical section: wake the next held turn or free the session. */
    method EndTurn(w: nat)
      requires Enabled(trace, Now(), Finish(w))
      modifies this
      ensures Now() == Apply(trace, old(Now()), Finish(w))
    {
      var r := workers[w].rec;
      place := Mark(place, r, Done);
      var session := SessionOf(trace, r);
      if session.Some? {
        var s := session.value;
        if s in pending && pending[s] != [] {
          var h := pending[s][0];
          pending := pending[s := pending[s][1..]];
          ready := ready + [h];
          place := Mark(place, h, Queued);
        } else {
          pending := pending - {s};
          busy := busy - {s};
        }
      }
      workers := workers[w := Idle];
      left := left - 1;
    }
  }
}
