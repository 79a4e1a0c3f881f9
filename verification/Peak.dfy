/** The largest number of requests in flight, by one sweep over sorted arrival and finish events. */
module Peak {
  import opened Sorting

  /** A request is in flight from its arrival, for its duration. */
  datatype Request = Request(t: real, duration: real) {
    predicate Covers(x: real) {
      t <= x < t + duration
    }
  }

  /** How many requests are in flight at the instant x. */
  function InFlight(rs: seq<Request>, x: real): nat {
    if rs == [] then 0 else InFlight(rs[..|rs| - 1], x) + if rs[|rs| - 1].Covers(x) then 1 else 0
  }

  /** How many requests with a negative duration have x between their end and their start. */
  function Inverted(rs: seq<Request>, x: real): nat {
    if rs == [] then 0 else
      var r := rs[|rs| - 1];
      Inverted(rs[..|rs| - 1], x) + if r.t + r.duration <= x < r.t then 1 else 0
  }

  datatype Event = Event(time: real, delta: int)

  /** By time; a finish before an arrival at the same time. */
  predicate EventLe(a: Event, b: Event) {
    a.time < b.time || (a.time == b.time && a.delta <= b.delta)
  }

  function Events(rs: seq<Request>): seq<Event> {
    if rs == [] then [] else
      var r := rs[|rs| - 1];
      Events(rs[..|rs| - 1]) + [Event(r.t, 1), Event(r.t + r.duration, -1)]
  }

  function Total(es: seq<Event>): int {
    if es == [] then 0 else es[0].delta + Total(es[1..])
  }

  /** The sum of the events up to the instant x. */
  function Net(es: seq<Event>, x: real): int {
    if es == [] then 0 else (if es[0].time <= x then es[0].delta else 0) + Net(es[1..], x)
  }

  lemma {:induction false} NetConcat(a: seq<Event>, b: seq<Event>, x: real)
    ensures Net(a + b, x) == Net(a, x) + Net(b, x)
  {
    if a == [] {
      assert a + b == b;
    } else {
      NetConcat(a[1..], b, x);
      assert (a + b)[1..] == a[1..] + b;
    }
  }

  lemma {:induction false} TotalConcat(a: seq<Event>, b: seq<Event>)
    ensures Total(a + b) == Total(a) + Total(b)
  {
    if a == [] {
      assert a + b == b;
    } else {
      TotalConcat(a[1..], b);
      assert (a + b)[1..] == a[1..] + b;
    }
  }

  lemma {:induction false} NoneInverted(rs: seq<Request>, x: real)
    requires forall i :: 0 <= i < |rs| ==> rs[i].duration >= 0.0
    ensures Inverted(rs, x) == 0
  {
    if rs != [] {
      NoneInverted(rs[..|rs| - 1], x);
    }
  }

  /** Starts up to x less finishes up to x are the requests in flight at x, less those that end before they start. */
  lemma {:induction false} NetIsInFlight(rs: seq<Request>, x: real)
    ensures Net(Events(rs), x) == InFlight(rs, x) - Inverted(rs, x)
  {
    if rs != [] {
      var n := |rs| - 1;
      var r := rs[n];
      NetIsInFlight(rs[..n], x);
      var pair := [Event(r.t, 1), Event(r.t + r.duration, -1)];
      NetConcat(Events(rs[..n]), pair, x);
      var finish := [Event(r.t + r.duration, -1)];
      assert pair[1..] == finish && finish[1..] == [];
      assert Net(finish, x) == if r.t + r.duration <= x then -1 else 0;
    }
  }

  lemma {:induction false} InsertNet(e: Event, es: seq<Event>, x: real)
    ensures Net(Insert(EventLe, e, es), x) == Net([e] + es, x)
  {
    assert ([e] + es)[1..] == es;
    if es != [] && !EventLe(e, es[0]) {
      InsertNet(e, es[1..], x);
      assert ([e] + es[1..])[1..] == es[1..];
    }
  }

  /** Sorting the events changes no sum. */
  lemma {:induction false} SortNet(es: seq<Event>, x: real)
    ensures Net(Sort(EventLe, es), x) == Net(es, x)
  {
    if es != [] {
      SortNet(es[1..], x);
      InsertNet(es[0], Sort(EventLe, es[1..]), x);
      assert ([es[0]] + Sort(EventLe, es[1..]))[1..] == Sort(EventLe, es[1..]);
    }
  }

  /** Up to position k everything happens by x, and nothing after. */
  ghost predicate SplitsAt(es: seq<Event>, k: nat, x: real) {
    && k <= |es|
    && (forall i :: 0 <= i < k ==> es[i].time <= x)
    && (forall i :: k <= i < |es| ==> x < es[i].time)
  }

  lemma {:induction false} SplitNet(es: seq<Event>, k: nat, x: real)
    requires SplitsAt(es, k, x)
    ensures Net(es, x) == Total(es[..k])
  {
    if es != [] {
      if k == 0 {
        SplitNet(es[1..], 0, x);
      } else {
        SplitNet(es[1..], k - 1, x);
        assert es[..k][1..] == es[1..][..k - 1];
      }
    }
  }

  /** Where the events up to x end in a sorted list. */
  lemma {:induction false} FindSplit(es: seq<Event>, x: real) returns (k: nat)
    requires Sorted(EventLe, es)
    ensures SplitsAt(es, k, x)
  {
    if es == [] || x < es[0].time {
      k := 0;
      forall i | 0 <= i < |es|
        ensures x < es[i].time
      {
        assert i == 0 || EventLe(es[0], es[i]);
      }
    } else {
      var rest := FindSplit(es[1..], x);
      k := rest + 1;
      forall i | 0 <= i < |es|
        ensures i < k ==> es[i].time <= x
        ensures k <= i ==> x < es[i].time
      {
        assert i == 0 || es[i] == es[1..][i - 1];
      }
    }
  }

  /** A running total never exceeds what is in flight at some instant, unless it is at most zero. */
  lemma {:induction false} TotalsAreReached(es: seq<Event>, k: nat) returns (x: real)
    requires Sorted(EventLe, es) && k <= |es| && forall i :: 0 <= i < |es| ==> es[i].delta == 1 || es[i].delta == -1
    ensures Total(es[..k]) <= 0 || Total(es[..k]) <= Net(es, x)
  {
    if k == 0 {
      x := 0.0;
    } else {
      PrefixTotal(es, k - 1);
      if es[k - 1].delta == -1 {
        x := TotalsAreReached(es, k - 1);
      } else {
        x := es[k - 1].time;
        var end := FindSplit(es, x);
        SplitNet(es, end, x);
        assert end >= k;
        forall i | k <= i < end
          ensures es[i].delta == 1
        {
          assert EventLe(es[k - 1], es[i]);
        }
        RisingTotal(es, k, end);
      }
    }
  }

  lemma PrefixTotal(es: seq<Event>, k: nat)
    requires k < |es|
    ensures Total(es[..k + 1]) == Total(es[..k]) + es[k].delta
  {
    assert es[..k + 1] == es[..k] + [es[k]];
    TotalConcat(es[..k], [es[k]]);
    assert [es[k]][1..] == [];
  }

  lemma {:induction false} RisingTotal(es: seq<Event>, k: nat, end: nat)
    requires k <= end <= |es| && forall i :: k <= i < end ==> es[i].delta == 1
    ensures Total(es[..k]) <= Total(es[..end])
    decreases end
  {
    if k < end {
      RisingTotal(es, k, end - 1);
      PrefixTotal(es, end - 1);
    }
  }

  lemma {:induction false} UnitDeltas(rs: seq<Request>)
    ensures forall i :: 0 <= i < |Events(rs)| ==> Events(rs)[i].delta == 1 || Events(rs)[i].delta == -1
  {
    if rs != [] {
      UnitDeltas(rs[..|rs| - 1]);
    }
  }

  /** The sweep: the largest running total over the sorted events, and where it was reached. */
  method Sweep(es: seq<Event>) returns (peak: int, ghost at: nat)
    ensures at <= |es| && peak == Total(es[..at])
    ensures forall k :: 0 <= k <= |es| ==> Total(es[..k]) <= peak
  {
    var cur := 0;
    peak, at := 0, 0;
    for k := 0 to |es|
      invariant cur == Total(es[..k]) && at <= k && peak == Total(es[..at])
      invariant forall j :: 0 <= j <= k ==> Total(es[..j]) <= peak
    {
      PrefixTotal(es, k);
      cur := cur + es[k].delta;
      if peak < cur {
        peak, at := cur, k + 1;
      }
    }
  }

  /**
   The result is at least 1 and otherwise the largest number, at one instant, of requests in
   flight less those that end before they start. With no negative duration that is the largest
   number in flight.
   */
  method PeakConcurrency(rs: seq<Request>) returns (peak: int, ghost x: real)
    ensures peak >= 1 && forall y: real :: InFlight(rs, y) - Inverted(rs, y) <= peak
    ensures peak > 1 ==> InFlight(rs, x) - Inverted(rs, x) == peak
    ensures (forall i :: 0 <= i < |rs| ==> rs[i].duration >= 0.0) ==>
              (forall y: real :: InFlight(rs, y) <= peak) && (peak > 1 ==> InFlight(rs, x) == peak)
  {
    var es := Sort(EventLe, Events(rs));
    SortCorrect(EventLe, Events(rs));
    UnitDeltas(rs);
    forall i | 0 <= i < |es|
      ensures es[i].delta == 1 || es[i].delta == -1
    {
      SortMembers(EventLe, Events(rs), es[i]);
    }
    var best, at := Sweep(es);
    forall y: real
      ensures Net(es, y) == InFlight(rs, y) - Inverted(rs, y) <= best
    {
      SortNet(Events(rs), y);
      NetIsInFlight(rs, y);
      var k := FindSplit(es, y);
      SplitNet(es, k, y);
    }
    x := TotalsAreReached(es, at);
    peak := if best < 1 then 1 else best;
    if forall i :: 0 <= i < |rs| ==> rs[i].duration >= 0.0 {
      forall y: real
        ensures Inverted(rs, y) == 0
      {
        NoneInverted(rs, y);
      }
    }
  }
}
