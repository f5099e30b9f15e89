/** The five outcome counters a circuit breaker keeps for its current generation.

    The record is a value: the breaker holds it by value and hands copies to the
    trip predicate and to callers, so the in-place increments of the Go code become
    functions that return the updated record, which the breaker assigns back. */
module Counters {

  /** Default trip threshold: trip once more than this many failures in a row were seen. */
  const DefaultMaxConsecutiveFailures: nat := 5

  /** Counters of the current generation. The Go counters are 32-bit unsigned;
      here they are unbounded (wrap-around is not modelled). */
  datatype Counts = Counts(
    requests: nat,
    totalSuccesses: nat,
    totalFailures: nat,
    consecutiveSuccesses: nat,
    consecutiveFailures: nat)
  {
    /** A streak never outruns its total, and the two streaks are never both running. */
    predicate Consistent() {
      && (consecutiveSuccesses == 0 || consecutiveFailures == 0)
      && consecutiveSuccesses <= totalSuccesses
      && consecutiveFailures <= totalFailures
    }

    /** All five counters are zero. */
    predicate IsCleared() {
      requests == 0 && totalSuccesses == 0 && totalFailures == 0
      && consecutiveSuccesses == 0 && consecutiveFailures == 0
    }

    /** A request is let through: only `requests` moves, by one. */
    function OnRequest(): (c: Counts)
      ensures c.requests == requests + 1
      ensures c.(requests := requests) == this
      ensures Consistent() ==> c.Consistent()
    {
      this.(requests := requests + 1)
    }

    /** A success extends the success streak and ends any failure streak. */
    function OnSuccess(): (c: Counts)
      ensures c.totalSuccesses == totalSuccesses + 1
      ensures c.consecutiveSuccesses == consecutiveSuccesses + 1
      ensures c.consecutiveFailures == 0
      ensures c.requests == requests && c.totalFailures == totalFailures
      ensures Consistent() ==> c.Consistent()
    {
      this.(totalSuccesses := totalSuccesses + 1,
            consecutiveSuccesses := consecutiveSuccesses + 1,
            consecutiveFailures := 0)
    }

    /** A failure extends the failure streak and ends any success streak. */
    function OnFailure(): (c: Counts)
      ensures c.totalFailures == totalFailures + 1
      ensures c.consecutiveFailures == consecutiveFailures + 1
      ensures c.consecutiveSuccesses == 0
      ensures c.requests == requests && c.totalSuccesses == totalSuccesses
      ensures Consistent() ==> c.Consistent()
    {
      this.(totalFailures := totalFailures + 1,
            consecutiveFailures := consecutiveFailures + 1,
            consecutiveSuccesses := 0)
    }

    /** Forget everything counted so far. */
    function Clear(): (c: Counts)
      ensures c.IsCleared() && c.Consistent()
    {
      Counts(0, 0, 0, 0, 0)
    }
  }

  /** The trip predicate used when none is configured. */
  function DefaultReadyToTrip(counts: Counts): (trip: bool)
    ensures trip <==> counts.consecutiveFailures >= 6
    ensures trip && counts.Consistent() ==> counts.consecutiveSuccesses == 0 && counts.totalFailures >= 6
  {
    counts.consecutiveFailures > DefaultMaxConsecutiveFailures
  }

  /** The three things that move the counters. */
  datatype Event = Request | Success | Failure

  /** The counters after `events`, starting from cleared counters. */
  function Replay(events: seq<Event>): Counts
    decreases |events|
  {
    if events == [] then Counts(0, 0, 0, 0, 0)
    else
      var c := Replay(events[..|events| - 1]);
      match events[|events| - 1]
      case Request => c.OnRequest()
      case Success => c.OnSuccess()
      case Failure => c.OnFailure()
  }

  /** The reported outcomes among `events`, in order (requests dropped). */
  function Outcomes(events: seq<Event>): (os: seq<Event>)
    decreases |events|
  {
    if events == [] then []
    else
      var last := events[|events| - 1];
      Outcomes(events[..|events| - 1]) + (if last == Request then [] else [last])
  }

  /** `k` is the length of the longest run of `e` at the end of `os`. */
  ghost predicate IsStreak(os: seq<Event>, e: Event, k: nat) {
    && k <= |os|
    && (forall i :: |os| - k <= i < |os| ==> os[i] == e)
    && (k < |os| ==> os[|os| - k - 1] != e)
  }

  /** What the counters mean: `requests`, `totalSuccesses` and `totalFailures` count
      the events of each kind since the last clear, and each streak counter is the
      length of the trailing run of that outcome (requests in between do not break
      a run). In particular the two streaks are never both nonzero. */
  lemma {:induction false} ReplayCounts(events: seq<Event>)
    ensures Replay(events).requests == multiset(events)[Request]
    ensures Replay(events).totalSuccesses == multiset(events)[Success]
    ensures Replay(events).totalFailures == multiset(events)[Failure]
    ensures IsStreak(Outcomes(events), Success, Replay(events).consecutiveSuccesses)
    ensures IsStreak(Outcomes(events), Failure, Replay(events).consecutiveFailures)
    ensures Replay(events).Consistent()
    decreases |events|
  {
    if events != [] {
      var prefix, last := events[..|events| - 1], events[|events| - 1];
      assert events == prefix + [last];
      ReplayCounts(prefix);
      var os, os' := Outcomes(prefix), Outcomes(events);
      var c := Replay(prefix);
      assert multiset(events) == multiset(prefix) + multiset{last};
      match last
      case Request =>
        assert os' == os;
      case Success =>
        assert os' == os + [Success];
        StreakExtends(os, Success, c.consecutiveSuccesses);
        StreakBroken(os, Failure, Success);
      case Failure =>
        assert os' == os + [Failure];
        StreakExtends(os, Failure, c.consecutiveFailures);
        StreakBroken(os, Success, Failure);
    }
  }

  /** Appending `e` lengthens a trailing run of `e` by one. */
  lemma StreakExtends(os: seq<Event>, e: Event, k: nat)
    requires IsStreak(os, e, k)
    ensures IsStreak(os + [e], e, k + 1)
  {
    var os' := os + [e];
    forall i | |os'| - (k + 1) <= i < |os'| ensures os'[i] == e {
      if i < |os| { assert os'[i] == os[i]; }
    }
  }

  /** Appending anything other than `e` leaves no trailing run of `e`. */
  lemma StreakBroken(os: seq<Event>, e: Event, other: Event)
    requires other != e
    ensures IsStreak(os + [other], e, 0)
  {
  }
}
