/** The life cycle the repository's test walks through, with explicit clock readings
    in place of sleeping: three failures trip the breaker, the timeout moves it to
    half-open, and six successful probes close it again. */
module BreakerTest {
  import opened Counters
  import opened Machine
  import opened Breaker

  /** The test's trip predicate: three failures in a row. */
  function TripAfterThree(c: Counts): bool {
    c.consecutiveFailures >= 3
  }

  method TestNewCircuitBreaker() returns (tripped: State, probing: State, closed: State)
    ensures tripped == Open && probing == HalfOpen && closed == Closed
  {
    var cfg := Config("random-service", 6, 1 * Second, 1 * Second, Some(TripAfterThree), true);
    var breaker := new CircuitBreaker(cfg, 0);
    var now := FailThreeTimes(breaker, 0);
    tripped := breaker.State(now);

    // Once the timeout has passed, the breaker is half-open.
    now := now + Second;
    probing := breaker.State(now);

    now := SucceedSixTimes(breaker, now);
    closed := breaker.State(now);
  }

  /** Three admitted failures, 100 ms apart, all before the closed-state window ends:
      the third one trips the breaker. */
  method FailThreeTimes(breaker: CircuitBreaker, start: int) returns (now: int)
    requires breaker.Valid() && breaker.state == Closed && breaker.counts.IsCleared()
    requires breaker.expiry.Some? && start + 200 * Millisecond < breaker.expiry.value
    requires forall c :: breaker.readyToTrip(c) == TripAfterThree(c)
    modifies breaker
    ensures breaker.Valid() && breaker.state == Open
    ensures breaker.expiry == Some(start + 200 * Millisecond + breaker.timeout)
    ensures now == start + 300 * Millisecond
  {
    now := start;
    ghost var windowEnd := breaker.expiry.value;
    for i := 0 to 3
      invariant breaker.Valid()
      invariant now == start + i * 100_000_000
      invariant i < 3 ==> breaker.state == Closed && breaker.expiry == Some(windowEnd)
      invariant i < 3 ==> breaker.counts.consecutiveFailures == i
      invariant i == 3 ==> breaker.state == Open && breaker.expiry == Some(start + 200 * Millisecond + breaker.timeout)
    {
      var err := breaker.BeforeRequest(now);
      assert err == None;
      breaker.OnFailure(now);
      now := now + 100 * Millisecond;
    }
  }

  /** Six admitted successes, 100 ms apart, while half-open with a budget of six:
      the sixth one closes the breaker. */
  method SucceedSixTimes(breaker: CircuitBreaker, start: int) returns (now: int)
    requires breaker.Valid() && breaker.state == HalfOpen && breaker.counts.IsCleared()
    requires breaker.maxRequests == 6
    modifies breaker
    ensures breaker.Valid() && breaker.state == Closed
  {
    now := start;
    for i := 0 to 6
      invariant breaker.Valid()
      invariant now == start + i * 100_000_000
      invariant i < 6 ==> breaker.state == HalfOpen
      invariant i < 6 ==> breaker.counts.requests == i && breaker.counts.consecutiveSuccesses == i
      invariant i == 6 ==> breaker.state == Closed
    {
      var err := breaker.BeforeRequest(now);
      assert err == None;
      breaker.OnSuccess(now);
      now := now + 100 * Millisecond;
    }
  }
}
