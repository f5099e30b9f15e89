/** The circuit breaker's transition logic on values.

    A `Snapshot` is everything the breaker changes (state, generation, counters,
    expiry, and the log of observer calls); `Settings` is its normalised
    configuration. Each function below is one routine of the breaker, taking the
    snapshot before the call to the snapshot after it; the class in module
    `Breaker` runs the same routines step by step on its fields and is proved to
    agree with these functions.

    Time is an integer count of nanoseconds, as a Go duration is. An unset expiry
    is the zero instant, which lies before every clock reading. */
module Machine {
  import opened Counters

  const Millisecond: int := 1_000_000
  const Second: int := 1_000 * Millisecond

  const DefaultMaxRequests: nat := 1
  const DefaultInterval: int := 0
  const DefaultTimeout: int := 60 * Second

  datatype State = Closed | HalfOpen | Open

  /** The two reasons a request is refused. */
  datatype Error = ErrTooManyRequests | ErrOpenState

  datatype Option<T> = None | Some(value: T)

  /** One call of the state-change observer. */
  datatype Change = Change(from: State, to: State)

  /** Normalised configuration. `onStateChange` says whether an observer is registered. */
  datatype Settings = Settings(
    maxRequests: nat,
    interval: int,
    timeout: int,
    readyToTrip: Counts -> bool,
    onStateChange: bool)

  /** The mutable part of a breaker; `changes` is the history of observer calls. */
  datatype Snapshot = Snapshot(
    state: State,
    generation: nat,
    counts: Counts,
    expiry: Option<int>,
    changes: seq<Change>)

  /** The outcome of an admission check: the new snapshot, the generation the
      request belongs to, and the refusal, if any. */
  datatype Decision = Decision(after: Snapshot, generation: nat, err: Option<Error>)

  /** What construction guarantees of the configuration. */
  predicate SettingsValid(st: Settings) {
    st.maxRequests >= 1 && st.interval >= 0 && st.timeout > 0
  }

  /** The transitions the breaker can make. */
  predicate Edge(from: State, to: State) {
    || (from == Closed && to == Open)
    || (from == Open && to == HalfOpen)
    || (from == HalfOpen && to == Closed)
    || (from == HalfOpen && to == Open)
  }

  /** The observer log is a walk along `Edge`s that starts in Closed and ends in the
      current state; with no observer registered it stays empty. */
  ghost predicate History(st: Settings, m: Snapshot) {
    var cs := m.changes;
    if st.onStateChange then
      && (forall i :: 0 <= i < |cs| ==> Edge(cs[i].from, cs[i].to))
      && (forall i :: 0 < i < |cs| ==> cs[i - 1].to == cs[i].from)
      && (if cs == [] then m.state == Closed else cs[0].from == Closed && cs[|cs| - 1].to == m.state)
    else
      cs == []
  }

  /** The invariant every public operation keeps. */
  ghost predicate Valid(st: Settings, m: Snapshot) {
    && SettingsValid(st)
    && m.generation >= 1
    && m.counts.Consistent()
    && (m.state == Closed ==> (m.expiry.None? <==> st.interval == 0))
    && (m.state == Open ==> m.expiry.Some? && m.counts.IsCleared())
    && (m.state == HalfOpen ==>
          && m.expiry.None?
          && m.counts.requests <= st.maxRequests
          && m.counts.totalFailures == 0
          && m.counts.consecutiveSuccesses < st.maxRequests)
    && History(st, m)
  }

  /** `expiry` lies strictly before `now`; the unset expiry is the zero instant. */
  predicate Before(expiry: Option<int>, now: int) {
    expiry.None? || expiry.value < now
  }

  /** The expiry a state gets when it is entered at `now`. */
  function EntryExpiry(st: Settings, s: State, now: int): (e: Option<int>)
    ensures SettingsValid(st) ==> (e.None? <==> s == HalfOpen || (s == Closed && st.interval == 0))
    ensures SettingsValid(st) && e.Some? ==> now < e.value
    ensures s == Open ==> e == Some(now + st.timeout)
    ensures s == Closed && st.interval != 0 ==> e == Some(now + st.interval)
  {
    match s
    case Closed => if st.interval == 0 then None else Some(now + st.interval)
    case Open => Some(now + st.timeout)
    case HalfOpen => None
  }

  /** The observer calls a transition makes. */
  function Notified(st: Settings, from: State, to: State): seq<Change> {
    if st.onStateChange then [Change(from, to)] else []
  }

  /** Start a new generation in the same state: counters cleared, expiry set anew. */
  function Reset(st: Settings, m: Snapshot, now: int): (r: Snapshot)
    ensures r.state == m.state && r.changes == m.changes
    ensures r.generation == m.generation + 1 && r.counts.IsCleared()
    ensures r.expiry == EntryExpiry(st, m.state, now)
    ensures SettingsValid(st) && History(st, m) ==> Valid(st, r)
  {
    m.(generation := m.generation + 1,
       counts := m.counts.Clear(),
       expiry := EntryExpiry(st, m.state, now))
  }

  /** Move to state `s`; a no-op when already there. */
  function SetState(st: Settings, m: Snapshot, s: State, now: int): (r: Snapshot)
    ensures m.state == s ==> r == m
    ensures m.state != s ==>
      && r.state == s
      && r.generation == m.generation + 1
      && r.counts.IsCleared()
      && r.expiry == EntryExpiry(st, s, now)
      && r.changes == m.changes + Notified(st, m.state, s)
    ensures Valid(st, m) && (m.state != s ==> Edge(m.state, s)) ==> Valid(st, r)
  {
    if m.state == s then m
    else
      var r := Reset(st, m.(state := s), now);
      r.(changes := r.changes + Notified(st, m.state, s))
  }

  /** A time-based transition is due at `now`. */
  predicate Due(m: Snapshot, now: int) {
    || (m.state == Closed && m.expiry.Some? && Before(m.expiry, now))
    || (m.state == Open && Before(m.expiry, now))
  }

  /** Resolve the time-based transitions lazily, at the moment the breaker is used. */
  function CurrentState(st: Settings, m: Snapshot, now: int): (r: Snapshot)
    ensures !Due(m, now) ==> r == m
    ensures m.state == HalfOpen ==> r == m
    ensures m.state == Closed && Due(m, now) ==>
      && r.state == Closed
      && r.generation == m.generation + 1
      && r.counts.IsCleared()
      && r.expiry == EntryExpiry(st, Closed, now)
      && r.changes == m.changes
    ensures m.state == Open && Due(m, now) ==>
      && r.state == HalfOpen
      && r.generation == m.generation + 1
      && r.counts.IsCleared()
      && r.expiry.None?
      && r.changes == m.changes + Notified(st, Open, HalfOpen)
    ensures r.generation != m.generation <==> Due(m, now)
    ensures Valid(st, m) ==> Valid(st, r) && !Due(r, now)
  {
    match m.state
    case Closed => if m.expiry.Some? && Before(m.expiry, now) then Reset(st, m, now) else m
    case Open => if Before(m.expiry, now) then SetState(st, m, HalfOpen, now) else m
    case HalfOpen => m
  }

  /** The admission check. */
  function BeforeRequest(st: Settings, m: Snapshot, now: int): (d: Decision)
    ensures var c := CurrentState(st, m, now);
      && d.generation == c.generation == d.after.generation
      && (d.err == Some(ErrOpenState) <==> c.state == Open)
      && (d.err == Some(ErrTooManyRequests) <==> c.state == HalfOpen && c.counts.requests >= st.maxRequests)
      && (d.err.Some? ==> d.after == c)
      && (d.err.None? ==> d.after == c.(counts := c.counts.OnRequest()))
    ensures Valid(st, m) ==> Valid(st, d.after)
    ensures Valid(st, m) && m.state == Open && Due(m, now) ==>
      d.err.None? && d.after.state == HalfOpen && d.after.counts.requests == 1
  {
    var c := CurrentState(st, m, now);
    if c.state == Open then Decision(c, c.generation, Some(ErrOpenState))
    else if c.state == HalfOpen && c.counts.requests >= st.maxRequests then
      Decision(c, c.generation, Some(ErrTooManyRequests))
    else Decision(c.(counts := c.counts.OnRequest()), c.generation, None)
  }

  /** Count a success observed in state `s`. */
  function RecordSuccess(st: Settings, m: Snapshot, s: State, now: int): (r: Snapshot)
    ensures s == Open ==> r == m
    ensures s == Closed ==> r == m.(counts := m.counts.OnSuccess())
    ensures s == HalfOpen && m.counts.consecutiveSuccesses + 1 < st.maxRequests ==>
      r == m.(counts := m.counts.OnSuccess())
    ensures s == HalfOpen == m.state && m.counts.consecutiveSuccesses + 1 >= st.maxRequests ==>
      && r.state == Closed
      && r.generation == m.generation + 1
      && r.counts.IsCleared()
      && r.expiry == EntryExpiry(st, Closed, now)
      && r.changes == m.changes + Notified(st, HalfOpen, Closed)
    ensures Valid(st, m) && s == m.state ==> Valid(st, r)
  {
    match s
    case Closed => m.(counts := m.counts.OnSuccess())
    case HalfOpen =>
      var c := m.counts.OnSuccess();
      if c.consecutiveSuccesses >= st.maxRequests then SetState(st, m.(counts := c), Closed, now)
      else m.(counts := c)
    case Open => m
  }

  /** Count a failure observed in state `s`. */
  function RecordFailure(st: Settings, m: Snapshot, s: State, now: int): (r: Snapshot)
    ensures s == Open ==> r == m
    ensures s == Closed && !st.readyToTrip(m.counts.OnFailure()) ==> r == m.(counts := m.counts.OnFailure())
    ensures s == Closed == m.state && st.readyToTrip(m.counts.OnFailure()) ==>
      && r.state == Open
      && r.generation == m.generation + 1
      && r.counts.IsCleared()
      && r.expiry == Some(now + st.timeout)
      && r.changes == m.changes + Notified(st, Closed, Open)
    ensures s == HalfOpen == m.state ==>
      && r.state == Open
      && r.generation == m.generation + 1
      && r.counts.IsCleared()
      && r.expiry == Some(now + st.timeout)
      && r.changes == m.changes + Notified(st, HalfOpen, Open)
    ensures Valid(st, m) && s == m.state ==> Valid(st, r)
  {
    match s
    case Closed =>
      var c := m.counts.OnFailure();
      if st.readyToTrip(c) then SetState(st, m.(counts := c), Open, now) else m.(counts := c)
    case HalfOpen => SetState(st, m, Open, now)
    case Open => m
  }

  /** Apply a report made for generation `before`, unless it is stale by the time
      pending time-based transitions are resolved. */
  function AfterRequest(st: Settings, m: Snapshot, before: nat, success: bool, now: int): (r: Snapshot)
    ensures var c := CurrentState(st, m, now);
      && (c.generation != before ==> r == c)
      && (c.generation == before && success ==> r == RecordSuccess(st, c, c.state, now))
      && (c.generation == before && !success ==> r == RecordFailure(st, c, c.state, now))
    ensures before < m.generation ==> r == CurrentState(st, m, now)
    ensures r.generation >= m.generation
    ensures Valid(st, m) ==> Valid(st, r)
  {
    var c := CurrentState(st, m, now);
    if c.generation != before then c
    else if success then RecordSuccess(st, c, c.state, now)
    else RecordFailure(st, c, c.state, now)
  }

  /** The public success hook: it passes the generation current at report time, so
      the report is dropped exactly when resolving the state starts a new generation. */
  function OnSuccess(st: Settings, m: Snapshot, now: int): (r: Snapshot)
    ensures Due(m, now) ==> r == CurrentState(st, m, now)
    ensures !Due(m, now) ==> r == RecordSuccess(st, m, m.state, now)
    ensures Valid(st, m) ==> Valid(st, r)
  {
    AfterRequest(st, m, m.generation, true, now)
  }

  /** The public failure hook; see `OnSuccess`. */
  function OnFailure(st: Settings, m: Snapshot, now: int): (r: Snapshot)
    ensures Due(m, now) ==> r == CurrentState(st, m, now)
    ensures !Due(m, now) ==> r == RecordFailure(st, m, m.state, now)
    ensures Valid(st, m) ==> Valid(st, r)
  {
    AfterRequest(st, m, m.generation, false, now)
  }

  /** A fresh breaker: the zero-valued fields followed by a reset, so it starts Closed in
      generation 1 with cleared counters, and unset expiry exactly when the interval is 0. */
  function Initial(st: Settings, now: int): (m: Snapshot)
    ensures m.state == Closed && m.generation == 1 && m.counts.IsCleared() && m.changes == []
    ensures SettingsValid(st) ==> (m.expiry.None? <==> st.interval == 0) && Valid(st, m)
  {
    Reset(st, Snapshot(Closed, 0, Counts(0, 0, 0, 0, 0), None, []), now)
  }

  /** One public operation, each at its own clock reading. */
  datatype Call = StateCall(now: int) | BeforeRequestCall(now: int) | OnSuccessCall(now: int) | OnFailureCall(now: int)

  function Step(st: Settings, m: Snapshot, call: Call): (r: Snapshot)
    ensures r.generation >= m.generation
    ensures m.changes <= r.changes
    ensures Valid(st, m) ==> Valid(st, r)
  {
    match call
    case StateCall(now) => CurrentState(st, m, now)
    case BeforeRequestCall(now) => BeforeRequest(st, m, now).after
    case OnSuccessCall(now) => OnSuccess(st, m, now)
    case OnFailureCall(now) => OnFailure(st, m, now)
  }

  /** Any sequence of public operations: the invariant holds throughout, the generation
      never decreases, and the observer log only grows. */
  function Run(st: Settings, m: Snapshot, calls: seq<Call>): (r: Snapshot)
    ensures r.generation >= m.generation
    ensures m.changes <= r.changes
    ensures Valid(st, m) ==> Valid(st, r)
    decreases |calls|
  {
    if calls == [] then m else Run(st, Step(st, m, calls[0]), calls[1..])
  }

  /** How many of `calls`, run from `m`, are admission checks that let the request through. */
  function Admissions(st: Settings, m: Snapshot, calls: seq<Call>): nat
    decreases |calls|
  {
    if calls == [] then 0
    else
      var admitted := calls[0].BeforeRequestCall? && BeforeRequest(st, m, calls[0].now).err.None?;
      (if admitted then 1 else 0) + Admissions(st, Step(st, m, calls[0]), calls[1..])
  }

  /** One call made while half-open that does not start a new generation leaves the
      breaker half-open and adds one request exactly when it is an admitted check. */
  lemma HalfOpenStep(st: Settings, m: Snapshot, call: Call)
    requires Valid(st, m) && m.state == HalfOpen
    requires Step(st, m, call).generation == m.generation
    ensures Step(st, m, call).state == HalfOpen
    ensures Step(st, m, call).counts.requests ==
      m.counts.requests + if call.BeforeRequestCall? && BeforeRequest(st, m, call.now).err.None? then 1 else 0
  {
  }

  /** The probe budget: however the calls interleave, as long as the breaker stays in one
      half-open generation it admits at most `maxRequests` requests in it, and
      `requests` counts exactly the admissions made. */
  lemma {:induction false} HalfOpenProbeBudget(st: Settings, m: Snapshot, calls: seq<Call>)
    requires Valid(st, m) && m.state == HalfOpen
    requires Run(st, m, calls).generation == m.generation
    ensures Run(st, m, calls).state == HalfOpen
    ensures Run(st, m, calls).counts.requests == m.counts.requests + Admissions(st, m, calls)
    ensures m.counts.requests + Admissions(st, m, calls) <= st.maxRequests
    decreases |calls|
  {
    if calls != [] {
      var m1 := Step(st, m, calls[0]);
      assert Run(st, m, calls) == Run(st, m1, calls[1..]);
      HalfOpenStep(st, m, calls[0]);
      HalfOpenProbeBudget(st, m1, calls[1..]);
    }
  }

  /** The public hooks carry the live generation, so a report is not tied to the request it
      answers: a success whose request was admitted in an earlier generation (say, in Closed
      before a trip and the move to HalfOpen) still counts, and with a budget of one it closes
      a HalfOpen breaker in which no probe was admitted. */
  lemma LateReportIsCounted(st: Settings, m: Snapshot, now: int)
    requires Valid(st, m) && m.state == HalfOpen && m.counts.requests == 0 && st.maxRequests == 1
    ensures OnSuccess(st, m, now).state == Closed
    ensures OnSuccess(st, m, now).changes == m.changes + Notified(st, HalfOpen, Closed)
  {
  }

  /** A report that reaches an Open breaker before its timeout passes the generation
      guard but is then ignored: nothing changes. */
  lemma ReportWhileOpenIgnored(st: Settings, m: Snapshot, now: int)
    requires Valid(st, m) && m.state == Open && !Due(m, now)
    ensures OnSuccess(st, m, now) == m
    ensures OnFailure(st, m, now) == m
  {
  }

  /** Resolving twice at the same instant is the same as resolving once. */
  lemma CurrentStateIdempotent(st: Settings, m: Snapshot, now: int)
    requires Valid(st, m)
    ensures CurrentState(st, CurrentState(st, m, now), now) == CurrentState(st, m, now)
  {
  }

  /** A failure that makes `readyToTrip` true in Closed opens the breaker and calls the
      observer once, with (Closed, Open); until the timeout has passed every state read
      says Open and every admission check is refused with `ErrOpenState`, changing nothing. */
  lemma TripHoldsUntilTimeout(st: Settings, m: Snapshot, now: int, later: int)
    requires Valid(st, m) && m.state == Closed && !Due(m, now)
    requires st.readyToTrip(m.counts.OnFailure())
    requires later <= now + st.timeout
    ensures var r := OnFailure(st, m, now);
      && r.state == Open
      && r.changes == m.changes + Notified(st, Closed, Open)
      && CurrentState(st, r, later) == r
      && BeforeRequest(st, r, later) == Decision(r, r.generation, Some(ErrOpenState))
  {
  }

  /** The closed-state window: once the expiry has passed, the next admission check starts
      a new generation in Closed, without calling the observer, and counts one request. */
  lemma WindowRollover(st: Settings, m: Snapshot, now: int)
    requires Valid(st, m) && m.state == Closed && m.expiry.Some? && m.expiry.value < now
    ensures var d := BeforeRequest(st, m, now);
      && d.err.None?
      && d.after.state == Closed
      && d.after.generation == m.generation + 1
      && d.after.counts == Counts(1, 0, 0, 0, 0)
      && d.after.changes == m.changes
  {
  }
}
