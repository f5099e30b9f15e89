# gocbr circuit breaker, modelled in Dafny

This project models `gocbr`, a circuit breaker written in Go. The breaker guards calls to a
dependency. It can be in one of three states:

- **Closed**: requests are let through. Failures are counted against a trip predicate,
  `readyToTrip`.
- **Open**: every request is refused until a timeout has passed.
- **HalfOpen**: at most `maxRequests` probe requests are let through. `maxRequests`
  consecutive successes close the breaker again; a single failure opens it again.

The breaker has no timer. Pending time-based changes are resolved lazily by `currentState`
whenever the breaker is used. Every reset of the counters starts a new **generation** (a
counter that only goes up). The public `OnSuccess` and `OnFailure` hooks pass the generation
as read at report time, not one captured at admission. So a report is dropped only when
resolving the state at report time starts a new generation. A report that arrives after its
generation ended in an earlier call is applied to the current generation, and counted there
unless the breaker is Open (`Machine.LateReportIsCounted`,
`Machine.ReportWhileOpenIgnored`).

## Modules

- `counters.dfy`, module `Counters`: the five-field `Counts` record and its four update
  routines. It also holds the default trip predicate, and a lemma stating what the
  counters mean after any sequence of events.
- `machine.dfy`, module `Machine`: the breaker's routines (`reset`, `setState`,
  `currentState`, `beforeRequest`, `afterRequest`, the private `onSuccess`/`onFailure`,
  and the public hooks) as functions from one `Snapshot` to the next. A `Snapshot` holds
  the state, generation, counts, expiry and the log of observer calls. The module also
  defines the invariant `Valid` that these functions keep, and lemmas about sequences of
  calls.
- `breaker.dfy`, module `Breaker`: the `CircuitBreaker` class. Its fields are the Go
  struct's fields. Its methods update them step by step, as the Go methods do, and each
  method is proved to produce the snapshot that the matching `Machine` function computes.
- `scenario.dfy`, module `BreakerTest`: the life cycle from the repository's test, played
  through on the class with explicit clock readings and proved.

Modelling choices:

- Time is an integer number of nanoseconds, the unit of a Go `time.Duration`. An unset
  `time.Time` (`IsZero`) is `None`. `Before` is strict `<`. The unset instant counts as
  earlier than every clock reading, as Go's zero time is.
- `Counts` is a Go value type embedded by value in the breaker. Incrementing one of its
  fields in place is therefore the same as assigning a new record to `counts`, which is
  what the class does.
- `readyToTrip` is an arbitrary total function on `Counts`. A registered `onStateChange`
  observer is modelled as the ghost log `changes` of `(from, to)` pairs.

Facts the proofs established beyond the ones the code comments state, all part of `Valid`:

- While Open, all counters are zero.
- While HalfOpen:
  - no failure has been counted;
  - `consecutiveSuccesses < maxRequests`;
  - `requests <= maxRequests`.
- When an observer is registered, its calls form a path along the four allowed
  transitions. The path starts in Closed and ends in the current state.

## Model

| member | source | states |
|---|---|---|
| `Counters.Counts.OnRequest` | breaker.go:47-49 | `requests` grows by one; every other counter is unchanged; consistency is kept |
| `Counters.Counts.OnSuccess` | breaker.go:52-56 | total and consecutive successes grow by one and the failure streak becomes 0; the other counters are unchanged; consistency is kept |
| `Counters.Counts.OnFailure` | breaker.go:59-63 | the mirror image of `OnSuccess` for failures |
| `Counters.Counts.Clear` | breaker.go:66-72 | all five counters are zero, which is consistent |
| `Counters.DefaultReadyToTrip` | breaker.go:74-76 | trips exactly when there are at least six failures in a row; with consistent counts the success streak is then 0 and at least six failures were counted |
| `Counters.ReplayCounts` | breaker.go:34-72 | after any sequence of events from cleared counts: each total equals the number of events of its kind; each streak is the length of the trailing run of that outcome; so the two streaks are never both nonzero |
| `Machine.EntryExpiry` | breaker.go:301-313 | a state entered at `now` has an unset expiry exactly when it is HalfOpen, or Closed with interval 0; a set expiry lies after `now`; Open gets `now + timeout` and Closed with a nonzero interval `now + interval` |
| `Machine.Reset` | breaker.go:297-314 | same state, generation + 1, counters cleared, expiry set for the state, no observer call; the result is valid |
| `Machine.SetState` | breaker.go:281-294 | a no-op when the target is the current state; otherwise the state becomes the target, generation + 1, counters cleared, expiry set for the target, and exactly one observer call `(prev, target)` if an observer is registered; an allowed transition keeps `Valid` |
| `Machine.CurrentState` | breaker.go:265-277 | Closed with a set expiry before `now`: counters cleared, generation + 1, no state change, no observer call. Open with expiry before `now`: moves to HalfOpen. HalfOpen: never changes. The generation changes exactly when a change is due; afterwards no change is due at `now`; `Valid` is kept |
| `Machine.BeforeRequest` | breaker.go:205-220 | refused with `ErrOpenState` exactly when the resolved state is Open; refused with `ErrTooManyRequests` exactly when HalfOpen with `requests >= maxRequests`; refusals leave the counters as resolved; an admission adds exactly one request; the first check after the Open timeout is admitted as HalfOpen's first request |
| `Machine.RecordSuccess` | breaker.go:239-249 | Closed only counts; HalfOpen closes the breaker (fresh counters, Closed expiry, one observer call) when the success streak reaches `maxRequests`; Open changes nothing; `Valid` is kept |
| `Machine.RecordFailure` | breaker.go:251-261 | Closed counts, then opens when `readyToTrip` holds of the new counts; HalfOpen opens on any failure, whatever successes came before; Open changes nothing; `Valid` is kept |
| `Machine.AfterRequest` | breaker.go:222-237 | a report whose generation differs from the resolved generation changes nothing beyond the resolution; one for an older generation is always dropped; the generation never decreases; `Valid` is kept |
| `Machine.OnSuccess` | breaker.go:196-198 | passing the live generation means the report is dropped exactly when resolution at `now` starts a new generation, and is otherwise handled in the current state |
| `Machine.OnFailure` | breaker.go:201-203 | the same as `OnSuccess`, for failures |
| `Machine.Initial` | breaker.go:126-159 | a new breaker is Closed, in generation 1, with cleared counters and no observer calls; its expiry is unset exactly when the interval is 0; it is valid |
| `Machine.Step` | breaker.go:167-203 | any one public call keeps `Valid`, never lowers the generation, and only appends to the observer log |
| `Machine.Run` | breaker.go:119-122 | any sequence of public calls keeps `Valid` (so the two streaks are never both nonzero), never lowers the generation, and only appends to the observer log |
| `Machine.HalfOpenProbeBudget` | breaker.go:212-218 | within one HalfOpen generation, under any mix of calls, the breaker stays HalfOpen, `requests` counts exactly the admissions, and there are at most `maxRequests` of them |
| `Machine.CurrentStateIdempotent` | breaker.go:265-277 | resolving twice at the same instant equals resolving once |
| `Machine.LateReportIsCounted` | breaker.go:196-198 | a success reported through the public hook is counted whatever generation the request was admitted in: a HalfOpen breaker with no probe admitted yet and a budget of one closes on it |
| `Machine.ReportWhileOpenIgnored` | breaker.go:239-261 | a success or failure reported to an Open breaker before its timeout passes the generation guard and changes nothing |
| `Machine.TripHoldsUntilTimeout` | breaker.go:251-257 | a tripping failure in Closed opens the breaker with one observer call `(Closed, Open)`; up to the timeout, state reads give Open and admission checks are refused with `ErrOpenState` without any change |
| `Machine.WindowRollover` | breaker.go:267-270 | once the Closed expiry has passed, the next admission check starts a new generation, stays Closed, calls no observer and leaves exactly one request counted |
| `Breaker.CircuitBreaker.constructor` | breaker.go:126-159 | `maxRequests` 0 becomes 1; an interval `<= 0` becomes 0; a timeout `<= 0` becomes 60 s; a missing `readyToTrip` becomes the default; the fields then equal `Machine.Initial` |
| `Breaker.CircuitBreaker.Name` | breaker.go:162-164 | returns the configured name |
| `Breaker.CircuitBreaker.Counts` | breaker.go:177-182 | returns the current counters without resolving the state |
| `Breaker.CircuitBreaker.State` | breaker.go:167-174 | the fields become `Machine.CurrentState` of the old ones and the resolved state is returned |
| `Breaker.CircuitBreaker.BeforeRequest` | breaker.go:185-193 | the fields and the error are those of `Machine.BeforeRequest` |
| `Breaker.CircuitBreaker.OnSuccess` | breaker.go:196-198 | the fields become `Machine.OnSuccess` of the old ones |
| `Breaker.CircuitBreaker.OnFailure` | breaker.go:201-203 | the fields become `Machine.OnFailure` of the old ones |
| `Breaker.CircuitBreaker.Admit` | breaker.go:205-220 | the fields, generation and error are those of `Machine.BeforeRequest` |
| `Breaker.CircuitBreaker.AfterRequest` | breaker.go:222-237 | the fields become `Machine.AfterRequest` of the old ones |
| `Breaker.CircuitBreaker.RecordSuccess` | breaker.go:239-249 | the fields become `Machine.RecordSuccess` of the old ones; `Valid` is kept when called with the current state |
| `Breaker.CircuitBreaker.RecordFailure` | breaker.go:251-261 | the fields become `Machine.RecordFailure` of the old ones; `Valid` is kept when called with the current state |
| `Breaker.CircuitBreaker.CurrentState` | breaker.go:265-277 | the fields become `Machine.CurrentState` of the old ones; the resolved state and generation are returned |
| `Breaker.CircuitBreaker.SetState` | breaker.go:281-294 | the fields become `Machine.SetState` of the old ones |
| `Breaker.CircuitBreaker.Reset` | breaker.go:297-314 | the fields become `Machine.Reset` of the old ones |
| `BreakerTest.TestNewCircuitBreaker` | breaker_test.go:11-54 | with `readyToTrip` = three failures in a row, `MaxRequests` 6 and one-second interval and timeout: the state is Open after three failures, HalfOpen after the timeout, and Closed after six successes |
| `BreakerTest.FailThreeTimes` | breaker_test.go:30-38 | three admitted failures inside the Closed window are all admitted and leave the breaker Open |
| `BreakerTest.SucceedSixTimes` | breaker_test.go:45-53 | six admitted successes in HalfOpen with a budget of six are all admitted and leave the breaker Closed |

## Left out

- The mutex (breaker.go:118 and the `Lock`/`Unlock` calls). Each public method is modelled
  as one atomic step. Unsynchronised reads, such as the `cb.generation` argument of
  `OnSuccess`/`OnFailure`, are taken at the start of the step.
- `time.Now()`. The clock reading is a parameter `now` of every method that reads the clock.
  Overflow of `time.Time.Add` is not modelled.
- The bodies of user-supplied `ReadyToTrip` and `OnStateChange` callbacks. They are foreign
  code: the first is any total function on `Counts`, and the second is recorded as an entry
  in the ghost log. The log omits the breaker name that the observer also receives.
- `Counters.Counts.OnRequest`, `Counters.Counts.OnSuccess`, `Counters.Counts.OnFailure`: no
  `uint32` wrap-around. The counters are unbounded naturals; the same holds for the
  `uint64` generation.
- The text of the `errors.New` values. The two refusals are the enumeration `Machine.Error`.
- The test's `fmt.Printf` observer, its sleeps and its assertion library. The scenario
  uses explicit clock readings 100 ms apart, and proves the assertions statically.
- `totalSuccesses + totalFailures <= requests` is not claimed. The code does not enforce
  it: `OnSuccess` and `OnFailure` do not check that a request was admitted first.
