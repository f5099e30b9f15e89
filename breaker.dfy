/** The circuit breaker object. Its methods update the fields in place, step by
    step, as the Go code does; each is proved to take the fields from one
    snapshot to the one the matching function of module `Machine` computes, and to
    keep `Machine.Valid`. Each public method is one atomic step (the mutex is not
    modelled), and the clock reading `now` is a parameter. */
module Breaker {
  import opened Counters
  import opened Machine

  /** Configuration as the caller gives it. `readyToTrip` is `None` when no trip
      predicate is supplied; `onStateChange` says whether an observer is supplied. */
  datatype Config = Config(
    name: string,
    maxRequests: nat,
    interval: int,
    timeout: int,
    readyToTrip: Option<Counts -> bool>,
    onStateChange: bool)

  class CircuitBreaker {
    const name: string
    const maxRequests: nat
    const interval: int
    const timeout: int
    const readyToTrip: Counts -> bool
    const onStateChange: bool

    var state: State
    var generation: nat
    var counts: Counts
    var expiry: Option<int>
    /** The calls made to the observer so far, oldest first. */
    ghost var changes: seq<Change>

    ghost function Settings(): Machine.Settings {
      Machine.Settings(maxRequests, interval, timeout, readyToTrip, onStateChange)
    }

    ghost function Model(): Snapshot
      reads this
    {
      Snapshot(state, generation, counts, expiry, changes)
    }

    ghost predicate Valid()
      reads this
    {
      Machine.Valid(Settings(), Model())
    }

    /** Normalises the configuration and performs the initial reset. */
    constructor (cfg: Config, now: int)
      ensures name == cfg.name && onStateChange == cfg.onStateChange
      ensures maxRequests == if cfg.maxRequests == 0 then DefaultMaxRequests else cfg.maxRequests
      ensures interval == if cfg.interval <= 0 then DefaultInterval else cfg.interval
      ensures timeout == if cfg.timeout <= 0 then DefaultTimeout else cfg.timeout
      ensures forall c :: readyToTrip(c) == (if cfg.readyToTrip.Some? then cfg.readyToTrip.value(c) else DefaultReadyToTrip(c))
      ensures Valid() && Model() == Initial(Settings(), now)
    {
      name := cfg.name;
      onStateChange := cfg.onStateChange;
      maxRequests := if cfg.maxRequests == 0 then DefaultMaxRequests else cfg.maxRequests;
      interval := if cfg.interval <= 0 then DefaultInterval else cfg.interval;
      timeout := if cfg.timeout <= 0 then DefaultTimeout else cfg.timeout;
      if cfg.readyToTrip.None? {
        readyToTrip := DefaultReadyToTrip;
      } else {
        readyToTrip := cfg.readyToTrip.value;
      }
      state := Closed;
      generation := 0;
      counts := Counters.Counts(0, 0, 0, 0, 0);
      expiry := None;
      changes := [];
      new;
      Reset(now);
    }

    function Name(): (n: string)
      ensures n == name
    {
      name
    }

    /** A copy of the current counters (no resolution, no side effect). */
    function Counts(): (c: Counters.Counts)
      reads this
      ensures c == Model().counts
    {
      counts
    }

    /** The current state, after resolving any time-based transition that is due. */
    method State(now: int) returns (s: Machine.State)
      requires Valid()
      modifies this
      ensures Valid() && Model() == Machine.CurrentState(Settings(), old(Model()), now)
      ensures s == state
    {
      var gen;
      s, gen := CurrentState(now);
    }

    /** The admission hook: `None` means the request may go ahead. */
    method BeforeRequest(now: int) returns (err: Option<Error>)
      requires Valid()
      modifies this
      ensures Valid()
      ensures var d := Machine.BeforeRequest(Settings(), old(Model()), now);
        Model() == d.after && err == d.err
    {
      var gen;
      gen, err := Admit(now);
    }

    /** The success hook; it reports for the generation current at this moment. */
    method OnSuccess(now: int)
      requires Valid()
      modifies this
      ensures Valid() && Model() == Machine.OnSuccess(Settings(), old(Model()), now)
    {
      AfterRequest(generation, true, now);
    }

    /** The failure hook; it reports for the generation current at this moment. */
    method OnFailure(now: int)
      requires Valid()
      modifies this
      ensures Valid() && Model() == Machine.OnFailure(Settings(), old(Model()), now)
    {
      AfterRequest(generation, false, now);
    }

    /** The admission check, returning the generation the request belongs to. */
    method Admit(now: int) returns (gen: nat, err: Option<Error>)
      requires Valid()
      modifies this
      ensures Valid()
      ensures var d := Machine.BeforeRequest(Settings(), old(Model()), now);
        Model() == d.after && gen == d.generation && err == d.err
    {
      var s;
      s, gen := CurrentState(now);
      if s == Open {
        return gen, Some(ErrOpenState);
      } else if s == HalfOpen && counts.requests >= maxRequests {
        return gen, Some(ErrTooManyRequests);
      }
      counts := counts.OnRequest();
      err := None;
    }

    /** Apply a report for generation `before`, unless it has gone stale. */
    method AfterRequest(before: nat, success: bool, now: int)
      requires Valid()
      modifies this
      ensures Valid() && Model() == Machine.AfterRequest(Settings(), old(Model()), before, success, now)
    {
      var s, gen := CurrentState(now);
      if gen != before {
        return;
      }
      if success {
        RecordSuccess(s, now);
      } else {
        RecordFailure(s, now);
      }
    }

    method RecordSuccess(s: Machine.State, now: int)
      requires Valid()
      modifies this
      ensures Model() == Machine.RecordSuccess(Settings(), old(Model()), s, now)
      ensures s == old(state) ==> Valid()
    {
      match s
      case Closed =>
        counts := counts.OnSuccess();
      case HalfOpen =>
        counts := counts.OnSuccess();
        if counts.consecutiveSuccesses >= maxRequests {
          SetState(Closed, now);
        }
      case Open =>
    }

    method RecordFailure(s: Machine.State, now: int)
      requires Valid()
      modifies this
      ensures Model() == Machine.RecordFailure(Settings(), old(Model()), s, now)
      ensures s == old(state) ==> Valid()
    {
      match s
      case Closed =>
        counts := counts.OnFailure();
        if readyToTrip(counts) {
          SetState(Open, now);
        }
      case HalfOpen =>
        SetState(Open, now);
      case Open =>
    }

    /** Resolve the time-based transitions; returns the state and generation. */
    method CurrentState(now: int) returns (s: Machine.State, gen: nat)
      requires Valid()
      modifies this
      ensures Valid() && Model() == Machine.CurrentState(Settings(), old(Model()), now)
      ensures s == state && gen == generation
    {
      match state {
        case Closed =>
          if expiry.Some? && Before(expiry, now) {
            Reset(now);
          }
        case Open =>
          if Before(expiry, now) {
            SetState(HalfOpen, now);
          }
        case HalfOpen =>
      }
      return state, generation;
    }

    /** Move to state `s`, resetting the counters and telling the observer. */
    method SetState(s: Machine.State, now: int)
      requires SettingsValid(Settings())
      modifies this
      ensures Model() == Machine.SetState(Settings(), old(Model()), s, now)
    {
      if state == s {
        return;
      }
      var prev := state;
      state := s;
      Reset(now);
      if onStateChange {
        changes := changes + [Change(prev, s)];
      }
    }

    /** Start a new generation: bump the generation, clear the counters, set the expiry. */
    method Reset(now: int)
      requires SettingsValid(Settings())
      modifies this
      ensures Model() == Machine.Reset(Settings(), old(Model()), now)
    {
      generation := generation + 1;
      counts := counts.Clear();
      match state
      case Closed =>
        if interval == 0 {
          expiry := None;
        } else {
          expiry := Some(now + interval);
        }
      case Open =>
        expiry := Some(now + timeout);
      case HalfOpen =>
        expiry := None;
    }
  }
}
