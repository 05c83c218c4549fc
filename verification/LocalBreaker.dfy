/** The process-local circuit breaker (app/resilience.py:76-198).

    Every public method holds the lock for its whole body, so each is one atomic step at one reading of the clock. */
module LocalBreaker {
  import opened Options
  import opened CircuitTypes

  datatype LocalState = LocalState(state: CircuitState, failures: nat, openedAt: Option<int>, probing: bool)

  const FRESH := LocalState(Closed, 0, None, false)

  datatype Decision = Allowed(permit: Permit) | Blocked(remaining: int)

  /** `_remaining_open_seconds` */
  function Remaining(l: LocalState, cfg: Settings, now: int): int {
    if l.openedAt.None? then 0 else Max(0, cfg.recovery - (now - l.openedAt.value))
  }

  /** `_advance_open_state_if_ready` */
  function Advance(l: LocalState, cfg: Settings, now: int): LocalState {
    if l.state.Open? && Remaining(l, cfg, now) <= 0 then l.(state := HalfOpen, probing := false) else l
  }

  function Allow(l: LocalState, cfg: Settings, now: int): (LocalState, Decision) {
    var a := Advance(l, cfg, now);
    match a.state
    case Open => (a, Blocked(Remaining(a, cfg, now)))
    case HalfOpen =>
      if a.probing then (a, Blocked(Remaining(a, cfg, now)))
      else (a.(probing := true), Allowed(Permit(HalfOpen, None, None, Local)))
    case Closed => (a, Allowed(Permit(Closed, None, None, Local)))
  }

  function Success(l: LocalState): (LocalState, Option<Transition>) {
    (FRESH, if l.state.Closed? then None else Some(Transition(l.state, Closed)))
  }

  function Opened(l: LocalState, now: int): LocalState {
    l.(state := Open, openedAt := Some(now))
  }

  function Failure(l: LocalState, cfg: Settings, now: int): (LocalState, Option<Transition>) {
    var calm := l.(probing := false);
    if l.state.HalfOpen? then (Opened(calm, now), Some(Transition(HalfOpen, Open)))
    else
      var counted := calm.(failures := calm.failures + 1);
      if counted.failures >= cfg.threshold
      then (Opened(counted, now), if l.state.Open? then None else Some(Transition(l.state, Open)))
      else (counted, None)
  }

  function Record(l: LocalState, cfg: Settings, now: int, ok: bool): (LocalState, Option<Transition>) {
    if ok then Success(l) else Failure(l, cfg, now)
  }

  function Look(l: LocalState, cfg: Settings, now: int): (LocalState, Snapshot) {
    var a := Advance(l, cfg, now);
    (a, Snapshot(a.state, a.failures, Remaining(a, cfg, now)))
  }

  // ----- the breaker object

  class Clock {
    var now: int

    constructor (start: int)
      ensures now == start
    {
      now := start;
    }

    method Elapse(ticks: nat)
      modifies this
      ensures now == old(now) + ticks
    {
      now := now + ticks;
    }
  }

  class CircuitBreaker {
    const cfg: Settings
    const clock: Clock
    var state: CircuitState
    var failures: nat
    var openedAt: Option<int>
    var probing: bool

    ghost function Contents(): LocalState
      reads this
    {
      LocalState(state, failures, openedAt, probing)
    }

    constructor (settings: Settings, c: Clock)
      ensures Contents() == FRESH && cfg == settings && clock == c
    {
      cfg, clock := settings, c;
      state, failures, openedAt, probing := Closed, 0, None, false;
    }

    method RemainingOpen() returns (remaining: int)
      ensures remaining == Remaining(Contents(), cfg, clock.now)
    {
      if openedAt.None? {
        return 0;
      }
      var elapsed := clock.now - openedAt.value;
      return Max(0, cfg.recovery - elapsed);
    }

    method AdvanceIfReady()
      modifies this
      ensures Contents() == Advance(old(Contents()), cfg, clock.now)
    {
      if state != Open {
        return;
      }
      var remaining := RemainingOpen();
      if remaining > 0 {
        return;
      }
      state := HalfOpen;
      probing := false;
    }

    method GetState() returns (current: CircuitState)
      modifies this
      ensures Contents() == Advance(old(Contents()), cfg, clock.now) && current == state
    {
      AdvanceIfReady();
      current := state;
    }

    method AllowPrimaryCall() returns (decision: Decision)
      modifies this
      ensures (Contents(), decision) == Allow(old(Contents()), cfg, clock.now)
    {
      AdvanceIfReady();
      if state == Open {
        var remaining := RemainingOpen();
        return Blocked(remaining);
      }
      if state == HalfOpen {
        if probing {
          var remaining := RemainingOpen();
          return Blocked(remaining);
        }
        probing := true;
      }
      return Allowed(Permit(state, None, None, Local));
    }

    method RecordSuccess() returns (transition: Option<Transition>)
      modifies this
      ensures (Contents(), transition) == Success(old(Contents()))
    {
      var previous := state;
      state := Closed;
      failures := 0;
      openedAt := None;
      probing := false;
      return if previous != Closed then Some(Transition(previous, Closed)) else None;
    }

    method RecordFailure() returns (transition: Option<Transition>)
      modifies this
      ensures (Contents(), transition) == Failure(old(Contents()), cfg, clock.now)
    {
      var previous := state;
      probing := false;
      if previous == HalfOpen {
        OpenNow();
        return Some(Transition(HalfOpen, Open));
      }
      failures := failures + 1;
      if failures >= cfg.threshold {
        OpenNow();
        if previous != Open {
          return Some(Transition(previous, Open));
        }
      }
      return None;
    }

    method OpenNow()
      modifies this`state, this`openedAt
      ensures state == Open && openedAt == Some(clock.now)
    {
      state := Open;
      openedAt := Some(clock.now);
    }

    method TakeSnapshot() returns (snapshot: Snapshot)
      modifies this
      ensures (Contents(), snapshot) == Look(old(Contents()), cfg, clock.now)
    {
      AdvanceIfReady();
      var remaining := RemainingOpen();
      snapshot := Snapshot(state, failures, remaining);
    }
  }
}
