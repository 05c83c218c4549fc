/** The circuit breaker shared through Redis (app/redis_circuit_breaker.py:19-262).

    `Shared` is the state hash and the probe key; each Lua script is a function on it, and a method of the class below
    that performs the script's commands in order.  Redis drops a key once the time is past its expiry, so the probe key
    is still there at the instant its lease ends. */
module SharedBreaker {
  import opened Options
  import opened CircuitTypes

  datatype Probe = Probe(token: Token, expiresAt: int)

  datatype Shared = Shared(state: CircuitState, version: nat, failures: nat, openedAt: int, probe: Option<Probe>)

  const FRESH := Shared(Closed, 0, 0, 0, None)

  datatype Decision = Allowed(permit: Permit) | Blocked(state: CircuitState, remaining: int)
  datatype Response = Stale(current: CircuitState) | Unmoved | Moved(transition: Transition)

  predicate ProbeLive(s: Shared, now: int) {
    s.probe.Some? && now <= s.probe.value.expiresAt
  }

  /** PTTL: what is left of the key, or a negative number when there is none. */
  function ProbeTtl(s: Shared, now: int): int {
    if ProbeLive(s, now) then s.probe.value.expiresAt - now else -2
  }

  /** SET probe NX PX and what the allow script does with either answer. */
  function Acquire(s: Shared, cfg: Settings, now: int, token: Token): (Shared, Decision) {
    if ProbeLive(s, now) then
      (s, Blocked(HalfOpen, if ProbeTtl(s, now) < 0 then cfg.lease else ProbeTtl(s, now)))
    else
      (Shared(HalfOpen, s.version + 1, 0, 0, Some(Probe(token, now + cfg.lease))),
       Allowed(Permit(HalfOpen, Some(s.version + 1), Some(token), Redis)))
  }

  function Allow(s: Shared, cfg: Settings, now: int, token: Token): (Shared, Decision) {
    match s.state
    case Closed => (s, Allowed(Permit(Closed, Some(s.version), None, Redis)))
    case Open =>
      var remaining := cfg.recovery - (now - s.openedAt);
      if remaining > 0 then (s, Blocked(Open, remaining)) else Acquire(s, cfg, now, token)
    case HalfOpen => Acquire(s, cfg, now, token)
  }

  function PermitVersion(permit: Permit): nat {
    if permit.version.Some? then permit.version.value else 0
  }

  /** The test both recording scripts start with. */
  predicate Current(s: Shared, now: int, permit: Permit) {
    && s.state == permit.state && s.version == PermitVersion(permit)
    && (permit.state.HalfOpen? ==> ProbeLive(s, now) && permit.token == Some(s.probe.value.token))
    && !permit.state.Open?
  }

  function RecordSuccess(s: Shared, now: int, permit: Permit): (Shared, Response) {
    if !Current(s, now, permit) then (s, Stale(s.state))
    else if permit.state.HalfOpen? then
      (Shared(Closed, s.version + 1, 0, 0, None), Moved(Transition(HalfOpen, Closed)))
    else (s.(failures := 0, openedAt := 0), Unmoved)
  }

  function RecordFailure(s: Shared, cfg: Settings, now: int, permit: Permit): (Shared, Response) {
    if !Current(s, now, permit) then (s, Stale(s.state))
    else if permit.state.HalfOpen? then
      (Shared(Open, s.version + 1, cfg.threshold, now, None), Moved(Transition(HalfOpen, Open)))
    else if s.failures + 1 >= cfg.threshold then
      (s.(state := Open, version := s.version + 1, failures := s.failures + 1, openedAt := now),
        Moved(Transition(Closed, Open)))
    else (s.(failures := s.failures + 1, openedAt := 0), Unmoved)
  }

  function Record(s: Shared, cfg: Settings, now: int, permit: Permit, ok: bool): (Shared, Response) {
    if ok then RecordSuccess(s, now, permit) else RecordFailure(s, cfg, now, permit)
  }

  function Look(s: Shared, cfg: Settings, now: int): Snapshot {
    Snapshot(s.state, s.failures, if s.state.Open? then Max(0, cfg.recovery - (now - s.openedAt)) else 0)
  }

  // ----- the scripts, command by command

  class BreakerStore {
    var state: CircuitState
    var version: nat
    var failures: nat
    var openedAt: int
    var probe: Option<Probe>

    ghost function Contents(): Shared
      reads this
    {
      Shared(state, version, failures, openedAt, probe)
    }

    constructor ()
      ensures Contents() == FRESH
    {
      state, version, failures, openedAt, probe := Closed, 0, 0, 0, None;
    }

    /** SET key token NX PX lease */
    method SetProbeIfAbsent(now: int, lease: int, token: Token) returns (acquired: bool)
      modifies this`probe
      ensures acquired <==> !ProbeLive(old(Contents()), now)
      ensures probe == if acquired then Some(Probe(token, now + lease)) else old(probe)
    {
      if probe.Some? && now <= probe.value.expiresAt {
        return false;
      }
      probe := Some(Probe(token, now + lease));
      return true;
    }

    method GetProbe(now: int) returns (token: Option<Token>)
      ensures token == if ProbeLive(Contents(), now) then Some(probe.value.token) else None
    {
      if probe.None? || probe.value.expiresAt < now {
        return None;
      }
      return Some(probe.value.token);
    }

    method ProbePttl(now: int) returns (ms: int)
      ensures ms == ProbeTtl(Contents(), now)
    {
      if probe.None? || probe.value.expiresAt < now {
        return -2;
      }
      return probe.value.expiresAt - now;
    }

    method AllowScript(cfg: Settings, now: int, token: Token) returns (decision: Decision)
      modifies this
      ensures (Contents(), decision) == Allow(old(Contents()), cfg, now, token)
    {
      if state == Closed {
        return Allowed(Permit(Closed, Some(version), None, Redis));
      }
      if state == Open {
        var remaining := cfg.recovery - (now - openedAt);
        if remaining > 0 {
          return Blocked(Open, remaining);
        }
      }
      var acquired := SetProbeIfAbsent(now, cfg.lease, token);
      if acquired {
        version := version + 1;
        state, failures, openedAt := HalfOpen, 0, 0;
        return Allowed(Permit(HalfOpen, Some(version), Some(token), Redis));
      }
      var remaining := ProbePttl(now);
      if remaining < 0 {
        remaining := cfg.lease;
      }
      return Blocked(HalfOpen, remaining);
    }

    method SuccessScript(now: int, permit: Permit) returns (response: Response)
      modifies this
      ensures (Contents(), response) == RecordSuccess(old(Contents()), now, permit)
    {
      if state != permit.state || version != PermitVersion(permit) {
        return Stale(state);
      }
      if permit.state == HalfOpen {
        var held := GetProbe(now);
        if held.None? || held != permit.token {
          return Stale(state);
        }
        state, failures, openedAt := Closed, 0, 0;
        version := version + 1;
        probe := None;
        return Moved(Transition(HalfOpen, Closed));
      }
      if permit.state == Closed {
        state, failures, openedAt := Closed, 0, 0;
        return Unmoved;
      }
      return Stale(state);
    }

    method FailureScript(cfg: Settings, now: int, permit: Permit) returns (response: Response)
      modifies this
      ensures (Contents(), response) == RecordFailure(old(Contents()), cfg, now, permit)
    {
      if state != permit.state || version != PermitVersion(permit) {
        return Stale(state);
      }
      if permit.state == HalfOpen {
        var held := GetProbe(now);
        if held.None? || held != permit.token {
          return Stale(state);
        }
        state, failures, openedAt := Open, cfg.threshold, now;
        version := version + 1;
        probe := None;
        return Moved(Transition(HalfOpen, Open));
      }
      if permit.state == Closed {
        failures := failures + 1;
        if failures >= cfg.threshold {
          state, openedAt := Open, now;
          version := version + 1;
          return Moved(Transition(Closed, Open));
        }
        state, openedAt := Closed, 0;
        return Unmoved;
      }
      return Stale(state);
    }

    method SnapshotScript(cfg: Settings, now: int) returns (snapshot: Snapshot)
      ensures snapshot == Look(Contents(), cfg, now)
    {
      var remaining := 0;
      if state == Open {
        remaining := cfg.recovery - (now - openedAt);
        if remaining < 0 {
          remaining := 0;
        }
      }
      snapshot := Snapshot(state, failures, remaining);
    }
  }
}
