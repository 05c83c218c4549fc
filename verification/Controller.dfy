/** Retry, circuit breaking and fallback (app/resilience.py:201-335). */
module Controller {
  import opened Options
  import opened CircuitTypes
  import opened LocalBreaker

  type Value = string

  /** An exception, with what the two predicates say of it. */
  datatype Error = Error(retrySafe: bool, fallbackSafe: bool, detail: string)
  datatype Ending = Returned(value: Value) | Threw(error: Error)
  datatype Attempt = Attempt(duration: nat, ending: Ending)

  datatype Route = Primary | Fallback
  datatype Executed =
    | Outcome(value: Value, route: Route, attempts: nat, circuitState: CircuitState, budget: Option<int>)
    | Failed(error: Error)
    | CircuitOpen(retryAfter: int)

  /** What the call did to the world: primary calls, `on_retry` calls, results recorded, `on_transition` calls and
      `on_fallback` calls (true for "succeeded"). */
  datatype Effects = Effects(primaryCalls: nat, retries: seq<Error>, records: seq<bool>,
      transitions: seq<Transition>, fallbacks: seq<bool>)

  datatype Policy = Policy(retries: nat, backoff: nat, budget: Option<int>)

  // ----- specification

  /** The k-th primary call is the last one. */
  predicate StopsAt(p: Policy, primary: nat -> Attempt, k: nat) {
    primary(k).ending.Returned? || !primary(k).ending.error.retrySafe || p.retries < k
  }

  /** The number of the last primary call, when the first `k - 1` calls were not the last. */
  function Attempts(p: Policy, primary: nat -> Attempt, k: nat): nat
    decreases p.retries + 1 - k
  {
    if StopsAt(p, primary, k) then k else Attempts(p, primary, k + 1)
  }

  /** Time taken by the first `k` calls and the sleeps between them. */
  function TimeSpent(p: Policy, primary: nat -> Attempt, k: nat): nat {
    if k == 0 then 0
    else TimeSpent(p, primary, k - 1) + (if k == 1 then 0 else p.backoff) + primary(k).duration
  }

  /** The errors of the first `k` calls. */
  function Errors(primary: nat -> Attempt, k: nat): seq<Error>
    requires forall j :: 1 <= j <= k ==> primary(j).ending.Threw?
  {
    if k == 0 then [] else Errors(primary, k - 1) + [primary(k).ending.error]
  }

  function AsList<T>(o: Option<T>): seq<T> {
    if o.Some? then [o.value] else []
  }

  datatype Done = Done(local: LocalState, now: int, executed: Executed, effects: Effects)

  /** `_run_fallback_or_raise` */
  function RunFallback(
      l: LocalState, cfg: Settings, now: int, p: Policy, fallback: Option<Attempt>, attempts: nat, fx: Effects): Done
  {
    match fallback
    case None =>
      var (l', snapshot) := Look(l, cfg, now);
      Done(l', now, CircuitOpen(Max(0, snapshot.retryAfter)), fx)
    case Some(Attempt(duration, Threw(error))) =>
      Done(l, now + duration, Failed(error), fx.(fallbacks := fx.fallbacks + [false]))
    case Some(Attempt(duration, Returned(value))) =>
      var l' := Advance(l, cfg, now + duration);
      Done(l', now + duration, Outcome(value, Fallback, attempts, l'.state, p.budget),
        fx.(fallbacks := fx.fallbacks + [true]))
  }

  lemma {:induction false} AttemptsIsLeast(p: Policy, primary: nat -> Attempt, k: nat)
    requires 1 <= k <= p.retries + 1
    ensures var n := Attempts(p, primary, k);
      && k <= n <= p.retries + 1
      && StopsAt(p, primary, n)
      && (forall j :: k <= j < n ==> !StopsAt(p, primary, j))
      && (forall j :: k <= j < n ==> primary(j).ending.Threw? && primary(j).ending.error.retrySafe)
    decreases p.retries + 1 - k
  {
    if !StopsAt(p, primary, k) {
      AttemptsIsLeast(p, primary, k + 1);
    }
  }

  /** After the last primary call: its result is recorded, and the fallback runs if it may. */
  function Conclude(
      l: LocalState, cfg: Settings, end: int, p: Policy, permit: Permit, ending: Ending, fallback: Option<Attempt>,
      attempts: nat, retried: seq<Error>): Done
  {
    match ending
    case Returned(value) =>
      var (l', transition) := Success(l);
      Done(l', end, Outcome(value, Primary, attempts, permit.state, None),
           Effects(attempts, retried, [true], AsList(transition), []))
    case Threw(error) =>
      var (l', transition) := Failure(l, cfg, end);
      var fx := Effects(attempts, retried, [false], AsList(transition), []);
      if fallback.Some? && error.fallbackSafe then RunFallback(l', cfg, end, p, fallback, attempts, fx)
      else Done(l', end, Failed(error), fx)
  }

  function Execute(
      l: LocalState, cfg: Settings, now: int, p: Policy, primary: nat -> Attempt, fallback: Option<Attempt>): Done
  {
    var (l1, decision) := Allow(l, cfg, now);
    match decision
    case Blocked(_) => RunFallback(l1, cfg, now, p, fallback, 0, Effects(0, [], [], [], []))
    case Allowed(permit) =>
      AttemptsIsLeast(p, primary, 1);
      var n := Attempts(p, primary, 1);
      Conclude(l1, cfg, now + TimeSpent(p, primary, n), p, permit, primary(n).ending, fallback, n,
        Errors(primary, n - 1))
  }

  // ----- the controller object

  class ResilienceController {
    const breaker: CircuitBreaker
    const policy: Policy

    constructor (b: CircuitBreaker, p: Policy)
      ensures breaker == b && policy == p
    {
      breaker, policy := b, p;
    }

    method ExecuteCall(primary: nat -> Attempt, fallback: Option<Attempt>) returns (executed: Executed, fx: Effects)
      modifies breaker, breaker.clock
      ensures Done(breaker.Contents(), breaker.clock.now, executed, fx)
           == Execute(old(breaker.Contents()), breaker.cfg, old(breaker.clock.now), policy, primary, fallback)
    {
      var decision := breaker.AllowPrimaryCall();
      if decision.Blocked? {
        executed, fx := FallbackOrRaise(fallback, 0, Effects(0, [], [], [], []));
        return;
      }
      var attempts, retried := CallPrimary(primary);
      executed, fx := RecordResult(decision.permit, primary(attempts).ending, fallback, attempts, retried);
    }

    /** The loop: primary calls and backoffs, up to the call that is the last one. */
    method CallPrimary(primary: nat -> Attempt) returns (attempts: nat, retried: seq<Error>)
      modifies breaker.clock
      ensures breaker.Contents() == old(breaker.Contents())
      ensures attempts == Attempts(policy, primary, 1)
      ensures breaker.clock.now == old(breaker.clock.now) + TimeSpent(policy, primary, attempts)
      ensures 1 <= attempts && (forall j :: 1 <= j < attempts ==> primary(j).ending.Threw?)
      ensures retried == Errors(primary, attempts - 1)
    {
      attempts, retried := 0, [];
      while true
        invariant attempts <= policy.retries
        invariant Attempts(policy, primary, attempts + 1) == Attempts(policy, primary, 1)
        invariant breaker.clock.now
               == old(breaker.clock.now) + TimeSpent(policy, primary, attempts)
                  + (if attempts == 0 then 0 else policy.backoff)
        invariant forall j :: 1 <= j <= attempts ==> primary(j).ending.Threw?
        invariant retried == Errors(primary, attempts)
        decreases policy.retries - attempts
      {
        attempts := attempts + 1;
        breaker.clock.Elapse(primary(attempts).duration);
        match primary(attempts).ending
        case Returned(_) => return;
        case Threw(error) =>
          if attempts <= policy.retries && error.retrySafe {
            retried := retried + [error];
            if policy.backoff > 0 {
              breaker.clock.Elapse(policy.backoff);
            }
            continue;
          }
          return;
      }
    }

    method RecordResult(
        permit: Permit, ending: Ending, fallback: Option<Attempt>, attempts: nat, retried: seq<Error>)
      returns (executed: Executed, fx: Effects)
      modifies breaker, breaker.clock
      ensures Done(breaker.Contents(), breaker.clock.now, executed, fx)
           == Conclude(old(breaker.Contents()), breaker.cfg, old(breaker.clock.now), policy, permit, ending,
             fallback, attempts, retried)
    {
      match ending
      case Returned(value) =>
        var transition := breaker.RecordSuccess();
        executed := Outcome(value, Primary, attempts, permit.state, None);
        fx := Effects(attempts, retried, [true], AsList(transition), []);
      case Threw(error) =>
        var transition := breaker.RecordFailure();
        fx := Effects(attempts, retried, [false], AsList(transition), []);
        if fallback.Some? && error.fallbackSafe {
          executed, fx := FallbackOrRaise(fallback, attempts, fx);
        } else {
          executed := Failed(error);
        }
    }

    method FallbackOrRaise(
        fallback: Option<Attempt>, attempts: nat, before: Effects)
      returns (executed: Executed, fx: Effects)
      modifies breaker, breaker.clock
      ensures Done(breaker.Contents(), breaker.clock.now, executed, fx)
           == RunFallback(old(breaker.Contents()), breaker.cfg, old(breaker.clock.now), policy, fallback, attempts,
             before)
    {
      match fallback
      case None =>
        var snapshot := breaker.TakeSnapshot();
        executed, fx := CircuitOpen(Max(0, snapshot.retryAfter)), before;
      case Some(attempt) =>
        breaker.clock.Elapse(attempt.duration);
        match attempt.ending
        case Threw(error) =>
          executed, fx := Failed(error), before.(fallbacks := before.fallbacks + [false]);
        case Returned(value) =>
          var state := breaker.GetState();
          executed := Outcome(value, Fallback, attempts, state, policy.budget);
          fx := before.(fallbacks := before.fallbacks + [true]);
    }
  }

  // ----- what a call does

  predicate Granted(l: LocalState, cfg: Settings, now: int) {
    Allow(l, cfg, now).1.Allowed?
  }

  /** A granted call makes primary calls up to the least one that succeeds, fails beyond retrying, or uses up the
      retries; it records exactly one result, that of the last call.  A refused call makes and records none. */
  lemma OneRecordPerPermit(
      l: LocalState, cfg: Settings, now: int, p: Policy, primary: nat -> Attempt, fallback: Option<Attempt>)
    ensures var fx := Execute(l, cfg, now, p, primary, fallback).effects;
      if !Granted(l, cfg, now) then fx.primaryCalls == 0 && fx.retries == [] && fx.records == [] && fx.transitions == []
      else
        && 1 <= fx.primaryCalls <= p.retries + 1
        && StopsAt(p, primary, fx.primaryCalls)
        && (forall j :: 1 <= j < fx.primaryCalls ==> !StopsAt(p, primary, j))
        && |fx.retries| == fx.primaryCalls - 1
        && (forall j :: 0 <= j < |fx.retries| ==>
          primary(j + 1).ending.Threw? && fx.retries[j] == primary(j + 1).ending.error && fx.retries[j].retrySafe)
        && fx.records == [primary(fx.primaryCalls).ending.Returned?]
  {
    AttemptsIsLeast(p, primary, 1);
    var n := Attempts(p, primary, 1);
    if Granted(l, cfg, now) {
      ErrorsAt(primary, n - 1);
    }
  }

  lemma {:induction false} ErrorsAt(primary: nat -> Attempt, k: nat)
    requires forall j :: 1 <= j <= k ==> primary(j).ending.Threw?
    ensures |Errors(primary, k)| == k
    ensures forall j :: 0 <= j < k ==> Errors(primary, k)[j] == primary(j + 1).ending.error
  {
    if k > 0 {
      ErrorsAt(primary, k - 1);
    }
  }

  /** The fallback runs at most once, and exactly when one is configured and the call was refused or its last primary
      failure is safe to fall back from. */
  lemma FallbackRunsExactlyWhen(
      l: LocalState, cfg: Settings, now: int, p: Policy, primary: nat -> Attempt, fallback: Option<Attempt>)
    ensures var done := Execute(l, cfg, now, p, primary, fallback);
      var fx := done.effects;
      && |fx.fallbacks| <= 1
      && (fx.fallbacks != [] <==>
            && fallback.Some?
            && (!Granted(l, cfg, now)
                || (primary(fx.primaryCalls).ending.Threw? && primary(fx.primaryCalls).ending.error.fallbackSafe)))
      && (fx.fallbacks != [] ==> fx.fallbacks == [fallback.value.ending.Returned?])
      && (done.executed.CircuitOpen? <==> fallback.None? && !Granted(l, cfg, now))
      && (done.executed.Outcome? && done.executed.route.Primary? <==> fx.records == [true])
  {
    AttemptsIsLeast(p, primary, 1);
  }

  /** The call's whole effect on the breaker: at most one permit, one record at the moment the last primary call ended,
      and whatever reading the state afterwards advances.  A probe it took is settled when it returns. */
  lemma EffectOnBreakerIsExact(
      l: LocalState, cfg: Settings, now: int, p: Policy, primary: nat -> Attempt, fallback: Option<Attempt>)
    ensures var done := Execute(l, cfg, now, p, primary, fallback);
      var fx := done.effects;
      var (l1, decision) := Allow(l, cfg, now);
      var l2 := if decision.Allowed?
                then Record(l1, cfg, now + TimeSpent(p, primary, fx.primaryCalls),
                  primary(fx.primaryCalls).ending.Returned?).0
                else l1;
      && (done.local == l2 || done.local == Advance(l2, cfg, done.now))
      && (decision.Allowed? ==> !done.local.probing)
      && (decision.Allowed? ==>
        fx.transitions == AsList(Record(l1, cfg, now + TimeSpent(p, primary, fx.primaryCalls),
        primary(fx.primaryCalls).ending.Returned?).1))
  {
    AttemptsIsLeast(p, primary, 1);
  }

  // ----- load on the primary during an outage

  datatype Request = Request(gap: nat, primary: nat -> Attempt, fallback: Option<Attempt>)

  /** Sequential calls so far: the breaker, the time, how many calls were granted, their primary attempts, when the
      breaker first opened and when the last grant was. */
  datatype Tally = Tally(local: LocalState, now: int, grants: nat, attempts: nat, firstOpen: Option<int>, last: int)

  function Serve(t: Tally, cfg: Settings, p: Policy, r: Request): Tally {
    var now := t.now + r.gap;
    var done := Execute(t.local, cfg, now, p, r.primary, r.fallback);
    var granted := Granted(t.local, cfg, now);
    Tally(done.local, done.now,
          if granted then t.grants + 1 else t.grants,
          t.attempts + done.effects.primaryCalls,
          if t.firstOpen.None? && done.effects.transitions != [] then done.local.openedAt else t.firstOpen,
          if granted then now else t.last)
  }

  function ServeAll(t: Tally, cfg: Settings, p: Policy, requests: seq<Request>): Tally
    decreases requests
  {
    if requests == [] then t else ServeAll(Serve(t, cfg, p, requests[0]), cfg, p, requests[1..])
  }

  ghost predicate AlwaysFails(r: Request) {
    forall k :: r.primary(k).ending.Threw?
  }

  predicate OutageInv(t: Tally, cfg: Settings) {
    var l := t.local;
    && !l.probing
    && (if l.state.Closed? then t.firstOpen.None? && l.openedAt.None? && t.grants == l.failures < cfg.threshold
        else
          && t.firstOpen.Some? && l.openedAt.Some? && cfg.threshold <= t.grants && cfg.threshold <= l.failures
          && t.last <= l.openedAt.value <= t.now
          && t.firstOpen.value + (t.grants - cfg.threshold) * cfg.recovery <= l.openedAt.value
          && (l.state.HalfOpen? ==> l.openedAt.value + cfg.recovery <= t.now)
          && (cfg.threshold < t.grants ==> t.firstOpen.value + (t.grants - cfg.threshold) * cfg.recovery <= t.last))
  }

  /** A failing call leaves the breaker as its one failure record, or the refusal, left it, give or take the step from
      open to half-open. */
  lemma FailingCall(l: LocalState, cfg: Settings, now: int, p: Policy, r: Request)
    requires AlwaysFails(r)
    ensures var done := Execute(l, cfg, now, p, r.primary, r.fallback);
      var l1 := Allow(l, cfg, now).0;
      var end := now + TimeSpent(p, r.primary, done.effects.primaryCalls);
      var l2 := if Granted(l, cfg, now) then Failure(l1, cfg, end).0 else l1;
      && now <= end <= done.now
      && (done.local == l2 || done.local == Advance(l2, cfg, done.now))
      && (done.effects.transitions != [] <==> Granted(l, cfg, now) && Failure(l1, cfg, end).1.Some?)
      && done.effects.primaryCalls <= (if Granted(l, cfg, now) then p.retries + 1 else 0)
  {
    AttemptsIsLeast(p, r.primary, 1);
  }

  lemma RefusedKeepsOutage(t: Tally, cfg: Settings, p: Policy, r: Request)
    requires cfg.Valid() && OutageInv(t, cfg) && AlwaysFails(r) && !Granted(t.local, cfg, t.now + r.gap)
    ensures OutageInv(Serve(t, cfg, p, r), cfg)
  {
    FailingCall(t.local, cfg, t.now + r.gap, p, r);
  }

  lemma OneMoreSpan(n: int, span: int)
    ensures (n + 1) * span == n * span + span
  {
  }

  /** A granted call that fails at `end`, whatever it did otherwise. */
  lemma FailureKeepsOutage(t: Tally, cfg: Settings, now: int, end: int, u: Tally)
    requires cfg.Valid() && OutageInv(t, cfg) && Granted(t.local, cfg, now) && t.now <= now <= end <= u.now
    requires var (l2, transition) := Failure(Allow(t.local, cfg, now).0, cfg, end);
      && (u.local == l2 || u.local == Advance(l2, cfg, u.now))
      && u.firstOpen == (if t.firstOpen.None? && transition.Some? then u.local.openedAt else t.firstOpen)
    requires u.grants == t.grants + 1 && u.last == now
    ensures OutageInv(u, cfg)
  {
    OneMoreSpan(t.grants - cfg.threshold, cfg.recovery);
    assert t.grants + 1 - cfg.threshold == t.grants - cfg.threshold + 1;
  }

  lemma GrantedKeepsOutage(t: Tally, cfg: Settings, p: Policy, r: Request)
    requires cfg.Valid() && OutageInv(t, cfg) && AlwaysFails(r) && Granted(t.local, cfg, t.now + r.gap)
    ensures OutageInv(Serve(t, cfg, p, r), cfg)
  {
    var now := t.now + r.gap;
    FailingCall(t.local, cfg, now, p, r);
    var done := Execute(t.local, cfg, now, p, r.primary, r.fallback);
    FailureKeepsOutage(t, cfg, now, now + TimeSpent(p, r.primary, done.effects.primaryCalls), Serve(t, cfg, p, r));
  }

  lemma OneMoreGrant(retries: nat, grants: nat)
    ensures (retries + 1) * (grants + 1) == (retries + 1) * grants + (retries + 1)
  {
  }

  lemma {:induction false} OutageKept(t: Tally, cfg: Settings, p: Policy, requests: seq<Request>)
    requires cfg.Valid() && OutageInv(t, cfg) && t.attempts <= (p.retries + 1) * t.grants
    requires forall i :: 0 <= i < |requests| ==> AlwaysFails(requests[i])
    ensures var u := ServeAll(t, cfg, p, requests);
      OutageInv(u, cfg) && u.attempts <= (p.retries + 1) * u.grants
    decreases requests
  {
    if requests != [] {
      var r := requests[0];
      assert AlwaysFails(r);
      FailingCall(t.local, cfg, t.now + r.gap, p, r);
      if Granted(t.local, cfg, t.now + r.gap) {
        GrantedKeepsOutage(t, cfg, p, r);
        OneMoreGrant(p.retries, t.grants);
      } else {
        RefusedKeepsOutage(t, cfg, p, r);
      }
      OutageKept(Serve(t, cfg, p, r), cfg, p, requests[1..]);
    }
  }

  lemma QuotientBound(n: int, d: int, r: int)
    requires 0 < r && n * r <= d
    ensures n <= d / r
  {
    var q := d / r;
    assert d == r * q + d % r;
    assert (q + 1) * r == r * q + r;
    if n > q {
      Monotone(q + 1, n, r);
      assert false;
    }
  }

  lemma Monotone(a: int, b: int, c: int)
    requires a <= b && 0 <= c
    ensures a * c <= b * c
  {
    assert b * c - a * c == (b - a) * c;
  }

  lemma GrantsAreBounded(t: Tally, cfg: Settings, d: int)
    requires cfg.Valid() && 0 <= d && OutageInv(t, cfg) && t.firstOpen.Some? && t.last <= t.firstOpen.value + d
    ensures t.grants <= cfg.threshold + d / cfg.recovery
  {
    if cfg.threshold < t.grants {
      QuotientBound(t.grants - cfg.threshold, d, cfg.recovery);
    }
  }

  /** The load bound: when the primary always fails and calls come one after another, then up to a time D after the
      breaker first opened the primary is tried at most (retries + 1) * (threshold + D / recovery timeout) times, and
      before it opened fewer than (retries + 1) * threshold times. */
  lemma OutageLoadIsBounded(cfg: Settings, p: Policy, now: int, requests: seq<Request>, d: int)
    requires cfg.Valid() && 0 <= d
    requires forall i :: 0 <= i < |requests| ==> AlwaysFails(requests[i])
    ensures var t := ServeAll(Tally(FRESH, now, 0, 0, None, now), cfg, p, requests);
      && (t.firstOpen.None? ==> t.attempts <= (p.retries + 1) * (cfg.threshold - 1))
      && (t.firstOpen.Some? && t.last <= t.firstOpen.value + d ==>
            t.attempts <= (p.retries + 1) * (cfg.threshold + d / cfg.recovery))
  {
    var t := ServeAll(Tally(FRESH, now, 0, 0, None, now), cfg, p, requests);
    OutageKept(Tally(FRESH, now, 0, 0, None, now), cfg, p, requests);
    AttemptsAreBounded(t, cfg, p, d);
  }

  lemma AttemptsAreBounded(t: Tally, cfg: Settings, p: Policy, d: int)
    requires cfg.Valid() && 0 <= d && OutageInv(t, cfg) && t.attempts <= (p.retries + 1) * t.grants
    ensures t.firstOpen.None? ==> t.attempts <= (p.retries + 1) * (cfg.threshold - 1)
    ensures t.firstOpen.Some? && t.last <= t.firstOpen.value + d ==>
      t.attempts <= (p.retries + 1) * (cfg.threshold + d / cfg.recovery)
  {
    if t.firstOpen.None? {
      BudgetGrows(p.retries, t.grants, cfg.threshold - 1);
    } else if t.last <= t.firstOpen.value + d {
      GrantsAreBounded(t, cfg, d);
      BudgetGrows(p.retries, t.grants, cfg.threshold + d / cfg.recovery);
    }
  }

  lemma BudgetGrows(retries: nat, a: int, b: int)
    requires a <= b
    ensures (retries + 1) * a <= (retries + 1) * b
  {
    Monotone(a, b, retries + 1);
  }
}
