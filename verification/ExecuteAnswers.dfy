/** What `execute` gives back (app/resilience.py:244-335). */
module ExecuteAnswers {
  import opened Options
  import opened CircuitTypes
  import opened LocalBreaker
  import C = Controller
  import LT = LocalBreakerTheorems

  /** The last primary call, counting from 1. */
  function LastEnding(primary: nat -> C.Attempt, fx: C.Effects): C.Ending {
    primary(fx.primaryCalls).ending
  }

  /** The caller gets the answer of the call that gave one, and is told how it came about.
      - From the primary: the value of the last primary call, the number of calls made, and the state the permit was
        granted in.
      - From the fallback: its value, the number of primary calls made before, the fallback's budget, and the state the
        breaker shows afterwards.
      - Otherwise the fallback's error when it ran, and the error of the last primary call when it did not. */
  lemma AnswerIsTheLastCalls(l: LocalState, cfg: Settings, now: int, p: C.Policy, primary: nat -> C.Attempt,
      fallback: Option<C.Attempt>)
    ensures var done := C.Execute(l, cfg, now, p, primary, fallback);
      var fx, permitted := done.effects, Allow(l, cfg, now).1;
      match done.executed
      case Outcome(value, Primary, attempts, state, budget) =>
        && permitted.Allowed? && LastEnding(primary, fx) == C.Returned(value)
        && attempts == fx.primaryCalls && state == permitted.permit.state && budget == None
      case Outcome(value, Fallback, attempts, state, budget) =>
        && fallback.Some? && fallback.value.ending == C.Returned(value)
        && attempts == fx.primaryCalls && state == done.local.state && budget == p.budget
        && (permitted.Allowed? ==> LastEnding(primary, fx).Threw?)
      case Failed(error) =>
        if fx.fallbacks != [] then fallback.Some? && fallback.value.ending == C.Threw(error)
        else permitted.Allowed? && LastEnding(primary, fx) == C.Threw(error)
      case CircuitOpen(retryAfter) =>
        && !permitted.Allowed? && fallback.None? && fx == C.Effects(0, [], [], [], [])
  {
    C.AttemptsIsLeast(p, primary, 1);
  }

  /** It takes as long as the primary calls and the sleeps between them, and the fallback if that runs. */
  lemma AnswerComesAfter(l: LocalState, cfg: Settings, now: int, p: C.Policy, primary: nat -> C.Attempt,
      fallback: Option<C.Attempt>)
    ensures var done := C.Execute(l, cfg, now, p, primary, fallback);
      done.now == now + C.TimeSpent(p, primary, done.effects.primaryCalls)
                  + (if done.effects.fallbacks != [] && fallback.Some? then fallback.value.duration else 0)
  {
    C.AttemptsIsLeast(p, primary, 1);
  }

  /** A refusal without fallback tells when to come back: while the breaker is open a request that much later is
      granted, and no earlier one is.  While it is half-open the refusal says 0, although a probe is in the way. */
  lemma RefusalSaysWhen(start: int, cfg: Settings, steps: seq<LT.Step>, p: C.Policy, primary: nat -> C.Attempt,
      fallback: Option<C.Attempt>, wait: nat)
    requires cfg.Valid()
    requires var y := LT.Reached(start, cfg, steps);
      C.Execute(y.local, cfg, y.now, p, primary, fallback).executed.CircuitOpen?
    ensures var y := LT.Reached(start, cfg, steps);
      var done := C.Execute(y.local, cfg, y.now, p, primary, fallback);
      var retryAfter := done.executed.retryAfter;
      && done.now == y.now
      && (done.local.state.Open? ==>
            0 < retryAfter && (Allow(done.local, cfg, done.now + wait).1.Allowed? <==> retryAfter <= wait))
      && (!done.local.state.Open? ==> retryAfter == 0 && done.local.state.HalfOpen? && done.local.probing)
  {
    LT.RunKeeps(LT.Init(start), cfg, steps);
  }
}
