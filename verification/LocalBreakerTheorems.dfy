/** What the process-local breaker guarantees when calls overlap, so that results arrive late and in any order. */
module LocalBreakerTheorems {
  import opened Options
  import H = History
  import opened CircuitTypes
  import opened LocalBreaker

  datatype Event =
    | Granted(state: CircuitState, at: int)
    | Refused(remaining: int, at: int)
    | Recorded(ok: bool, transition: Option<Transition>, at: int)
    | Looked(at: int)

  type Log = H.Log<Event>

  datatype System = System(local: LocalState, now: int, log: Log)

  /** Results carry no permit that matters, so a report may come at any time, from any call. */
  datatype Step = Ask(wait: nat) | Report(wait: nat, ok: bool) | Observe(wait: nat)

  function Init(now: int): System {
    System(FRESH, now, H.Start)
  }

  function Next(y: System, cfg: Settings, step: Step): System {
    var now := y.now + step.wait;
    match step
    case Ask(_) =>
      var (l, decision) := Allow(y.local, cfg, now);
      System(l, now, H.Then(y.log, match decision
                                 case Allowed(permit) => Granted(permit.state, now)
                                 case Blocked(remaining) => Refused(remaining, now)))
    case Report(_, ok) =>
      var (l, transition) := Record(y.local, cfg, now, ok);
      System(l, now, H.Then(y.log, Recorded(ok, transition, now)))
    case Observe(_) => System(Look(y.local, cfg, now).0, now, H.Then(y.log, Looked(now)))
  }

  function Run(y: System, cfg: Settings, steps: seq<Step>): System
    decreases steps
  {
    if steps == [] then y else Run(Next(y, cfg, steps[0]), cfg, steps[1..])
  }

  function Reached(now: int, cfg: Settings, steps: seq<Step>): System {
    Run(Init(now), cfg, steps)
  }

  predicate Probe(e: Event) {
    e.Granted? && e.state.HalfOpen?
  }

  /** Times of the half-open grants, newest first. */
  function ProbeTimes(log: Log): seq<int> {
    match log
    case Start => []
    case Then(l, e) => if Probe(e) then [e.at] + ProbeTimes(l) else ProbeTimes(l)
  }

  /** How many of the newest results are failures in a row. */
  function FailingSuffix(log: Log): nat {
    match log
    case Start => 0
    case Then(l, e) => if e.Recorded? then (if e.ok then 0 else FailingSuffix(l) + 1) else FailingSuffix(l)
  }

  predicate Inv(y: System, cfg: Settings) {
    var l, times := y.local, ProbeTimes(y.log);
    && H.Spaced(times, cfg.recovery)
    && (times != [] ==> times[0] <= y.now)
    && (l.state.Closed? <==> l.openedAt.None?)
    && (l.state.Closed? ==> !l.probing && l.failures == FailingSuffix(y.log) < cfg.threshold)
    && (!l.state.Closed? ==> FailingSuffix(y.log) >= l.failures >= cfg.threshold && l.openedAt.value <= y.now)
    && (l.state.Open? ==> !l.probing)
    && (l.state.Open? && times != [] ==> times[0] <= l.openedAt.value)
    && (l.state.HalfOpen? ==> y.now - l.openedAt.value >= cfg.recovery)
    && (l.state.HalfOpen? && !l.probing && times != [] ==> times[0] <= l.openedAt.value)
  }

  lemma StepKeeps(y: System, cfg: Settings, step: Step)
    requires cfg.Valid() && Inv(y, cfg)
    ensures Inv(Next(y, cfg, step), cfg)
  {
    var z := Next(y, cfg, step);
    if Probe(z.log.event) {
      H.SpacedCons(z.now, ProbeTimes(y.log), cfg.recovery);
    }
  }

  lemma {:induction false} RunKeeps(y: System, cfg: Settings, steps: seq<Step>)
    requires cfg.Valid() && Inv(y, cfg)
    ensures Inv(Run(y, cfg, steps), cfg)
    decreases steps
  {
    if steps != [] {
      StepKeeps(y, cfg, steps[0]);
      RunKeeps(Next(y, cfg, steps[0]), cfg, steps[1..]);
    }
  }

  /** Two half-open grants are at least the recovery timeout apart, whatever late results do in between. */
  lemma ProbesAreSpaced(now: int, cfg: Settings, steps: seq<Step>, i: nat, j: nat)
    requires cfg.Valid() && i < j < |ProbeTimes(Reached(now, cfg, steps).log)|
    ensures var times := ProbeTimes(Reached(now, cfg, steps).log);
      times[i] - times[j] >= cfg.recovery
  {
    RunKeeps(Init(now), cfg, steps);
    H.SpacedPairwise(ProbeTimes(Reached(now, cfg, steps).log), cfg.recovery, i, j);
  }

  /** The breaker lets calls through freely exactly while fewer than `threshold` of the newest results are failures: any
      success closes it, whichever call it belongs to. */
  lemma ClosedExactlyBelowThreshold(now: int, cfg: Settings, steps: seq<Step>)
    requires cfg.Valid()
    ensures var y := Reached(now, cfg, steps);
      y.local.state.Closed? <==> FailingSuffix(y.log) < cfg.threshold
  {
    RunKeeps(Init(now), cfg, steps);
  }

  /** Unlike the shared breaker's, the refusal time of this one is exact only while it is open.  While a probe is in
      flight it reports 0, yet refuses every request until some result is recorded, however long that takes. */
  lemma RefusalTimeIsExactOnlyWhileOpen(now: int, cfg: Settings, steps: seq<Step>, ask: Step, wait: nat)
    requires cfg.Valid() && ask.Ask? && Next(Reached(now, cfg, steps), cfg, ask).log.event.Refused?
    ensures var z := Next(Reached(now, cfg, steps), cfg, ask);
      var remaining := z.log.event.remaining;
      && (z.local.state.Open? <==> remaining > 0)
      && (z.local.state.Open? ==> (Next(z, cfg, Ask(wait)).log.event.Granted? <==> wait >= remaining))
      && (!z.local.state.Open? ==>
        z.local.state.HalfOpen? && z.local.probing && !Next(z, cfg, Ask(wait)).log.event.Granted?)
  {
    RunKeeps(Init(now), cfg, steps);
  }

  /** A probe is in flight. */
  predicate Wedged(y: System) {
    y.local.state.HalfOpen? && y.local.probing
  }

  /** In every reachable state a request is granted exactly when no probe is in flight and, if the breaker is open, the
      recovery timeout has passed. */
  lemma GrantsExactlyWhen(now: int, cfg: Settings, steps: seq<Step>, wait: nat)
    requires cfg.Valid()
    ensures var y := Reached(now, cfg, steps);
      Next(y, cfg, Ask(wait)).log.event.Granted? <==>
        && !Wedged(y)
        && (y.local.state.Open? ==> y.local.openedAt.Some? && y.local.openedAt.value + cfg.recovery <= y.now + wait)
  {
    RunKeeps(Init(now), cfg, steps);
  }

  /** A recorded result reports a transition exactly when it changes the state.  A success closes the breaker; a failure
      that leaves it open, late or not, makes requests wait for the whole recovery timeout from then on. */
  lemma ResultMovesTheBreaker(now: int, cfg: Settings, steps: seq<Step>, report: Step, wait: nat)
    requires cfg.Valid() && report.Report?
    ensures var y := Reached(now, cfg, steps);
      var z := Next(y, cfg, report);
      var moved := if z.local.state == y.local.state then None else Some(Transition(y.local.state, z.local.state));
      && z.log.event == Recorded(report.ok, moved, z.now)
      && (report.ok ==> z.local.state.Closed?)
      && (!report.ok && !z.local.state.Closed? ==>
            z.local.state.Open? && (Next(z, cfg, Ask(wait)).log.event.Granted? <==> cfg.recovery <= wait))
  {
    RunKeeps(Init(now), cfg, steps);
  }

  /** A snapshot says what the breaker is: the state a request would now find, the failures in a row while it is closed,
      and while it is open exactly how long requests will still be refused. */
  lemma SnapshotIsExact(now: int, cfg: Settings, steps: seq<Step>, wait: nat)
    requires cfg.Valid()
    ensures var y := Reached(now, cfg, steps);
      var (l, seen) := Look(y.local, cfg, y.now);
      && seen.state == l.state && (y.local.state != l.state ==> y.local.state.Open? && l.state.HalfOpen? && !l.probing)
      && (seen.state.Closed? ==> seen.failures == FailingSuffix(y.log) && seen.retryAfter == 0)
      && (seen.state.HalfOpen? ==> seen.failures >= cfg.threshold && seen.retryAfter == 0)
      && (seen.state.Open? ==>
            && seen.failures >= cfg.threshold && 0 < seen.retryAfter
            && (Allow(l, cfg, y.now + wait).1.Allowed? <==> seen.retryAfter <= wait))
  {
    RunKeeps(Init(now), cfg, steps);
  }

  function Failures(n: nat): seq<Step> {
    if n == 0 then [] else Failures(n - 1) + [Report(0, false)]
  }

  lemma {:induction false} RunThen(y: System, cfg: Settings, steps: seq<Step>, step: Step)
    ensures Run(y, cfg, steps + [step]) == Next(Run(y, cfg, steps), cfg, step)
    decreases steps
  {
    if steps == [] {
      assert ([] + [step])[1..] == [] && steps + [step] == [step];
    } else {
      assert (steps + [step])[1..] == steps[1..] + [step];
      RunThen(Next(y, cfg, steps[0]), cfg, steps[1..], step);
    }
  }

  lemma {:induction false} FailuresCount(now: int, cfg: Settings, n: nat)
    requires cfg.Valid() && n <= cfg.threshold
    ensures var y := Reached(now, cfg, Failures(n));
      && y.now == now && y.local.failures == n && !y.local.probing
      && (if n < cfg.threshold then y.local.state.Closed? else y.local.state.Open? && y.local.openedAt == Some(now))
  {
    if n > 0 {
      FailuresCount(now, cfg, n - 1);
      RunThen(Init(now), cfg, Failures(n - 1), Report(0, false));
    }
  }

  /** It gets there: `threshold` failures, and one request after the recovery timeout. */
  lemma WedgeIsReached(now: int, cfg: Settings)
    requires cfg.Valid()
    ensures Wedged(Reached(now, cfg, Failures(cfg.threshold) + [Ask(cfg.recovery)]))
  {
    FailuresCount(now, cfg, cfg.threshold);
    RunThen(Init(now), cfg, Failures(cfg.threshold), Ask(cfg.recovery));
  }

  /** At no moment of the run is the breaker released. */
  predicate WedgedThroughout(y: System, cfg: Settings, steps: seq<Step>)
    decreases steps
  {
    Wedged(y) && (steps == [] || WedgedThroughout(Next(y, cfg, steps[0]), cfg, steps[1..]))
  }

  lemma {:induction false} RunWedgedExactlyWhen(y: System, cfg: Settings, steps: seq<Step>)
    requires cfg.Valid() && Inv(y, cfg) && Wedged(y)
    ensures WedgedThroughout(y, cfg, steps) <==> forall i :: 0 <= i < |steps| ==> !steps[i].Report?
    decreases steps
  {
    if steps != [] {
      StepKeeps(y, cfg, steps[0]);
      if !steps[0].Report? {
        RunWedgedExactlyWhen(Next(y, cfg, steps[0]), cfg, steps[1..]);
        assert forall i :: 1 <= i < |steps| ==> steps[i] == steps[1..][i - 1];
      }
    }
  }

  /** From any reachable state with a probe in flight the breaker stays wedged through a run exactly when that run
      records no result, of this call or any other. */
  lemma WedgedExactlyUntilReport(now: int, cfg: Settings, steps: seq<Step>, more: seq<Step>)
    requires cfg.Valid() && Wedged(Reached(now, cfg, steps))
    ensures WedgedThroughout(Reached(now, cfg, steps), cfg, more) <==> forall i :: 0 <= i < |more| ==> !more[i].Report?
  {
    RunKeeps(Init(now), cfg, steps);
    RunWedgedExactlyWhen(Reached(now, cfg, steps), cfg, more);
  }

  /** Any recorded result, of whichever call, ends it: the next request after the recovery timeout is granted. */
  lemma ReportEndsTheProbe(now: int, cfg: Settings, steps: seq<Step>, report: Step, wait: nat)
    requires cfg.Valid() && report.Report?
    ensures var z := Next(Reached(now, cfg, steps), cfg, report);
      && !z.local.probing
      && (cfg.recovery <= wait ==> Next(z, cfg, Ask(wait)).log.event.Granted?)
  {
    RunKeeps(Init(now), cfg, steps);
  }

  /** A probe whose result is never recorded wedges the breaker. */
  lemma {:induction false} UnrecordedProbeWedges(y: System, cfg: Settings, steps: seq<Step>)
    requires Wedged(y)
    requires forall i :: 0 <= i < |steps| ==> !steps[i].Report?
    ensures Run(y, cfg, steps).local == y.local
    ensures ProbeTimes(Run(y, cfg, steps).log) == ProbeTimes(y.log)
    decreases steps
  {
    if steps != [] {
      assert !steps[0].Report?;
      UnrecordedProbeWedges(Next(y, cfg, steps[0]), cfg, steps[1..]);
    }
  }
}
