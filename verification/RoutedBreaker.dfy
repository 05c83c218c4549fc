/** The breaker a gateway holds (app/redis_circuit_breaker.py:265-481): Redis while it answers, the gateway's own local
    breaker otherwise. */
module RoutedBreaker {
  import opened Options
  import opened CircuitTypes
  import L = LocalBreaker
  import S = SharedBreaker
  import LT = LocalBreakerTheorems
  import ST = SharedBreakerTheorems

  /** What became of one EVAL: it ran and was answered, it never reached Redis, or it ran and its answer was lost. */
  datatype Delivery = Answered | NotReached | ReplyLost

  datatype Decision = Allowed(permit: Permit) | Blocked(remaining: int)

  // ----- specification, on the two stores

  function LocalAllow(l: L.LocalState, cfg: Settings, now: int): (L.LocalState, Decision) {
    var (l', d) := L.Allow(l, cfg, now);
    (l', match d
         case Allowed(permit) => Allowed(permit.(origin := LocalFallback))
         case Blocked(remaining) => Blocked(remaining))
  }

  function Allow(s: S.Shared, l: L.LocalState, cfg: Settings, now: int, delivery: Delivery, token: Token)
    : (S.Shared, L.LocalState, Decision)
  {
    match delivery
    case Answered =>
      var (s', d) := S.Allow(s, cfg, now, token);
      (s', l, match d
              case Allowed(permit) => Allowed(permit)
              case Blocked(_, remaining) => Blocked(remaining))
    case NotReached =>
      var (l', d) := LocalAllow(l, cfg, now);
      (s, l', d)
    case ReplyLost =>
      var (l', d) := LocalAllow(l, cfg, now);
      (S.Allow(s, cfg, now, token).0, l', d)
  }

  predicate GoesToRedis(permit: Option<Permit>) {
    permit.Some? && permit.value.origin == Redis
  }

  function Record(
      s: S.Shared, l: L.LocalState, cfg: Settings, now: int, delivery: Delivery, permit: Option<Permit>, ok: bool)
    : (S.Shared, L.LocalState, Option<Transition>)
  {
    if !GoesToRedis(permit) then
      var (l', t) := L.Record(l, cfg, now, ok);
      (s, l', t)
    else
      match delivery
      case Answered =>
        var (s', r) := S.Record(s, cfg, now, permit.value, ok);
        (s', l, if r.Moved? then Some(r.transition) else None)
      case NotReached =>
        var (l', t) := L.Record(l, cfg, now, ok);
        (s, l', t)
      case ReplyLost =>
        var (l', t) := L.Record(l, cfg, now, ok);
        (S.Record(s, cfg, now, permit.value, ok).0, l', t)
  }

  // ----- the breaker object

  class RedisCircuitBreaker {
    const cfg: Settings
    const store: S.BreakerStore
    const fallback: L.CircuitBreaker

    ghost predicate Valid()
      reads this
    {
      fallback.cfg == cfg
    }

    constructor (settings: Settings, redis: S.BreakerStore, local: L.CircuitBreaker)
      requires local.cfg == settings
      ensures Valid() && cfg == settings && store == redis && fallback == local
    {
      cfg, store, fallback := settings, redis, local;
    }

    method AllowPrimaryCall(delivery: Delivery, token: Token) returns (decision: Decision)
      requires Valid()
      modifies store, fallback
      ensures Valid()
      ensures (store.Contents(), fallback.Contents(), decision)
           == Allow(old(store.Contents()), old(fallback.Contents()), cfg, fallback.clock.now, delivery, token)
    {
      if delivery != NotReached {
        var answer := store.AllowScript(cfg, fallback.clock.now, token);
        if delivery == Answered {
          match answer
          case Allowed(permit) => return Allowed(permit);
          case Blocked(_, remaining) => return Blocked(remaining);
        }
      }
      var local := fallback.AllowPrimaryCall();
      match local
      case Allowed(permit) => decision := Allowed(permit.(origin := LocalFallback));
      case Blocked(remaining) => decision := Blocked(remaining);
    }

    method RecordLocally(ok: bool) returns (transition: Option<Transition>)
      requires Valid()
      modifies fallback
      ensures Valid()
      ensures (fallback.Contents(), transition) == L.Record(old(fallback.Contents()), cfg, fallback.clock.now, ok)
    {
      if ok {
        transition := fallback.RecordSuccess();
      } else {
        transition := fallback.RecordFailure();
      }
    }

    method RecordResult(delivery: Delivery, permit: Option<Permit>, ok: bool) returns (transition: Option<Transition>)
      requires Valid()
      modifies store, fallback
      ensures Valid()
      ensures (store.Contents(), fallback.Contents(), transition)
           == Record(old(store.Contents()), old(fallback.Contents()), cfg, fallback.clock.now, delivery, permit, ok)
    {
      if permit.None? || permit.value.origin != Redis {
        transition := RecordLocally(ok);
        return;
      }
      if delivery != NotReached {
        var answer;
        if ok {
          answer := store.SuccessScript(fallback.clock.now, permit.value);
        } else {
          answer := store.FailureScript(cfg, fallback.clock.now, permit.value);
        }
        if delivery == Answered {
          return if answer.Moved? then Some(answer.transition) else None;
        }
      }
      transition := RecordLocally(ok);
    }
  }

  // ----- many gateways around one Redis

  type Gateway = nat

  datatype System = System(shared: S.Shared, locals: map<Gateway, L.LocalState>, now: int)

  datatype Step =
    | Ask(gateway: Gateway, wait: nat, delivery: Delivery, token: Token)
    | Report(gateway: Gateway, wait: nat, delivery: Delivery, permit: Option<Permit>, ok: bool)

  function LocalOf(y: System, g: Gateway): L.LocalState {
    if g in y.locals then y.locals[g] else L.FRESH
  }

  function Next(y: System, cfg: Settings, step: Step): System {
    var now := y.now + step.wait;
    match step
    case Ask(g, _, delivery, token) =>
      var (s, l, _) := Allow(y.shared, LocalOf(y, g), cfg, now, delivery, token);
      System(s, y.locals[g := l], now)
    case Report(g, _, delivery, permit, ok) =>
      var (s, l, _) := Record(y.shared, LocalOf(y, g), cfg, now, delivery, permit, ok);
      System(s, y.locals[g := l], now)
  }

  function Run(y: System, cfg: Settings, steps: seq<Step>): System
    decreases steps
  {
    if steps == [] then y else Run(Next(y, cfg, steps[0]), cfg, steps[1..])
  }

  predicate ReachesRedis(step: Step) {
    !step.delivery.NotReached? && (step.Report? ==> GoesToRedis(step.permit))
  }

  predicate ReachesLocal(step: Step, g: Gateway) {
    step.gateway == g && (!step.delivery.Answered? || (step.Report? && !GoesToRedis(step.permit)))
  }

  /** The steps of all gateways as the shared breaker saw them; `carried` is time passed since the last one it saw. */
  function SharedSteps(steps: seq<Step>, carried: nat): seq<ST.Step>
    decreases steps
  {
    if steps == [] then []
    else
      var wait := carried + steps[0].wait;
      if !ReachesRedis(steps[0]) then SharedSteps(steps[1..], wait)
      else
        [match steps[0]
         case Ask(_, _, _, token) => ST.Ask(wait, token)
         case Report(_, _, _, permit, ok) => ST.Report(wait, permit.value, ok)]
        + SharedSteps(steps[1..], 0)
  }

  /** The same for one gateway's local breaker. */
  function LocalSteps(steps: seq<Step>, g: Gateway, carried: nat): seq<LT.Step>
    decreases steps
  {
    if steps == [] then []
    else
      var wait := carried + steps[0].wait;
      if !ReachesLocal(steps[0], g) then LocalSteps(steps[1..], g, wait)
      else
        [match steps[0]
         case Ask(_, _, _, _) => LT.Ask(wait)
         case Report(_, _, _, _, ok) => LT.Report(wait, ok)]
        + LocalSteps(steps[1..], g, 0)
  }

  /** However calls are routed, dropped or left unanswered, the shared state is one that a run of the shared breaker
      alone reaches; so everything proved about that breaker holds here. */
  lemma {:induction false} SharedStateIsAnOrdinaryRun(y: System, x: ST.System, cfg: Settings, steps: seq<Step>,
      carried: nat)
    requires x.shared == y.shared && x.now + carried == y.now
    ensures Run(y, cfg, steps).shared == ST.Run(x, cfg, SharedSteps(steps, carried)).shared
    decreases steps
  {
    if steps != [] {
      var z := Next(y, cfg, steps[0]);
      if ReachesRedis(steps[0]) {
        var all := SharedSteps(steps, carried);
        SharedStateIsAnOrdinaryRun(z, ST.Next(x, cfg, all[0]), cfg, steps[1..], 0);
        assert all[1..] == SharedSteps(steps[1..], 0);
      } else {
        SharedStateIsAnOrdinaryRun(z, x, cfg, steps[1..], carried + steps[0].wait);
      }
    }
  }

  /** And each gateway's local breaker is in a state that a run of the local breaker alone reaches. */
  lemma {:induction false} LocalStateIsAnOrdinaryRun(
      y: System, g: Gateway, x: LT.System, cfg: Settings, steps: seq<Step>, carried: nat)
    requires x.local == LocalOf(y, g) && x.now + carried == y.now
    ensures LocalOf(Run(y, cfg, steps), g) == LT.Run(x, cfg, LocalSteps(steps, g, carried)).local
    decreases steps
  {
    if steps != [] {
      var z := Next(y, cfg, steps[0]);
      if ReachesLocal(steps[0], g) {
        var all := LocalSteps(steps, g, carried);
        LocalStateIsAnOrdinaryRun(z, g, LT.Next(x, cfg, all[0]), cfg, steps[1..], 0);
        assert all[1..] == LocalSteps(steps[1..], g, 0);
      } else {
        LocalStateIsAnOrdinaryRun(z, g, x, cfg, steps[1..], carried + steps[0].wait);
      }
    }
  }

  /** A result counts in exactly one store, except when Redis ran the script and its answer was lost: then it may count
      in both.  A permit of the local breaker never touches the shared state. */
  lemma ResultCountsOnce(
      s: S.Shared, l: L.LocalState, cfg: Settings, now: int, delivery: Delivery, permit: Option<Permit>, ok: bool)
    ensures var (s', l', t) := Record(s, l, cfg, now, delivery, permit, ok);
      && (s' == s || l' == l || (delivery.ReplyLost? && GoesToRedis(permit)))
      && (!GoesToRedis(permit) || delivery.NotReached? ==> s' == s && (l', t) == L.Record(l, cfg, now, ok))
      && (GoesToRedis(permit) && delivery.Answered? ==> l' == l && s' == S.Record(s, cfg, now, permit.value, ok).0)
  {
  }

  function SharedReports(steps: seq<ST.Step>): nat {
    if steps == [] then 0 else (if steps[0].Report? then 1 else 0) + SharedReports(steps[1..])
  }

  function LocalReports(steps: seq<LT.Step>): nat {
    if steps == [] then 0 else (if steps[0].Report? then 1 else 0) + LocalReports(steps[1..])
  }

  /** Results recorded by the local breakers of the gateways below `n`. */
  function LocalReportsBelow(steps: seq<Step>, carried: Gateway -> nat, n: Gateway): nat {
    if n == 0 then 0
    else LocalReports(LocalSteps(steps, n - 1, carried(n - 1))) + LocalReportsBelow(steps, carried, n - 1)
  }

  function Reports(steps: seq<Step>): nat {
    if steps == [] then 0 else (if steps[0].Report? then 1 else 0) + Reports(steps[1..])
  }

  /** Reports that ran in Redis and whose answer was lost. */
  function LostReplies(steps: seq<Step>): nat {
    if steps == [] then 0
    else (if steps[0].Report? && GoesToRedis(steps[0].permit) && steps[0].delivery.ReplyLost? then 1 else 0)
         + LostReplies(steps[1..])
  }

  /** The waits that the local breakers have still to see after the first step. */
  function Carried(step: Step, carried: Gateway -> nat): Gateway -> nat {
    (g: Gateway) => if ReachesLocal(step, g) then 0 else carried(g) + step.wait
  }

  lemma {:induction false} FirstReportIsCounted(steps: seq<Step>, carried: Gateway -> nat, n: Gateway)
    requires steps != []
    ensures LocalReportsBelow(steps, carried, n)
         == LocalReportsBelow(steps[1..], Carried(steps[0], carried), n)
            + (if steps[0].Report? && steps[0].gateway < n && ReachesLocal(steps[0], steps[0].gateway) then 1 else 0)
    decreases n
  {
    if n > 0 {
      var g := n - 1;
      FirstReportIsCounted(steps, carried, g);
      var all := LocalSteps(steps, g, carried(g));
      if ReachesLocal(steps[0], g) {
        assert all[1..] == LocalSteps(steps[1..], g, 0);
      }
    }
  }

  /** No result is lost and none is counted twice, over any run of any number of gateways: what the shared breaker and
      all the local ones record together is every reported result once, and once more each whose answer Redis gave in
      vain. */
  lemma {:induction false} ResultsAreConserved(
      steps: seq<Step>, sharedCarried: nat, carried: Gateway -> nat, gateways: Gateway)
    requires forall i :: 0 <= i < |steps| ==> steps[i].gateway < gateways
    ensures SharedReports(SharedSteps(steps, sharedCarried)) + LocalReportsBelow(steps, carried, gateways)
         == Reports(steps) + LostReplies(steps)
    decreases steps
  {
    if steps == [] {
      NothingToCount(carried, gateways);
    } else {
      var wait := sharedCarried + steps[0].wait;
      var all := SharedSteps(steps, sharedCarried);
      FirstReportIsCounted(steps, carried, gateways);
      if ReachesRedis(steps[0]) {
        assert all[1..] == SharedSteps(steps[1..], 0);
        ResultsAreConserved(steps[1..], 0, Carried(steps[0], carried), gateways);
      } else {
        ResultsAreConserved(steps[1..], wait, Carried(steps[0], carried), gateways);
      }
    }
  }

  lemma {:induction false} NothingToCount(carried: Gateway -> nat, n: Gateway)
    ensures LocalReportsBelow([], carried, n) == 0
  {
    if n > 0 {
      NothingToCount(carried, n - 1);
    }
  }
}
