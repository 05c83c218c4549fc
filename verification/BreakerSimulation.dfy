/** Used one call at a time, the local and the shared breaker behave alike. */
module BreakerSimulation {
  import opened Options
  import opened CircuitTypes
  import L = LocalBreaker
  import S = SharedBreaker

  /** A call that asks after `wait` ticks, is recorded `duration` ticks later if it was granted, and ended well or not;
      or somebody reading the breaker's state, which moves the local breaker on but not the shared one. */
  datatype Action = Call(wait: nat, duration: nat, ok: bool, token: Token) | Observe(wait: nat)

  /** What the caller sees. */
  datatype Seen = Refused(remaining: int) | Served(transition: Option<Transition>) | Nothing

  function LocalAct(l: L.LocalState, cfg: Settings, now: int, a: Action): (L.LocalState, int, Seen) {
    match a
    case Observe(wait) => (L.Look(l, cfg, now + wait).0, now + wait, Nothing)
    case Call(wait, duration, ok, _) =>
      var (l1, decision) := L.Allow(l, cfg, now + wait);
      match decision
      case Blocked(remaining) => (l1, now + wait, Refused(remaining))
      case Allowed(_) =>
        var (l2, transition) := L.Record(l1, cfg, now + wait + duration, ok);
        (l2, now + wait + duration, Served(transition))
  }

  function Reported(r: S.Response): Option<Transition> {
    if r.Moved? then Some(r.transition) else None
  }

  function SharedAct(s: S.Shared, cfg: Settings, now: int, a: Action): (S.Shared, int, Seen) {
    match a
    case Observe(wait) => (s, now + wait, Nothing)
    case Call(wait, duration, ok, token) =>
      var (s1, decision) := S.Allow(s, cfg, now + wait, token);
      match decision
      case Blocked(_, remaining) => (s1, now + wait, Refused(remaining))
      case Allowed(permit) =>
        var (s2, response) := S.Record(s1, cfg, now + wait + duration, permit, ok);
        (s2, now + wait + duration, Served(Reported(response)))
  }

  function LocalTrace(l: L.LocalState, cfg: Settings, now: int, actions: seq<Action>): seq<Seen>
    decreases actions
  {
    if actions == [] then []
    else
      var (l', now', seen) := LocalAct(l, cfg, now, actions[0]);
      [seen] + LocalTrace(l', cfg, now', actions[1..])
  }

  function SharedTrace(s: S.Shared, cfg: Settings, now: int, actions: seq<Action>): seq<Seen>
    decreases actions
  {
    if actions == [] then []
    else
      var (s', now', seen) := SharedAct(s, cfg, now, actions[0]);
      [seen] + SharedTrace(s', cfg, now', actions[1..])
  }

  /** Between calls: both closed with the same count, or both opened at the same moment, where the local breaker may
      already show half-open without a probe once the recovery timeout has passed. */
  predicate Related(l: L.LocalState, s: S.Shared, cfg: Settings, now: int) {
    && s.probe.None? && !l.probing
    && (match l.state
        case Closed => s.state.Closed? && l.failures == s.failures < cfg.threshold
        case Open => s.state.Open? && l.openedAt == Some(s.openedAt) && cfg.threshold <= l.failures
        case HalfOpen =>
          && s.state.Open? && l.openedAt == Some(s.openedAt)
          && cfg.recovery <= now - s.openedAt && cfg.threshold <= l.failures)
  }

  lemma ActRelates(l: L.LocalState, s: S.Shared, cfg: Settings, now: int, a: Action)
    requires cfg.Valid() && Related(l, s, cfg, now)
    requires a.Call? ==> a.duration <= cfg.lease
    ensures var (l', now', seen) := LocalAct(l, cfg, now, a);
      var (s', now'', seen') := SharedAct(s, cfg, now, a);
      now' == now'' && seen == seen' && Related(l', s', cfg, now')
  {
  }

  /** When every granted call is recorded before the next request and within the probe lease, both breakers grant and
      refuse the same calls, with the same refusal times, and report the same transitions. */
  lemma {:induction false} SameTrace(l: L.LocalState, s: S.Shared, cfg: Settings, now: int, actions: seq<Action>)
    requires cfg.Valid() && Related(l, s, cfg, now)
    requires forall i :: 0 <= i < |actions| && actions[i].Call? ==> actions[i].duration <= cfg.lease
    ensures LocalTrace(l, cfg, now, actions) == SharedTrace(s, cfg, now, actions)
    decreases actions
  {
    if actions != [] {
      ActRelates(l, s, cfg, now, actions[0]);
      var (l', now', _) := LocalAct(l, cfg, now, actions[0]);
      SameTrace(l', SharedAct(s, cfg, now, actions[0]).0, cfg, now', actions[1..]);
    }
  }

  lemma FreshBreakersAgree(cfg: Settings, now: int, actions: seq<Action>)
    requires cfg.Valid()
    requires forall i :: 0 <= i < |actions| && actions[i].Call? ==> actions[i].duration <= cfg.lease
    ensures LocalTrace(L.FRESH, cfg, now, actions) == SharedTrace(S.FRESH, cfg, now, actions)
  {
    SameTrace(L.FRESH, S.FRESH, cfg, now, actions);
  }

  /** The lease bound cannot be dropped: a probe that succeeds one tick after its lease has ended closes the local
      breaker, the shared one calls it stale and stays half-open. */
  lemma LateProbeTellsThemApart(cfg: Settings, openedAt: int, token: Token)
    requires cfg.Valid()
    ensures var now := openedAt + cfg.recovery;
      var l := L.LocalState(Open, cfg.threshold, Some(openedAt), false);
      var s := S.Shared(Open, 1, cfg.threshold, openedAt, None);
      && Related(l, s, cfg, now)
      && LocalAct(l, cfg, now, Call(0, cfg.lease + 1, true, token)).2 == Served(Some(Transition(HalfOpen, Closed)))
      && SharedAct(s, cfg, now, Call(0, cfg.lease + 1, true, token)).2 == Served(None)
      && SharedAct(s, cfg, now, Call(0, cfg.lease + 1, true, token)).0.state.HalfOpen?
  {
  }
}
