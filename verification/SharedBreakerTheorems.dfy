/** What the shared breaker guarantees over every interleaving of any number of gateways.

    A gateway asks for a permit or reports a result under any permit whatever: current, stale, reported twice, or held
    by a process that was thought dead.  A crashed gateway or a lost reply is a permit that is never reported.  Only
    the clock is assumed not to run backwards. */
module SharedBreakerTheorems {
  import opened Options
  import H = History
  import opened CircuitTypes
  import opened SharedBreaker

  datatype Event =
    | Granted(permit: Permit, at: int)
    | Refused(remaining: int, at: int)
    | Recorded(permit: Permit, ok: bool, response: Response, at: int)

  type Log = H.Log<Event>

  datatype System = System(shared: Shared, now: int, log: Log)

  datatype Step =
    | Ask(wait: nat, token: Token)
    | Report(wait: nat, permit: Permit, ok: bool)

  function Init(now: int): System {
    System(FRESH, now, H.Start)
  }

  function Next(y: System, cfg: Settings, step: Step): System {
    var now := y.now + step.wait;
    match step
    case Ask(_, token) =>
      var (s, decision) := Allow(y.shared, cfg, now, token);
      System(s, now, H.Then(y.log, match decision
                                 case Allowed(permit) => Granted(permit, now)
                                 case Blocked(_, remaining) => Refused(remaining, now)))
    case Report(_, permit, ok) =>
      var (s, response) := Record(y.shared, cfg, now, permit, ok);
      System(s, now, H.Then(y.log, Recorded(permit, ok, response, now)))
  }

  function Run(y: System, cfg: Settings, steps: seq<Step>): System
    decreases steps
  {
    if steps == [] then y else Run(Next(y, cfg, steps[0]), cfg, steps[1..])
  }

  // ----- questions about the history

  predicate HalfOpenGrant(e: Event) {
    e.Granted? && e.permit.state.HalfOpen?
  }

  predicate Movement(e: Event) {
    e.Recorded? && e.response.Moved?
  }

  /** How often the breaker was advanced: half-open grants and reported transitions. */
  function Epochs(log: Log): nat {
    match log
    case Start => 0
    case Then(l, e) => Epochs(l) + if HalfOpenGrant(e) || Movement(e) then 1 else 0
  }

  function HalfOpenGrants(log: Log, version: nat): nat {
    match log
    case Start => 0
    case Then(l, e) =>
      HalfOpenGrants(l, version) + if HalfOpenGrant(e) && PermitVersion(e.permit) == version then 1 else 0
  }

  function Movements(log: Log, version: nat): nat {
    match log
    case Start => 0
    case Then(l, e) =>
      Movements(l, version) + if Movement(e) && PermitVersion(e.permit) == version then 1 else 0
  }

  /** How many of the newest accepted results of one version are failures in a row. */
  function FailingSuffix(log: Log, version: nat): nat {
    match log
    case Start => 0
    case Then(l, e) =>
      if e.Recorded? && !e.response.Stale? && PermitVersion(e.permit) == version
      then (if e.ok then 0 else FailingSuffix(l, version) + 1)
      else FailingSuffix(l, version)
  }

  predicate GrantedIn(log: Log, permit: Permit) {
    log.Then? && ((log.event.Granted? && log.event.permit == permit) || GrantedIn(log.earlier, permit))
  }

  /** Times of the half-open grants, newest first. */
  function ProbeTimes(log: Log): seq<int> {
    match log
    case Start => []
    case Then(l, e) => if HalfOpenGrant(e) then [e.at] + ProbeTimes(l) else ProbeTimes(l)
  }

  // ----- the invariant

  /** No accepted result and no half-open grant carries a version above the given one. */
  predicate NothingBeyond(log: Log, version: nat) {
    log.Then? ==>
      && NothingBeyond(log.earlier, version)
      && (log.event.Recorded? && !log.event.response.Stale? ==> PermitVersion(log.event.permit) <= version)
      && (log.event.Granted? ==> PermitVersion(log.event.permit) <= version)
  }

  ghost predicate Inv(y: System, cfg: Settings) {
    var s := y.shared;
    && s.version == Epochs(y.log)
    && NothingBeyond(y.log, s.version)
    && (s.probe.Some? <==> s.state.HalfOpen?)
    && (s.state.Closed? ==> s.failures == FailingSuffix(y.log, s.version) < cfg.threshold)
    && (s.state.Open? ==> s.failures == cfg.threshold && s.openedAt <= y.now)
    && (s.state.HalfOpen? ==> s.failures == 0 && s.probe.value.expiresAt <= y.now + cfg.lease)
    && (s.state.Open? || s.state.HalfOpen? ==> ProbeTimes(y.log) == [] || ProbeTimes(y.log)[0] <= y.now)
    && (s.state.Open? && ProbeTimes(y.log) != [] ==> ProbeTimes(y.log)[0] <= s.openedAt)
    && (s.state.HalfOpen? ==> ProbeTimes(y.log) != [] && ProbeTimes(y.log)[0] + cfg.lease == s.probe.value.expiresAt)
    && (ProbeTimes(y.log) != [] ==> ProbeTimes(y.log)[0] <= y.now)
  }

  lemma {:induction false} NothingBeyondGrows(log: Log, version: nat)
    requires NothingBeyond(log, version)
    ensures NothingBeyond(log, version + 1)
    ensures FailingSuffix(log, version + 1) == 0
  {
    if log.Then? {
      NothingBeyondGrows(log.earlier, version);
    }
  }

  lemma StepKeeps(y: System, cfg: Settings, step: Step)
    requires cfg.Valid() && Inv(y, cfg)
    ensures Inv(Next(y, cfg, step), cfg)
  {
    NothingBeyondGrows(y.log, y.shared.version);
  }

  lemma {:induction false} RunKeeps(y: System, cfg: Settings, steps: seq<Step>)
    requires cfg.Valid() && Inv(y, cfg)
    ensures Inv(Run(y, cfg, steps), cfg)
    decreases steps
  {
    if steps != [] {
      StepKeeps(y, cfg, steps[0]);
      RunKeeps(Next(y, cfg, steps[0]), cfg, steps[1..]);
    }
  }

  function Reached(now: int, cfg: Settings, steps: seq<Step>): System {
    Run(Init(now), cfg, steps)
  }

  lemma ReachedInv(now: int, cfg: Settings, steps: seq<Step>)
    requires cfg.Valid()
    ensures Inv(Reached(now, cfg, steps), cfg)
  {
    RunKeeps(Init(now), cfg, steps);
  }

  // ----- epochs

  /** The version is the number of half-open grants and reported transitions so far, so every change of state and every
      half-open grant raises it by one, and nothing else does. */
  lemma VersionCountsAdvances(now: int, cfg: Settings, steps: seq<Step>, step: Step)
    requires cfg.Valid()
    ensures var y := Reached(now, cfg, steps);
      var z := Next(y, cfg, step);
      && y.shared.version == Epochs(y.log)
      && z.shared.version == y.shared.version + (if HalfOpenGrant(z.log.event) || Movement(z.log.event) then 1 else 0)
      && (z.shared.state != y.shared.state ==> z.shared.version == y.shared.version + 1)
  {
    ReachedInv(now, cfg, steps);
  }

  lemma {:induction false} VersionNeverFalls(y: System, cfg: Settings, steps: seq<Step>)
    ensures y.shared.version <= Run(y, cfg, steps).shared.version
    decreases steps
  {
    if steps != [] {
      VersionNeverFalls(Next(y, cfg, steps[0]), cfg, steps[1..]);
    }
  }

  /** A result under a permit of an older version is stale for good: however the system runs on, reporting it changes
      nothing. */
  lemma OutdatedResultIsInert(y: System, cfg: Settings, steps: seq<Step>, permit: Permit, ok: bool, at: int)
    requires PermitVersion(permit) < y.shared.version
    ensures var z := Run(y, cfg, steps);
      Record(z.shared, cfg, at, permit, ok) == (z.shared, Stale(z.shared.state))
  {
    VersionNeverFalls(y, cfg, steps);
  }

  /** Newest first, the k-th advance of the breaker carries version k: a grant the version it names, a transition the
      version it ends. */
  predicate Numbered(log: Log) {
    log.Then? ==>
      && Numbered(log.earlier)
      && (HalfOpenGrant(log.event) ==> log.event.permit.version == Some(Epochs(log)))
      && (Movement(log.event) ==> PermitVersion(log.event.permit) + 1 == Epochs(log))
  }

  lemma {:induction false} RunNumbers(y: System, cfg: Settings, steps: seq<Step>)
    requires cfg.Valid() && Inv(y, cfg) && Numbered(y.log)
    ensures Numbered(Run(y, cfg, steps).log)
    decreases steps
  {
    if steps != [] {
      StepKeeps(y, cfg, steps[0]);
      RunNumbers(Next(y, cfg, steps[0]), cfg, steps[1..]);
    }
  }

  lemma {:induction false} NumbersAreUnique(log: Log, version: nat)
    requires Numbered(log)
    ensures HalfOpenGrants(log, version) <= 1 && (version > Epochs(log) ==> HalfOpenGrants(log, version) == 0)
    ensures Movements(log, version) <= 1 && (version >= Epochs(log) ==> Movements(log, version) == 0)
  {
    if log.Then? {
      NumbersAreUnique(log.earlier, version);
    }
  }

  /** Across all gateways, a version sees at most one reported transition and names at most one half-open permit. */
  lemma OneTransitionAndOneProbePerVersion(now: int, cfg: Settings, steps: seq<Step>, version: nat)
    requires cfg.Valid()
    ensures Movements(Reached(now, cfg, steps).log, version) <= 1
    ensures HalfOpenGrants(Reached(now, cfg, steps).log, version) <= 1
  {
    RunNumbers(Init(now), cfg, steps);
    NumbersAreUnique(Reached(now, cfg, steps).log, version);
  }

  lemma {:induction false} RunKeepsHolder(y: System, cfg: Settings, steps: seq<Step>)
    requires y.shared.state.HalfOpen? ==> 1 <= HalfOpenGrants(y.log, y.shared.version)
    ensures var z := Run(y, cfg, steps);
      z.shared.state.HalfOpen? ==> 1 <= HalfOpenGrants(z.log, z.shared.version)
    decreases steps
  {
    if steps != [] {
      RunKeepsHolder(Next(y, cfg, steps[0]), cfg, steps[1..]);
    }
  }

  /** So while the breaker is half-open its version names exactly one permit. */
  lemma HalfOpenVersionNamesOnePermit(now: int, cfg: Settings, steps: seq<Step>)
    requires cfg.Valid()
    ensures var y := Reached(now, cfg, steps);
      y.shared.state.HalfOpen? ==> HalfOpenGrants(y.log, y.shared.version) == 1
  {
    RunKeepsHolder(Init(now), cfg, steps);
    OneTransitionAndOneProbePerVersion(now, cfg, steps, Reached(now, cfg, steps).shared.version);
  }

  // ----- what opens the breaker

  /** In closed the counter is the length of the failing suffix of this version's accepted results, below the threshold;
      in open it equals the threshold; in half-open it is 0. */
  lemma CounterIsFailingSuffix(now: int, cfg: Settings, steps: seq<Step>)
    requires cfg.Valid()
    ensures var y := Reached(now, cfg, steps);
      match y.shared.state
      case Closed => y.shared.failures == FailingSuffix(y.log, y.shared.version) < cfg.threshold
      case Open => y.shared.failures == cfg.threshold
      case HalfOpen => y.shared.failures == 0
  {
    ReachedInv(now, cfg, steps);
  }

  /** A closed breaker opens at a report exactly when that report makes the accepted results of its version end in
      `threshold` failures. */
  lemma OpensExactlyAtThreshold(now: int, cfg: Settings, steps: seq<Step>, step: Step)
    requires cfg.Valid() && Reached(now, cfg, steps).shared.state.Closed?
    ensures var y := Reached(now, cfg, steps);
      var z := Next(y, cfg, step);
      && !z.shared.state.HalfOpen?
      && (z.shared.state.Open? <==> FailingSuffix(z.log, y.shared.version) == cfg.threshold)
      && FailingSuffix(z.log, y.shared.version) <= cfg.threshold
  {
    ReachedInv(now, cfg, steps);
  }

  // ----- probes

  lemma {:induction false} RunSpaces(y: System, cfg: Settings, steps: seq<Step>)
    requires cfg.Valid() && Inv(y, cfg) && H.Spaced(ProbeTimes(y.log), Min(cfg.lease + 1, cfg.recovery))
    ensures H.Spaced(ProbeTimes(Run(y, cfg, steps).log), Min(cfg.lease + 1, cfg.recovery))
    decreases steps
  {
    if steps != [] {
      var z := Next(y, cfg, steps[0]);
      StepKeeps(y, cfg, steps[0]);
      if HalfOpenGrant(z.log.event) {
        H.SpacedCons(z.now, ProbeTimes(y.log), Min(cfg.lease + 1, cfg.recovery));
      }
      RunSpaces(z, cfg, steps[1..]);
    }
  }

  /** Any two half-open grants are at least the recovery timeout apart, or more than the probe lease. */
  lemma ProbesAreSpaced(now: int, cfg: Settings, steps: seq<Step>, i: nat, j: nat)
    requires cfg.Valid() && i < j < |ProbeTimes(Reached(now, cfg, steps).log)|
    ensures var times := ProbeTimes(Reached(now, cfg, steps).log);
      times[i] - times[j] >= Min(cfg.lease + 1, cfg.recovery)
  {
    RunSpaces(Init(now), cfg, steps);
    H.SpacedPairwise(ProbeTimes(Reached(now, cfg, steps).log), Min(cfg.lease + 1, cfg.recovery), i, j);
  }

  // ----- never wedged

  /** When a request would be granted if nothing else happened. */
  function ReadyAt(y: System, cfg: Settings): int {
    match y.shared.state
    case Closed => y.now
    case Open => y.shared.openedAt + cfg.recovery
    case HalfOpen => if y.shared.probe.Some? then y.shared.probe.value.expiresAt + 1 else y.now
  }

  /** In every reachable state, also when a prober crashed or its permit was lost on the way, a request is granted
      exactly from `ReadyAt` on, and that is never further away than the recovery timeout or the end of a probe
      lease. */
  lemma NeverWedged(now: int, cfg: Settings, steps: seq<Step>, wait: nat, token: Token)
    requires cfg.Valid()
    ensures var y := Reached(now, cfg, steps);
      && (Next(y, cfg, Ask(wait, token)).log.event.Granted? <==> y.now + wait >= ReadyAt(y, cfg))
      && ReadyAt(y, cfg) <= y.now + Max(cfg.recovery, cfg.lease + 1)
  {
    ReachedInv(now, cfg, steps);
  }

  /** While the breaker is open the reported refusal time is exact: a request is refused at every earlier moment and
      granted at that one, if nothing else happens in between.  While it is half-open it is what is left of the probe
      lease, possibly 0, and a request is granted from the moment after. */
  lemma RefusalTimeIsExact(now: int, cfg: Settings, steps: seq<Step>, ask: Step, wait: nat, token: Token)
    requires cfg.Valid() && ask.Ask? && Next(Reached(now, cfg, steps), cfg, ask).log.event.Refused?
    ensures var z := Next(Reached(now, cfg, steps), cfg, ask);
      var remaining := z.log.event.remaining;
      var granted := Next(z, cfg, Ask(wait, token)).log.event.Granted?;
      && (z.shared.state.Open? || z.shared.state.HalfOpen?)
      && (z.shared.state.Open? ==> 0 < remaining && (granted <==> remaining <= wait))
      && (z.shared.state.HalfOpen? ==> 0 <= remaining && (granted <==> remaining < wait))
  {
    ReachedInv(now, cfg, steps);
  }

  /** A result is stale and changes nothing, or counts and reports a transition exactly when it changes the state.  What
      counts closes the breaker when it is a success, and when it is a failure under a half-open permit opens it; from
      the moment it opens requests wait for the whole recovery timeout. */
  lemma ResultMovesTheBreaker(now: int, cfg: Settings, steps: seq<Step>, report: Step, wait: nat, token: Token)
    requires cfg.Valid() && report.Report?
    ensures var y := Reached(now, cfg, steps);
      var z := Next(y, cfg, report);
      var before, after := y.shared.state, z.shared.state;
      && z.log.event.Recorded?
      && match z.log.event.response
         case Stale(current) => z.shared == y.shared && current == before
         case Unmoved => before.Closed? && after.Closed? && z.shared.version == y.shared.version
         case Moved(transition) =>
           && transition == Transition(before, after) && before != after
           && after == (if report.ok then Closed else Open)
           && (after.Open? ==> (Next(z, cfg, Ask(wait, token)).log.event.Granted? <==> cfg.recovery <= wait))
  {
    ReachedInv(now, cfg, steps);
  }

  /** A snapshot reads without changing anything: the state as it stands, the failures counted there (the failing suffix
      while closed, the threshold while open, 0 while half-open), and while the breaker is open exactly how long
      requests will still be refused. */
  lemma SnapshotIsExact(now: int, cfg: Settings, steps: seq<Step>, wait: nat, token: Token)
    requires cfg.Valid()
    ensures var y := Reached(now, cfg, steps);
      var seen := Look(y.shared, cfg, y.now);
      var granted := Next(y, cfg, Ask(wait, token)).log.event.Granted?;
      && seen.state == y.shared.state
      && (seen.state.Closed? ==> seen.failures == FailingSuffix(y.log, y.shared.version) && seen.retryAfter == 0)
      && (seen.state.HalfOpen? ==> seen.failures == 0 && seen.retryAfter == 0)
      && (seen.state.Open? ==>
        seen.failures == cfg.threshold && 0 <= seen.retryAfter && (granted <==> seen.retryAfter <= wait))
  {
    ReachedInv(now, cfg, steps);
  }

  /** The probe key exists only while the breaker is half-open. */
  lemma ProbeOnlyInHalfOpen(now: int, cfg: Settings, steps: seq<Step>)
    requires cfg.Valid()
    ensures var s := Reached(now, cfg, steps).shared;
      s.probe.Some? <==> s.state.HalfOpen?
  {
    ReachedInv(now, cfg, steps);
  }

  // ----- genuine permits

  ghost predicate Genuine(y: System, permit: Permit) {
    && permit.version.Some?
    && PermitVersion(permit) <= y.shared.version
    && (PermitVersion(permit) == y.shared.version ==>
          && permit.state == y.shared.state && !permit.state.Open?
          && (permit.state.HalfOpen? ==> y.shared.probe.Some? && permit.token == Some(y.shared.probe.value.token)))
  }

  lemma {:induction false} RunKeepsGenuine(y: System, cfg: Settings, steps: seq<Step>)
    requires cfg.Valid() && Inv(y, cfg) && forall p :: GrantedIn(y.log, p) ==> Genuine(y, p)
    ensures forall p :: GrantedIn(Run(y, cfg, steps).log, p) ==> Genuine(Run(y, cfg, steps), p)
    decreases steps
  {
    if steps != [] {
      var z := Next(y, cfg, steps[0]);
      StepKeeps(y, cfg, steps[0]);
      forall p | GrantedIn(z.log, p) ensures Genuine(z, p) {
        if GrantedIn(y.log, p) {
          assert Genuine(y, p);
        }
      }
      RunKeepsGenuine(z, cfg, steps[1..]);
    }
  }

  /** For a permit the breaker really issued the version alone decides: its result is accepted exactly when the version
      is still current and, for a probe, its lease has not run out.  State and token never reject anything more. */
  lemma AcceptedExactlyWhenCurrent(now: int, cfg: Settings, steps: seq<Step>, permit: Permit, wait: nat, ok: bool)
    requires cfg.Valid() && GrantedIn(Reached(now, cfg, steps).log, permit)
    ensures var y := Reached(now, cfg, steps);
      var response := Next(y, cfg, Report(wait, permit, ok)).log.event.response;
      !response.Stale? <==>
        && PermitVersion(permit) == y.shared.version
        && (permit.state.HalfOpen? ==> y.shared.probe.Some? && y.now + wait <= y.shared.probe.value.expiresAt)
  {
    ReachedInv(now, cfg, steps);
    RunKeepsGenuine(Init(now), cfg, steps);
    assert Genuine(Reached(now, cfg, steps), permit);
  }
}
