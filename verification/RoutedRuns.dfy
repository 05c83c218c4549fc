/** Where permits come from and where their results go (app/redis_circuit_breaker.py:332-437), over runs of any number
    of gateways that report under the permits they were given. */
module RoutedRuns {
  import opened Options
  import opened CircuitTypes
  import L = LocalBreaker
  import S = SharedBreaker
  import R = RoutedBreaker

  /** A permit says who issued it: Redis when it answered, the gateway's own breaker otherwise.  When Redis answered,
      the gateway passes on just what Redis decided, and its own breaker is left alone. */
  lemma PermitNamesItsIssuer(s: S.Shared, l: L.LocalState, cfg: Settings, now: int, delivery: R.Delivery, token: Token)
    ensures var (s', l', d) := R.Allow(s, l, cfg, now, delivery, token);
      && (d.Allowed? ==> (d.permit.origin == Redis <==> delivery.Answered?))
      && (d.Allowed? && !delivery.Answered? ==> d.permit.origin == LocalFallback)
      && (delivery.Answered? ==>
            && l' == l && s' == S.Allow(s, cfg, now, token).0
            && match S.Allow(s, cfg, now, token).1
               case Allowed(permit) => d == R.Allowed(permit)
               case Blocked(_, remaining) => d == R.Blocked(remaining))
      && (!delivery.Answered? ==>
            && l' == L.Allow(l, cfg, now).0
            && (delivery.NotReached? ==> s' == s)
            && match L.Allow(l, cfg, now).1
               case Allowed(permit) => d.Allowed? && d.permit.state == permit.state
               case Blocked(remaining) => d == R.Blocked(remaining))
  {
  }

  /** A permit some gateway was given, and whether it was Redis that answered. */
  datatype Issue = Issue(gateway: R.Gateway, permit: Permit, byRedis: bool)

  datatype Fleet = Fleet(system: R.System, issued: seq<Issue>)

  /** A gateway asks, or reports a result under the permit it was given k-th of all. */
  datatype Move =
    | Ask(gateway: R.Gateway, wait: nat, delivery: R.Delivery, token: Token)
    | Report(k: nat, wait: nat, delivery: R.Delivery, ok: bool)

  function Init(now: int): Fleet {
    Fleet(R.System(S.FRESH, map[], now), [])
  }

  predicate Enabled(f: Fleet, m: Move) {
    m.Report? ==> m.k < |f.issued|
  }

  function StepOf(f: Fleet, m: Move): R.Step
    requires Enabled(f, m)
  {
    match m
    case Ask(g, wait, delivery, token) => R.Ask(g, wait, delivery, token)
    case Report(k, wait, delivery, ok) => R.Report(f.issued[k].gateway, wait, delivery, Some(f.issued[k].permit), ok)
  }

  function Answer(f: Fleet, cfg: Settings, m: Move): R.Decision
    requires m.Ask?
  {
    R.Allow(f.system.shared, R.LocalOf(f.system, m.gateway), cfg, f.system.now + m.wait, m.delivery, m.token).2
  }

  function Next(f: Fleet, cfg: Settings, m: Move): Fleet {
    if !Enabled(f, m) then f
    else
      var system := R.Next(f.system, cfg, StepOf(f, m));
      if m.Ask? && Answer(f, cfg, m).Allowed?
      then Fleet(system, f.issued + [Issue(m.gateway, Answer(f, cfg, m).permit, m.delivery.Answered?)])
      else f.(system := system)
  }

  function Run(f: Fleet, cfg: Settings, moves: seq<Move>): Fleet
    decreases moves
  {
    if moves == [] then f else Run(Next(f, cfg, moves[0]), cfg, moves[1..])
  }

  // ----- the invariant

  /** What is known of the permits Redis issued: their version has been reached, and no two half-open ones share it. */
  predicate IssueInv(f: Fleet, k: nat)
    requires k < |f.issued|
  {
    var i := f.issued[k];
    && (i.permit.origin == Redis <==> i.byRedis)
    && (i.byRedis ==>
          && !i.permit.state.Open? && i.permit.version.Some?
          && i.permit.version.value <= f.system.shared.version)
    && (i.byRedis && i.permit.state.HalfOpen? ==> i.permit.token.Some?)
  }

  /** A probe's version is above that of every permit that Redis issued before. */
  predicate Later(i: Issue, j: Issue) {
    i.byRedis && j.byRedis && j.permit.state.HalfOpen? ==> S.PermitVersion(i.permit) < S.PermitVersion(j.permit)
  }

  ghost predicate Inv(f: Fleet) {
    && (f.system.shared.probe.Some? <==> f.system.shared.state.HalfOpen?)
    && (forall k :: 0 <= k < |f.issued| ==> IssueInv(f, k))
    && (forall j, k :: 0 <= j < k < |f.issued| ==> Later(f.issued[j], f.issued[k]))
  }

  /** The shared state moves on only by Redis' own scripts, and its version never falls. */
  lemma SharedMoves(s: S.Shared, cfg: Settings, now: int, permit: Permit, ok: bool, token: Token)
    requires cfg.Valid() && (s.probe.Some? <==> s.state.HalfOpen?)
    ensures var t := S.Record(s, cfg, now, permit, ok).0;
      s.version <= t.version && (t.probe.Some? <==> t.state.HalfOpen?)
    ensures var (t, d) := S.Allow(s, cfg, now, token);
      && s.version <= t.version && (t.probe.Some? <==> t.state.HalfOpen?)
      && (d.Allowed? ==>
            && d.permit.origin == Redis && !d.permit.state.Open? && d.permit.version == Some(t.version)
            && (d.permit.state.HalfOpen? ==> s.version < t.version && d.permit.token == Some(token)))
  {
  }

  lemma MoveKeeps(f: Fleet, cfg: Settings, m: Move)
    requires cfg.Valid() && Inv(f)
    ensures Inv(Next(f, cfg, m))
  {
    if Enabled(f, m) {
      var g := Next(f, cfg, m);
      var token := if m.Ask? then m.token else Token(0);
      var permit := if m.Report? then f.issued[m.k].permit else Permit(Closed, None, None, Local);
      var ok := m.Report? && m.ok;
      SharedMoves(f.system.shared, cfg, g.system.now, permit, ok, token);
      forall k | 0 <= k < |g.issued| ensures IssueInv(g, k) {
        if k < |f.issued| {
          assert IssueInv(f, k);
        }
      }
      forall j, k | 0 <= j < k < |g.issued| ensures Later(g.issued[j], g.issued[k]) {
        assert IssueInv(f, j);
        assert k < |f.issued| ==> Later(f.issued[j], f.issued[k]);
      }
    }
  }

  lemma {:induction false} RunKeeps(f: Fleet, cfg: Settings, moves: seq<Move>)
    requires cfg.Valid() && Inv(f)
    ensures Inv(Run(f, cfg, moves))
    decreases moves
  {
    if moves != [] {
      MoveKeeps(f, cfg, moves[0]);
      RunKeeps(Next(f, cfg, moves[0]), cfg, moves[1..]);
    }
  }

  function Reached(now: int, cfg: Settings, moves: seq<Move>): Fleet {
    Run(Init(now), cfg, moves)
  }

  lemma ReachedInv(now: int, cfg: Settings, moves: seq<Move>)
    requires cfg.Valid()
    ensures Inv(Reached(now, cfg, moves))
  {
    RunKeeps(Init(now), cfg, moves);
  }

  // ----- results go where their permits came from

  /** After any run, the report of a result runs in Redis exactly when Redis issued its permit and is reached now, and
      in the reporting gateway's own breaker exactly when it does not run in Redis or Redis' answer is lost. */
  lemma ResultsGoHome(now: int, cfg: Settings, moves: seq<Move>, m: Move)
    requires cfg.Valid() && m.Report? && Enabled(Reached(now, cfg, moves), m)
    ensures var f := Reached(now, cfg, moves);
      var i := f.issued[m.k];
      && (R.ReachesRedis(StepOf(f, m)) <==> i.byRedis && !m.delivery.NotReached?)
      && (R.ReachesLocal(StepOf(f, m), i.gateway) <==> !i.byRedis || !m.delivery.Answered?)
      && (forall g :: g != i.gateway ==> !R.ReachesLocal(StepOf(f, m), g))
  {
    ReachedInv(now, cfg, moves);
    assert IssueInv(Reached(now, cfg, moves), m.k);
  }

  // ----- a probe reported in time is accepted

  /** This move is a report of that permit, and it runs in Redis. */
  predicate Spends(m: Move, k: nat) {
    m.Report? && m.k == k && !m.delivery.NotReached?
  }

  /** Redis issued the k-th permit as the probe it is waiting for, until then. */
  predicate Probing(f: Fleet, k: nat, until: int) {
    && k < |f.issued| && f.issued[k].byRedis && f.issued[k].permit.state.HalfOpen?
    && f.system.shared.state.HalfOpen? && f.system.shared.probe.Some?
    && f.issued[k].permit.version == Some(f.system.shared.version)
    && f.issued[k].permit.token == Some(f.system.shared.probe.value.token)
    && f.system.shared.probe.value.expiresAt == until
  }

  function TotalWait(moves: seq<Move>): nat {
    if moves == [] then 0 else moves[0].wait + TotalWait(moves[1..])
  }

  lemma MoveLeavesProbe(f: Fleet, cfg: Settings, m: Move, k: nat, until: int)
    requires cfg.Valid() && Inv(f) && Probing(f, k, until) && f.system.now + m.wait <= until && !Spends(m, k)
    ensures Probing(Next(f, cfg, m), k, until) && Next(f, cfg, m).system.shared == f.system.shared
    ensures Next(f, cfg, m).system.now <= f.system.now + m.wait
  {
    if m.Report? && m.k < |f.issued| && m.k != k {
      assert IssueInv(f, m.k) && (m.k < k ==> Later(f.issued[m.k], f.issued[k]))
        && (k < m.k ==> Later(f.issued[k], f.issued[m.k]));
    }
  }

  lemma {:induction false} RunLeavesProbe(f: Fleet, cfg: Settings, moves: seq<Move>, k: nat, until: int)
    requires cfg.Valid() && Inv(f) && Probing(f, k, until) && f.system.now + TotalWait(moves) <= until
    requires forall i :: 0 <= i < |moves| ==> !Spends(moves[i], k)
    ensures Probing(Run(f, cfg, moves), k, until)
    ensures Run(f, cfg, moves).system.now <= f.system.now + TotalWait(moves)
    decreases moves
  {
    if moves != [] {
      assert !Spends(moves[0], k);
      MoveLeavesProbe(f, cfg, moves[0], k, until);
      MoveKeeps(f, cfg, moves[0]);
      RunLeavesProbe(Next(f, cfg, moves[0]), cfg, moves[1..], k, until);
    }
  }

  /** A half-open permit that Redis issued is worth its result: whatever all gateways do in between, when it is reported
      within its lease, for the first time and to a Redis that is reached, the shared breaker closes or opens by it. */
  lemma ProbeReportedInTimeCounts(now: int, cfg: Settings, moves: seq<Move>, ask: Move, more: seq<Move>, report: Move)
    requires cfg.Valid() && ask.Ask? && ask.delivery.Answered?
    requires var f := Reached(now, cfg, moves);
      Answer(f, cfg, ask).Allowed? && Answer(f, cfg, ask).permit.state.HalfOpen?
    requires var k := |Reached(now, cfg, moves).issued|;
      Spends(report, k) && forall i :: 0 <= i < |more| ==> !Spends(more[i], k)
    requires TotalWait(more) + report.wait <= cfg.lease
    ensures var f := Reached(now, cfg, moves);
      var g := Run(Next(f, cfg, ask), cfg, more);
      var h := Next(g, cfg, report);
      && Enabled(g, report)
      && g.system.shared.state.HalfOpen?
      && h.system.shared.state == (if report.ok then Closed else Open)
      && h.system.shared.version == g.system.shared.version + 1 && h.system.shared.probe.None?
  {
    var f := Reached(now, cfg, moves);
    var k := |f.issued|;
    ReachedInv(now, cfg, moves);
    MoveKeeps(f, cfg, ask);
    var f1 := Next(f, cfg, ask);
    SharedMoves(f.system.shared, cfg, f1.system.now, Permit(Closed, None, None, Local), false, ask.token);
    var until := f1.system.now + cfg.lease;
    assert Probing(f1, k, until);
    RunLeavesProbe(f1, cfg, more, k, until);
    RunKeeps(f1, cfg, more);
    var g := Run(f1, cfg, more);
    assert IssueInv(g, k);
    IssuedStays(f1, cfg, more, k);
  }

  lemma {:induction false} IssuedStays(f: Fleet, cfg: Settings, moves: seq<Move>, k: nat)
    requires k < |f.issued|
    ensures k < |Run(f, cfg, moves).issued| && Run(f, cfg, moves).issued[k] == f.issued[k]
    decreases moves
  {
    if moves != [] {
      IssuedStays(Next(f, cfg, moves[0]), cfg, moves[1..], k);
    }
  }
}
