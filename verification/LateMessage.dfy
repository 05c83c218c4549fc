/** The messages of a batch are handed out together and processed one after another (app/job_worker.py:95-123).  Here is
    the run in which that goes wrong: the worker takes the same time for every message, and the last one is taken from
    it. */
module LateMessage {
  import opened Options
  import opened JobQueue
  import H = History
  import opened JobQueueProtocol
  import opened JobQueueInvariant
  import opened JobQueueTheorems
  import opened Preemption

  lemma {:induction false} RunThen(y: System, steps: seq<Step>, step: Step)
    ensures Run(y, steps + [step]) == Next(Run(y, steps), step)
  {
    RunAppends(y, steps, [step]);
    var z := Run(y, steps);
    assert [step][1..] == [];
    assert Run(z, [step]) == Run(Next(z, step), []);
  }

  lemma AndThen(ttl: nat, steps: seq<Step>, step: Step) returns (longer: seq<Step>)
    ensures longer == steps + [step] && Reached(ttl, longer) == Next(Reached(ttl, steps), step)
  {
    longer := steps + [step];
    RunThen(Init(ttl), steps, step);
  }

  predicate NoReclaims(steps: seq<Step>) {
    forall i :: 0 <= i < |steps| ==> !steps[i].Reclaim? && !steps[i].LegacyInspect?
  }

  // ----- the batch is handed out

  /** `n` entries have been enqueued and nothing else has happened. */
  predicate Fresh(y: System, n: nat) {
    && y.store.lastId == n && y.store.delivered == 0 && y.store.clock == 0
    && y.store.pending == map[] && y.phases == map[] && y.log == H.Start
    && (forall id :: 1 <= id <= n ==> id in y.store.stream && id in y.accepted && y.accepted[id].job == JobId(id))
    && (forall id :: id in y.accepted ==> 1 <= id <= n)
  }

  lemma {:induction false} Enqueues(ttl: nat, n: nat) returns (steps: seq<Step>)
    ensures Fresh(Reached(ttl, steps), n) && Reached(ttl, steps).ttl == ttl && NoReclaims(steps)
    decreases n
  {
    if n == 0 {
      steps := [];
    } else {
      steps := Enqueues(ttl, n - 1);
      ghost var y := Reached(ttl, steps);
      assert FreshJob(y, JobId(n));
      steps := AndThen(ttl, steps, Enqueue(JobId(n), "", 0));
    }
  }

  /** One read hands out all that is left of a batch, at the same moment. */
  lemma {:induction false} ReadsAll(y: System, w: Worker, count: nat)
    requires y.store.delivered + count == y.store.lastId
    requires forall id :: y.store.delivered < id <= y.store.lastId ==> id in y.store.stream
    ensures var z := DoRead(y, w, count);
      && z.accepted == y.accepted && z.phases == y.phases && z.ttl == y.ttl
      && z.store == y.store.(pending := z.store.pending, delivered := y.store.lastId)
      && (forall id :: y.store.delivered < id <= y.store.lastId ==>
            id in z.store.pending && z.store.pending[id] == Pending(w, y.store.clock))
      && (forall id :: id in y.store.pending && id <= y.store.delivered ==>
            id in z.store.pending && z.store.pending[id] == y.store.pending[id])
      && (forall token :: GrantOf(z.log, token) == GrantOf(y.log, token))
    decreases count
  {
    if count > 0 {
      var id := y.store.delivered + 1;
      assert NextEntry(y.store, id) == Some(id);
      ReadsAll(DoDeliver(y, w, id), w, count - 1);
    }
  }

  // ----- one message after another

  /** At this moment the entries from `k` on are still with the worker since time 0, their leases not yet granted; those
      before, in the stated case, are finished. */
  predicate Holding(y: System, w: Worker, v: Worker, n: nat, k: nat, clock: nat, finished: bool) {
    && y.store.clock == clock && PhaseOf(y, w).Ready? && PhaseOf(y, v).Ready?
    && (forall id :: k <= id <= n ==> id in y.accepted && id in y.store.pending && y.store.pending[id] == Pending(w, 0))
    && (forall j :: k <= j <= n ==> GrantOf(y.log, Token(j)).None?)
    && (finished ==> forall id :: 1 <= id < k ==> Final(y.log, id).Some?)
  }

  lemma BatchInHand(ttl: nat, n: nat, w: Worker, v: Worker, finished: bool) returns (steps: seq<Step>)
    requires w != v && 1 <= n
    ensures Holding(Reached(ttl, steps), w, v, n, 1, 0, finished) && Reached(ttl, steps).ttl == ttl && NoReclaims(steps)
  {
    steps := Enqueues(ttl, n);
    ReadsAll(Reached(ttl, steps), w, n);
    steps := AndThen(ttl, steps, Read(w, n));
  }

  /** The worker leases entry `k`. */
  lemma LeasesNext(y: System, w: Worker, k: nat)
    requires PhaseOf(y, w).Ready? && k in y.accepted && Owns(y.store, w, k) && GrantOf(y.log, Token(k)).None?
    ensures var z := Next(Next(y, MarkGet(w, k)), MarkScript(w, Token(k), 0));
      var job := y.accepted[k].job;
      && z == y.(store := z.store, phases := z.phases, log := z.log)
      && z.store == y.store.(jobs := z.store.jobs) && z.phases == y.phases[w := Ready]
      && job in z.store.jobs && z.store.jobs[job].expiresAt == y.store.clock + y.ttl
      && z.store.jobs[job].record.token == Some(Token(k))
      && z.log.Then? && z.log.earlier == y.log && z.log.event.Grant?
      && z.log.event.id == k && z.log.event.worker == w && z.log.event.token == Token(k)
  {
  }

  /** And finishes it, if the record has not expired. */
  lemma FinishesIt(y: System, w: Worker, k: nat, outcome: Outcome)
    requires PhaseOf(y, w).Ready? && k in y.accepted && Owns(y.store, w, k)
    requires GrantOf(y.log, Token(k)).Some? && GrantOf(y.log, Token(k)).value.id == k
      && GrantOf(y.log, Token(k)).value.worker == w
    ensures var z := Next(Next(y, FinalGet(w, Token(k), outcome, 0)), FinalScript(w));
      var job := y.accepted[k].job;
      && z == y.(store := z.store, phases := z.phases, log := z.log)
      && z.store.clock == y.store.clock && y.store.pending - {k} == z.store.pending - {k}
      && PhaseOf(z, w).Ready? && (forall u :: u != w ==> PhaseOf(z, u) == PhaseOf(y, u))
      && (z.log == y.log || (z.log.Then? && z.log.earlier == y.log && z.log.event.Commit? && z.log.event.id == k))
      && (Get(y.store, job).Some? && Get(y.store, job).value.token == Some(Token(k)) ==> z.log != y.log)
  {
    var job := y.accepted[k].job;
    var y1 := Next(y, FinalGet(w, Token(k), outcome, 0));
    assert y1 == y || y1 == At(y, w, PhaseOf(y1, w));
    if Get(y.store, job).Some? && Get(y.store, job).value.token == Some(Token(k)) {
      assert CanFinalize(y.store, Lease(k, job, w, Token(k)));
      LogGrows(y.log, Next(y1, FinalScript(w)).log);
    }
  }

  function Length(log: Log): nat {
    match log
    case Start => 0
    case Then(l, _) => Length(l) + 1
  }

  lemma LogGrows(log: Log, longer: Log)
    ensures longer.Then? && longer.earlier == log ==> longer != log
  {
    if longer.Then? && longer.earlier == log {
      assert Length(longer) == Length(log) + 1;
    }
  }

  /** What a message's steps leave as it was for the later ones. */
  lemma HoldingMoves(y: System, z: System, w: Worker, v: Worker, n: nat, k: nat, clock: nat, finished: bool)
    requires w != v && k <= n && Holding(y, w, v, n, k, clock, finished) && z.store.clock == y.store.clock
    requires z.accepted == y.accepted && PhaseOf(z, w).Ready? && PhaseOf(z, v).Ready?
    requires y.store.pending - {k} == z.store.pending - {k}
    requires forall j :: k < j <= n ==> GrantOf(z.log, Token(j)) == GrantOf(y.log, Token(j))
    requires forall id :: Final(y.log, id).Some? ==> Final(z.log, id).Some?
    requires finished ==> Final(z.log, k).Some?
    ensures Holding(z, w, v, n, k + 1, clock, finished)
  {
    forall id | k + 1 <= id <= n ensures id in z.store.pending && z.store.pending[id] == Pending(w, 0) {
      assert id in y.store.pending - {k};
      assert (y.store.pending - {k})[id] == (z.store.pending - {k})[id];
    }
  }

  lemma OneMessage(ttl: nat, before: seq<Step>, d: nat, w: Worker, v: Worker, n: nat, k: nat, clock: nat,
      outcome: Outcome)
    returns (steps: seq<Step>)
    requires w != v && 1 <= k <= n && NoReclaims(before) && Reached(ttl, before).ttl == ttl
    requires Holding(Reached(ttl, before), w, v, n, k, clock, d <= ttl)
    ensures Holding(Reached(ttl, steps), w, v, n, k + 1, clock + d, d <= ttl)
    ensures NoReclaims(steps) && Reached(ttl, steps).ttl == ttl
  {
    ghost var y := Reached(ttl, before);
    steps := LeaseInHand(ttl, before, w, v, n, k, clock, d <= ttl);
    ghost var leased := Reached(ttl, steps);
    steps := AndThen(ttl, steps, Tick(d));
    ghost var later := Reached(ttl, steps);
    FinishesIt(later, w, k, outcome);
    steps := AndThen(ttl, steps, FinalGet(w, Token(k), outcome, 0));
    steps := AndThen(ttl, steps, FinalScript(w));
    HoldingMoves(y.(store := y.store.(clock := clock + d)), Reached(ttl, steps), w, v, n, k, clock + d, d <= ttl);
  }

  lemma LeaseInHand(ttl: nat, before: seq<Step>, w: Worker, v: Worker, n: nat, k: nat, clock: nat, finished: bool)
    returns (steps: seq<Step>)
    requires w != v && 1 <= k <= n && NoReclaims(before) && Reached(ttl, before).ttl == ttl
    requires Holding(Reached(ttl, before), w, v, n, k, clock, finished)
    ensures var y, z := Reached(ttl, before), Reached(ttl, steps);
      && z == y.(store := z.store, phases := z.phases, log := z.log)
      && z.store == y.store.(jobs := z.store.jobs) && z.phases == y.phases[w := Ready]
      && y.accepted[k].job in z.store.jobs && z.store.jobs[y.accepted[k].job].expiresAt == clock + ttl
      && z.store.jobs[y.accepted[k].job].record.token == Some(Token(k))
      && z.log.Then? && z.log.earlier == y.log && z.log.event.Grant?
      && z.log.event.id == k && z.log.event.worker == w && z.log.event.token == Token(k)
    ensures NoReclaims(steps)
  {
    LeasesNext(Reached(ttl, before), w, k);
    steps := AndThen(ttl, before, MarkGet(w, k));
    steps := AndThen(ttl, steps, MarkScript(w, Token(k), 0));
  }

  /** The messages before the k-th, each in time `d`. */
  lemma {:induction false} MessagesBefore(ttl: nat, d: nat, w: Worker, v: Worker, n: nat, k: nat, outcome: Outcome)
    returns (steps: seq<Step>)
    requires w != v && 1 <= k <= n
    ensures Holding(Reached(ttl, steps), w, v, n, k, (k - 1) * d, d <= ttl)
    ensures NoReclaims(steps) && Reached(ttl, steps).ttl == ttl
    decreases k
  {
    if k == 1 {
      steps := BatchInHand(ttl, n, w, v, d <= ttl);
    } else {
      steps := MessagesBefore(ttl, d, w, v, n, k - 1, outcome);
      steps := OneMessage(ttl, steps, d, w, v, n, k - 1, (k - 2) * d, outcome);
      assert (k - 2) * d + d == (k - 1) * d;
    }
  }

  // ----- and the last one is lost

  /** The worker holds the lease of entry `n`, handed to it at time 0, and has done the messages before. */
  predicate LastInHand(y: System, w: Worker, v: Worker, n: nat, clock: nat, finished: bool) {
    && y.store.clock == clock && PhaseOf(y, w).Ready? && PhaseOf(y, v).Ready?
    && n in y.accepted && n in y.store.pending && y.store.pending[n] == Pending(w, 0)
    && GrantOf(y.log, Token(n)).Some? && LastGrant(y.log, n) == GrantOf(y.log, Token(n))
    && GrantOf(y.log, Token(n)).value.id == n && GrantOf(y.log, Token(n)).value.worker == w
    && (finished ==> forall id :: 1 <= id < n ==> Final(y.log, id).Some?)
  }

  lemma LastLeased(ttl: nat, d: nat, w: Worker, v: Worker, n: nat, outcome: Outcome) returns (steps: seq<Step>)
    requires w != v && 1 <= n
    ensures LastInHand(Reached(ttl, steps), w, v, n, (n - 1) * d, d <= ttl) && NoReclaims(steps)
  {
    var before := MessagesBefore(ttl, d, w, v, n, n, outcome);
    steps := LeaseInHand(ttl, before, w, v, n, n, (n - 1) * d, d <= ttl);
  }

  lemma LastIsLost(y: System, d: nat, theta: nat, w: Worker, v: Worker, n: nat, outcome: Outcome, stamp: nat)
    requires Inv(Next(y, Tick(d))) && w != v && LastInHand(y, w, v, n, y.store.clock, false)
    requires theta <= y.store.clock + d
    ensures var z := Next(Next(y, Tick(d)), Reclaim(v, theta, n, 1));
      && z.store.clock == y.store.clock + d
      && GrantOf(z.log, Token(n)) == GrantOf(y.log, Token(n)) && Owns(z.store, v, n)
      && Run(z, [FinalGet(w, Token(n), outcome, stamp), FinalScript(w)]).log == z.log
  {
    var y1 := Next(y, Tick(d));
    ReclaimTakesIt(y1, v, theta, n);
    var z := Next(y1, Reclaim(v, theta, n, 1));
    assert z.log == H.Then(y1.log, Handout(n, v, y1.store.clock, theta));
    BothHalves(z, Token(n), outcome, stamp);
  }

  /** For every batch size, time per message and threshold that n messages reach: the worker is handed n entries at time
      0, finishes one every `d` ticks (their records do not expire when `d` is within the time to live), holds the lease
      of the n-th from (n - 1) * d on, and at n * d another worker, as patient as the threshold asks, takes it over.
      The result of the n-th call is refused. */
  lemma LastMessageIsTaken(
      ttl: nat, n: nat, d: nat, theta: nat, w: Worker, v: Worker, outcome: Outcome, stamp: nat)
    returns (before: seq<Step>, steps: seq<Step>)
    requires w != v && 1 <= n && theta <= n * d
    ensures steps == before + [Tick(d)] + [Reclaim(v, theta, n, 1)]
    ensures forall i :: 0 <= i < |steps| ==> Patient(steps[i], theta)
    ensures LastInHand(Reached(ttl, before), w, v, n, (n - 1) * d, d <= ttl)
    ensures var y := Reached(ttl, steps);
      && y.store.clock == n * d
      && GrantOf(y.log, Token(n)) == GrantOf(Reached(ttl, before).log, Token(n)) && Owns(y.store, v, n)
      && Run(y, [FinalGet(w, Token(n), outcome, stamp), FinalScript(w)]).log == y.log
  {
    before := LastLeased(ttl, d, w, v, n, outcome);
    assert (n - 1) * d + d == n * d;
    ghost var y := Reached(ttl, before);
    steps := AndThen(ttl, before, Tick(d));
    ReachedInv(ttl, steps);
    LastIsLost(y, d, theta, w, v, n, outcome, stamp);
    steps := AndThen(ttl, steps, Reclaim(v, theta, n, 1));
  }
}
