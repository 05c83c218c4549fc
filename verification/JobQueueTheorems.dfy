/** What the job queue guarantees in every state any run can reach.  Runs are arbitrary lists of steps: any number
    of workers, crashes, lost replies, reclaims by either command, expiring records. */
module JobQueueTheorems {
  import opened Options
  import opened JobQueue
  import H = History
  import opened JobQueueProtocol
  import opened JobQueueInvariant

  function Reached(ttl: nat, steps: seq<Step>): System {
    Run(Init(ttl), steps)
  }

  lemma ReachedInv(ttl: nat, steps: seq<Step>)
    ensures Inv(Reached(ttl, steps))
  {
    InitInv(ttl);
    RunKeeps(Init(ttl), steps);
  }

  // ----- conservation, and at most one finalise per job

  lemma {:induction false} CommitsAtMostOnce(log: Log, id: StreamId)
    requires Sound(log)
    ensures Commits(log, id) == if Final(log, id).Some? then 1 else 0
  {
    if log.Then? {
      CommitsAtMostOnce(log.earlier, id);
    }
  }

  /** Each accepted job is undelivered, in flight or done, never two of these; it is done exactly when one finalise
      took effect, and two never do; until then its entry is in the stream, unchanged. */
  lemma EveryJobIsInExactlyOnePlace(ttl: nat, steps: seq<Step>, id: StreamId)
    ensures var y := Reached(ttl, steps);
      && (id in y.accepted <==> 0 < id <= y.store.lastId)
      && (id in y.store.pending ==> id in y.store.stream)
      && (id in y.store.stream ==> id in y.accepted && y.store.stream[id] == y.accepted[id])
      && (id in y.accepted ==>
            if Undelivered(y, id) then !InFlight(y, id) && !Done(y, id) && Commits(y.log, id) == 0
            else if InFlight(y, id) then !Done(y, id) && Commits(y.log, id) == 0
            else Done(y, id) && Commits(y.log, id) == 1)
  {
    var y := Reached(ttl, steps);
    ReachedInv(ttl, steps);
    CommitsAtMostOnce(y.log, id);
    if id in y.accepted {
      assert EntryInv(y, id);
    }
  }

  // ----- a finished job

  lemma {:induction false} FinalIsLast(log: Log, id: StreamId)
    requires Sound(log) && Final(log, id).Some?
    ensures LastGrant(log, id).Some?
    ensures var c, g := Final(log, id).value, LastGrant(log, id).value;
      && c.token == g.token
      && c.record == Finished(g.record, g.worker, c.outcome, c.stamp)
      && g.record.attempts == LeasesSinceCreation(log, id)
  {
    if log.event.Commit? && log.event.id == id {
      LastGrantCounts(log.earlier, id);
    } else {
      assert log.event.id != id;
      FinalIsLast(log.earlier, id);
    }
  }

  /** No update is lost: the terminal record is the record of the latest lease, finished by that lease's worker, and
      its attempt count is the number of leases granted since the record was last created. */
  lemma FinalRecordExtendsLatestLease(ttl: nat, steps: seq<Step>, id: StreamId)
    requires Final(Reached(ttl, steps).log, id).Some?
    ensures var y := Reached(ttl, steps);
      var c := Final(y.log, id).value;
      && LastGrant(y.log, id).Some?
      && c.token == LastGrant(y.log, id).value.token
      && c.record == Finished(LastGrant(y.log, id).value.record, LastGrant(y.log, id).value.worker, c.outcome, c.stamp)
      && c.record.Terminal() && c.record.token.None?
      && c.record.attempts == LeasesSinceCreation(y.log, id)
  {
    ReachedInv(ttl, steps);
    FinalIsLast(Reached(ttl, steps).log, id);
  }

  function Grants(log: Log, id: StreamId): nat {
    match log
    case Start => 0
    case Then(l, e) => Grants(l, id) + if e.Grant? && e.id == id then 1 else 0
  }

  predicate EverRebuilt(log: Log, id: StreamId) {
    log.Then? && ((log.event.Grant? && log.event.id == id && log.event.rebuilt) || EverRebuilt(log.earlier, id))
  }

  /** When the record never expired under a worker, the count is simply the number of leases ever granted. */
  lemma {:induction false} LeasesWithoutRebuild(log: Log, id: StreamId)
    ensures LeasesSinceCreation(log, id) <= Grants(log, id)
    ensures !EverRebuilt(log, id) ==> LeasesSinceCreation(log, id) == Grants(log, id)
  {
    if log.Then? {
      LeasesWithoutRebuild(log.earlier, id);
    }
  }

  /** The job key of a done entry is out of every step's reach. */
  ghost predicate Frozen(y: System, z: System, id: StreamId)
    requires id in y.accepted
  {
    && id in z.accepted && z.accepted[id] == y.accepted[id]
    && Final(z.log, id) == Final(y.log, id)
    && y.store.clock <= z.store.clock
    && (y.accepted[id].job in z.store.jobs <==> y.accepted[id].job in y.store.jobs)
    && (y.accepted[id].job in y.store.jobs ==> z.store.jobs[y.accepted[id].job] == y.store.jobs[y.accepted[id].job])
  }

  lemma {:induction false} ClaimFreezes(y: System, w: Worker, ids: seq<StreamId>, minIdle: nat, id: StreamId)
    requires id in y.accepted
    ensures Frozen(y, DoClaim(y, w, ids, minIdle), id)
    decreases ids
  {
    if ids != [] {
      ClaimFreezes(DoClaimOne(y, w, ids[0], minIdle), w, ids[1..], minIdle, id);
    }
  }

  lemma ReadFreezes(y: System, w: Worker, count: nat, id: StreamId)
    requires id in y.accepted
    ensures Frozen(y, DoRead(y, w, count), id)
  {
    ReadInduction((z: System) => Frozen(y, z, id), y, w, count);
  }

  lemma StepFreezes(y: System, step: Step, id: StreamId)
    requires Inv(y) && Final(y.log, id).Some? && id in y.accepted
    ensures Frozen(y, Next(y, step), id)
  {
    assert EntryInv(y, id);
    if Enabled(y, step) {
      match step
      case Read(w, count) => ReadFreezes(y, w, count, id);
      case Reclaim(w, minIdle, start, count) =>
        ClaimFreezes(y, w, Scan(y.store, PendingFrom(y.store, start), 10 * count, count, minIdle).0, minIdle, id);
      case LegacyClaim(w) => ClaimFreezes(y, w, PhaseOf(y, w).candidates, PhaseOf(y, w).minIdle, id);
      case FinalScript(w) => assert WorkerInv(y, w);
      case _ => OtherStepFreezes(y, step, id);
    }
  }

  lemma OtherStepFreezes(y: System, step: Step, id: StreamId)
    requires Inv(y) && Final(y.log, id).Some? && id in y.accepted && Done(y, id)
    requires !step.Read? && !step.Reclaim? && !step.LegacyClaim? && !step.FinalScript?
    ensures Frozen(y, Next(y, step), id)
  {
    if step.MarkScript? && Enabled(y, step) {
      assert WorkerInv(y, step.worker);
    }
  }

  lemma {:induction false} RunFreezes(y: System, steps: seq<Step>, id: StreamId)
    requires Inv(y) && Final(y.log, id).Some? && id in y.accepted
    ensures Frozen(y, Run(y, steps), id)
    decreases steps
  {
    if steps != [] {
      StepKeeps(y, steps[0]);
      StepFreezes(y, steps[0], id);
      RunFreezes(Next(y, steps[0]), steps[1..], id);
    }
  }

  /** A terminal record never changes again except by expiring, and an expired one never comes back. */
  lemma TerminalRecordNeverChanges(ttl: nat, steps: seq<Step>, more: seq<Step>, id: StreamId)
    requires Final(Reached(ttl, steps).log, id).Some?
    ensures var y := Reached(ttl, steps);
      var z := Run(y, more);
      && id in y.accepted && id in z.accepted
      && Final(z.log, id) == Final(y.log, id)
      && (Get(y.store, y.accepted[id].job).Some? ==>
        Get(y.store, y.accepted[id].job).value == Final(y.log, id).value.record)
      && (Get(z.store, y.accepted[id].job).Some? ==>
        Get(z.store, y.accepted[id].job) == Get(y.store, y.accepted[id].job))
  {
    var y := Reached(ttl, steps);
    ReachedInv(ttl, steps);
    if id !in y.accepted {
      UntouchedHasNoEvents(y.log, id);
      assert false;
    }
    assert EntryInv(y, id);
    RunFreezes(y, more, id);
  }

  // ----- no lost updates inside the two-step methods

  /** When a worker's ownership script succeeds, the record it replaces is the one its GET returned, unless that
      record expired in between; a record it rebuilt replaces nothing. */
  lemma MarkRunningLosesNoUpdate(ttl: nat, steps: seq<Step>, w: Worker)
    requires PhaseOf(Reached(ttl, steps), w).Marking?
      && Owns(Reached(ttl, steps).store, w, PhaseOf(Reached(ttl, steps), w).id)
    ensures var y := Reached(ttl, steps);
      var Marking(id, read) := PhaseOf(y, w);
      && id in y.accepted
      && (Get(y.store, y.accepted[id].job).Some? ==> Get(y.store, y.accepted[id].job) == read)
      && (read.Some? ==> read.value.attempts == LeasesSinceCreation(y.log, id))
  {
    ReachedInv(ttl, steps);
    MarkReadIsCurrent(Reached(ttl, steps), w);
  }

  /** When a worker's finalize script succeeds, it writes the finished form of the record the key holds at that
      moment. */
  lemma FinalizeLosesNoUpdate(ttl: nat, steps: seq<Step>, w: Worker)
    requires PhaseOf(Reached(ttl, steps), w).Finalizing?
      && CanFinalize(Reached(ttl, steps).store, PhaseOf(Reached(ttl, steps), w).lease)
    ensures var y := Reached(ttl, steps);
      var Finalizing(lease, record, outcome, stamp) := PhaseOf(y, w);
      && record == Finished(Get(y.store, lease.job).value, w, outcome, stamp)
      && LastGrant(y.log, lease.id).Some? && LastGrant(y.log, lease.id).value.token == lease.token
  {
    var y := Reached(ttl, steps);
    ReachedInv(ttl, steps);
    assert WorkerInv(y, w);
    var lease := PhaseOf(y, w).lease;
    RecordWithToken(y, lease.id, lease.token);
  }

  // ----- fencing

  lemma {:induction false} ExtendsTransitive(a: Log, b: Log, c: Log)
    requires Extends(a, b) && Extends(b, c)
    ensures Extends(a, c)
  {
    if a != b {
      ExtendsTransitive(a.earlier, b, c);
    }
  }

  lemma {:induction false} ClaimExtends(y: System, w: Worker, ids: seq<StreamId>, minIdle: nat)
    ensures Extends(DoClaim(y, w, ids, minIdle).log, y.log)
    decreases ids
  {
    if ids != [] {
      var z := DoClaimOne(y, w, ids[0], minIdle);
      ClaimExtends(z, w, ids[1..], minIdle);
      ExtendsTransitive(DoClaim(y, w, ids, minIdle).log, z.log, y.log);
    }
  }

  lemma ReadExtends(y: System, w: Worker, count: nat)
    ensures Extends(DoRead(y, w, count).log, y.log)
  {
    ReadInduction((z: System) => Extends(z.log, y.log), y, w, count);
  }

  /** History is never rewritten. */
  lemma {:induction false} RunExtends(y: System, steps: seq<Step>)
    ensures Extends(Run(y, steps).log, y.log)
    decreases steps
  {
    if steps != [] {
      var z := Next(y, steps[0]);
      StepExtends(y, steps[0]);
      RunExtends(z, steps[1..]);
      ExtendsTransitive(Run(y, steps).log, z.log, y.log);
    }
  }

  lemma StepExtends(y: System, step: Step)
    ensures Extends(Next(y, step).log, y.log)
  {
    if Enabled(y, step) {
      match step
      case Read(w, count) => ReadExtends(y, w, count);
      case Reclaim(w, minIdle, start, count) =>
        ClaimExtends(y, w, Scan(y.store, PendingFrom(y.store, start), 10 * count, count, minIdle).0, minIdle);
      case LegacyClaim(w) => ClaimExtends(y, w, PhaseOf(y, w).candidates, PhaseOf(y, w).minIdle);
      case _ =>
    }
  }

  lemma {:induction false} SupersededStays(log: Log, earlier: Log, token: Token)
    requires Sound(log) && Extends(log, earlier) && GrantOf(earlier, token).Some?
    requires LastGrant(earlier, GrantOf(earlier, token).value.id) != GrantOf(earlier, token)
    ensures GrantOf(log, token) == GrantOf(earlier, token)
    ensures LastGrant(log, GrantOf(log, token).value.id) != GrantOf(log, token)
  {
    if log != earlier {
      SupersededStays(log.earlier, earlier, token);
    }
  }

  /** Once a newer lease has been granted, the older one can never commit again: not while another worker owns the
      entry, and not when ownership comes back to the very same worker name. */
  lemma SupersededLeaseNeverCommits(ttl: nat, steps: seq<Step>, more: seq<Step>, token: Token, owner: Worker)
    requires var log := Reached(ttl, steps).log;
      GrantOf(log, token).Some? && LastGrant(log, GrantOf(log, token).value.id) != GrantOf(log, token)
    ensures var id := GrantOf(Reached(ttl, steps).log, token).value.id;
      var z := Run(Reached(ttl, steps), more);
      && id in z.accepted
      && !CanFinalize(z.store, Lease(id, z.accepted[id].job, owner, token))
      && (Final(z.log, id).Some? ==> Final(z.log, id).value.token != token)
  {
    var y := Reached(ttl, steps);
    var z := Run(y, more);
    var id := GrantOf(y.log, token).value.id;
    ReachedInv(ttl, steps);
    RunKeeps(y, more);
    RunExtends(y, more);
    SupersededStays(z.log, y.log, token);
    GrantedIsTouched(z.log, token);
    assert id in z.accepted;
    if CanFinalize(z.store, Lease(id, z.accepted[id].job, owner, token)) {
      RecordWithToken(z, id, token);
      assert false;
    }
    if Final(z.log, id).Some? {
      FinalIsLast(z.log, id);
      LastGrantCounts(z.log, id);
    }
  }

  lemma {:induction false} GrantedIsTouched(log: Log, token: Token)
    ensures GrantOf(log, token).Some? ==> !Untouched(log, GrantOf(log, token).value.id)
  {
    if log.Then? {
      GrantedIsTouched(log.earlier, token);
    }
  }

  /** In a reachable state only the latest lease of an entry can commit, so at most one lease per job can. */
  lemma OnlyTheLatestLeaseCanCommit(ttl: nat, steps: seq<Step>, lease: Lease, other: Lease)
    requires var y := Reached(ttl, steps);
      && lease.id in y.accepted && lease.job == y.accepted[lease.id].job
      && CanFinalize(y.store, lease)
    ensures var y := Reached(ttl, steps);
      && LastGrant(y.log, lease.id).Some?
      && LastGrant(y.log, lease.id).value.token == lease.token
      && GrantOf(y.log, lease.token) == LastGrant(y.log, lease.id)
      && (CanFinalize(y.store, other) && other.id == lease.id && other.job == lease.job ==> other == lease)
  {
    ReachedInv(ttl, steps);
    RecordWithToken(Reached(ttl, steps), lease.id, lease.token);
  }

  /** Steps by which a worker takes entries. */
  predicate Takes(step: Step, w: Worker) {
    (step.Read? || step.Reclaim? || step.LegacyClaim?) && step.worker == w
  }

  lemma {:induction false} ClaimByOther(y: System, v: Worker, ids: seq<StreamId>, minIdle: nat, w: Worker, id: StreamId)
    requires !Owns(y.store, w, id) && v != w
    ensures !Owns(DoClaim(y, v, ids, minIdle).store, w, id)
    decreases ids
  {
    if ids != [] {
      ClaimByOther(DoClaimOne(y, v, ids[0], minIdle), v, ids[1..], minIdle, w, id);
    }
  }

  /** A worker that lost an entry stays fenced off until it takes entries itself. */
  lemma {:induction false} LostEntryStaysFenced(
      y: System, steps: seq<Step>, w: Worker, id: StreamId, job: JobId, token: Token)
    requires !Owns(y.store, w, id)
    requires forall i :: 0 <= i < |steps| ==> !Takes(steps[i], w)
    ensures !Owns(Run(y, steps).store, w, id)
    ensures !CanFinalize(Run(y, steps).store, Lease(id, job, w, token))
    decreases steps
  {
    if steps != [] {
      var z := Next(y, steps[0]);
      assert !Takes(steps[0], w);
      if Enabled(y, steps[0]) {
        match steps[0]
        case Read(v, count) => ReadInduction((x: System) => !Owns(x.store, w, id), y, v, count);
        case Reclaim(v, minIdle, start, count) =>
          ClaimByOther(y, v, Scan(y.store, PendingFrom(y.store, start), 10 * count, count, minIdle).0, minIdle, w, id);
        case LegacyClaim(v) => ClaimByOther(y, v, PhaseOf(y, v).candidates, PhaseOf(y, v).minIdle, w, id);
        case _ =>
      }
      LostEntryStaysFenced(z, steps[1..], w, id, job, token);
    }
  }

  /** The two halves of `complete` or `fail`, back to back. */
  lemma BothHalves(y: System, token: Token, outcome: Outcome, stamp: nat)
    requires GrantOf(y.log, token).Some? && PhaseOf(y, GrantOf(y.log, token).value.worker).Ready?
    requires GrantOf(y.log, token).value.id in y.accepted
    ensures var g := GrantOf(y.log, token).value;
      var job := y.accepted[g.id].job;
      Run(y, [FinalGet(g.worker, token, outcome, stamp), FinalScript(g.worker)]).log
      == if CanFinalize(y.store, Lease(g.id, job, g.worker, token))
         then H.Then(y.log, Commit(g.id, token, outcome, stamp,
           Finished(Get(y.store, job).value, g.worker, outcome, stamp)))
         else y.log
  {
    var g := GrantOf(y.log, token).value;
    var first, second := FinalGet(g.worker, token, outcome, stamp), FinalScript(g.worker);
    assert [first, second][1..] == [second] && [second][1..] == [];
    assert Run(y, [first, second]) == Run(Next(y, first), [second]) == Run(Next(Next(y, first), second), []);
  }

  lemma FinalizesExactlyWhen(y: System, token: Token)
    requires Inv(y) && GrantOf(y.log, token).Some? && GrantOf(y.log, token).value.id in y.accepted
    ensures var g := GrantOf(y.log, token).value;
      var job := y.accepted[g.id].job;
      && (CanFinalize(y.store, Lease(g.id, job, g.worker, token)) <==>
            LastGrant(y.log, g.id) == Some(g) && Owns(y.store, g.worker, g.id) && Get(y.store, job).Some?)
      && (CanFinalize(y.store, Lease(g.id, job, g.worker, token)) ==> Get(y.store, job).value == g.record)
  {
    var g := GrantOf(y.log, token).value;
    var job := y.accepted[g.id].job;
    if CanFinalize(y.store, Lease(g.id, job, g.worker, token)) {
      RecordWithToken(y, g.id, token);
    } else if LastGrant(y.log, g.id) == Some(g) && Owns(y.store, g.worker, g.id) {
      assert EntryInv(y, g.id);
      LastGrantCounts(y.log, g.id);
    }
  }

  /** Exactly when finishing a lease takes effect, for a worker left alone between its two commands: the lease is the
      entry's latest, the worker still owns the entry, and the record has not expired. */
  lemma LeaseCommitsExactlyWhen(ttl: nat, steps: seq<Step>, token: Token, outcome: Outcome, stamp: nat)
    requires var y := Reached(ttl, steps);
      GrantOf(y.log, token).Some? && PhaseOf(y, GrantOf(y.log, token).value.worker).Ready?
    ensures var y := Reached(ttl, steps);
      var g := GrantOf(y.log, token).value;
      var z := Run(y, [FinalGet(g.worker, token, outcome, stamp), FinalScript(g.worker)]);
      && g.id in y.accepted
      && (z.log != y.log <==>
            && LastGrant(y.log, g.id) == Some(g)
            && Owns(y.store, g.worker, g.id)
            && Get(y.store, y.accepted[g.id].job).Some?)
      && (z.log != y.log ==> z.log == H.Then(y.log,
        Commit(g.id, token, outcome, stamp, Finished(g.record, g.worker, outcome, stamp))))
  {
    var y := Reached(ttl, steps);
    var g := GrantOf(y.log, token).value;
    ReachedInv(ttl, steps);
    GrantedIsTouched(y.log, token);
    assert g.id in y.accepted;
    BothHalves(y, token, outcome, stamp);
    FinalizesExactlyWhen(y, token);
  }

  // ----- reclaim spacing

  /** Times at which an entry was handed to a worker, newest first. */
  function HandoutTimes(log: Log, id: StreamId): seq<nat> {
    match log
    case Start => []
    case Then(l, e) => if e.Handout? && e.id == id then [e.at] + HandoutTimes(l, id) else HandoutTimes(l, id)
  }

  /** Every reclaim of the run asks for at least this idle time. */
  predicate Patient(step: Step, theta: nat) {
    && (step.Reclaim? ==> theta <= step.minIdle)
    && (step.LegacyInspect? ==> theta <= step.minIdle)
  }

  /** Each handout but an entry's first was a reclaim with at least this threshold. */
  predicate PatientLog(log: Log, theta: nat) {
    log.Then? ==>
      && PatientLog(log.earlier, theta)
      && (log.event.Handout? ==> theta <= log.event.minIdle || LastHandout(log.earlier, log.event.id).None?)
  }

  ghost predicate PatientSystem(y: System, theta: nat) {
    && Inv(y) && PatientLog(y.log, theta)
    && (forall w :: PhaseOf(y, w).Claiming? ==> theta <= PhaseOf(y, w).minIdle)
  }

  lemma {:induction false} ClaimIsPatient(y: System, w: Worker, ids: seq<StreamId>, minIdle: nat, theta: nat)
    requires PatientLog(y.log, theta) && theta <= minIdle
    ensures PatientLog(DoClaim(y, w, ids, minIdle).log, theta) && DoClaim(y, w, ids, minIdle).phases == y.phases
    decreases ids
  {
    if ids != [] {
      ClaimIsPatient(DoClaimOne(y, w, ids[0], minIdle), w, ids[1..], minIdle, theta);
    }
  }

  lemma ReadIsPatient(y: System, w: Worker, count: nat, theta: nat)
    requires Inv(y) && !PhaseOf(y, w).Marking? && PatientLog(y.log, theta)
    ensures PatientLog(DoRead(y, w, count).log, theta) && DoRead(y, w, count).phases == y.phases
  {
    var P := (z: System) => Inv(z) && z.phases == y.phases && PatientLog(z.log, theta);
    forall z | P(z) && NextEntry(z.store, z.store.delivered + 1).Some?
      ensures P(DoDeliver(z, w, NextEntry(z.store, z.store.delivered + 1).value))
    {
      var id := NextEntry(z.store, z.store.delivered + 1).value;
      assert EntryInv(z, id) && Undelivered(z, id);
      UntouchedHasNoEvents(z.log, id);
      DeliverKeeps(z, w);
    }
    ReadInduction(P, y, w, count);
  }

  lemma StepIsPatient(y: System, step: Step, theta: nat)
    requires PatientSystem(y, theta) && Patient(step, theta)
    ensures PatientSystem(Next(y, step), theta)
  {
    StepKeeps(y, step);
    if Enabled(y, step) {
      match step
      case Read(w, count) => ReadIsPatient(y, w, count, theta);
      case Reclaim(w, minIdle, start, count) =>
        ClaimIsPatient(y, w, Scan(y.store, PendingFrom(y.store, start), 10 * count, count, minIdle).0, minIdle, theta);
      case LegacyClaim(w) => ClaimIsPatient(y, w, PhaseOf(y, w).candidates, PhaseOf(y, w).minIdle, theta);
      case _ =>
    }
    forall v | PhaseOf(Next(y, step), v).Claiming? ensures theta <= PhaseOf(Next(y, step), v).minIdle {
      assert PhaseOf(y, v).Claiming? ==> theta <= PhaseOf(y, v).minIdle;
    }
  }

  lemma {:induction false} RunIsPatient(y: System, steps: seq<Step>, theta: nat)
    requires PatientSystem(y, theta) && forall i :: 0 <= i < |steps| ==> Patient(steps[i], theta)
    ensures PatientSystem(Run(y, steps), theta)
    decreases steps
  {
    if steps != [] {
      assert Patient(steps[0], theta);
      StepIsPatient(y, steps[0], theta);
      RunIsPatient(Next(y, steps[0]), steps[1..], theta);
    }
  }

  lemma {:induction false} HandoutsApart(log: Log, id: StreamId, theta: nat, i: nat, j: nat)
    requires Sound(log) && PatientLog(log, theta)
    requires i < j < |HandoutTimes(log, id)|
    ensures HandoutTimes(log, id)[i] - HandoutTimes(log, id)[j] >= theta
  {
    var l := log.earlier;
    if log.event.Handout? && log.event.id == id {
      LastHandoutTime(l, id);
      if i == 0 {
        if j > 1 {
          HandoutsApart(l, id, theta, 0, j - 1);
        }
      } else {
        HandoutsApart(l, id, theta, i - 1, j - 1);
      }
    } else {
      HandoutsApart(l, id, theta, i, j);
    }
  }

  lemma {:induction false} LastHandoutTime(log: Log, id: StreamId)
    ensures HandoutTimes(log, id) == [] <==> LastHandout(log, id).None?
    ensures LastHandout(log, id).Some? ==> HandoutTimes(log, id)[0] == LastHandout(log, id).value.at
  {
    if log.Then? {
      LastHandoutTime(log.earlier, id);
    }
  }

  /** No entry is handed to two workers within one threshold period, whichever reclaim command they use and however
      stale a legacy worker's list has become between its XPENDING and its XCLAIM. */
  lemma NoTwoHandoutsWithinThreshold(ttl: nat, steps: seq<Step>, theta: nat, id: StreamId, i: nat, j: nat)
    requires forall k :: 0 <= k < |steps| ==> Patient(steps[k], theta)
    requires i < j < |HandoutTimes(Reached(ttl, steps).log, id)|
    ensures var times := HandoutTimes(Reached(ttl, steps).log, id);
      times[i] - times[j] >= theta
  {
    InitInv(ttl);
    RunIsPatient(Init(ttl), steps, theta);
    HandoutsApart(Reached(ttl, steps).log, id, theta, i, j);
  }

  // ----- the steps are the commands and methods of the queue object

  lemma {:induction false} ClaimStepIsXClaim(y: System, w: Worker, ids: seq<StreamId>, minIdle: nat)
    ensures DoClaim(y, w, ids, minIdle).store == ClaimAll(y.store, w, ids, minIdle).0
    decreases ids
  {
    if ids != [] {
      ClaimStepIsXClaim(DoClaimOne(y, w, ids[0], minIdle), w, ids[1..], minIdle);
    }
  }

  lemma {:induction false} ReadStepIsXReadGroup(y: System, w: Worker, count: nat)
    ensures DoRead(y, w, count).store == ReadNew(y.store, w, count).0
    decreases count
  {
    var next := NextEntry(y.store, y.store.delivered + 1);
    if count != 0 && next.Some? {
      ReadStepIsXReadGroup(DoDeliver(y, w, next.value), w, count - 1);
    }
  }

  /** What the class's methods do without interference is what the protocol's two halves do back to back. */
  lemma HalvesMakeTheMethods(y: System, w: Worker, id: StreamId, token: Token, outcome: Outcome, stamp: nat)
    requires PhaseOf(y, w).Ready? && id in y.accepted
    ensures GrantOf(y.log, token).None? ==>
      Next(Next(y, MarkGet(w, id)), MarkScript(w, token, stamp)).store
        == Marked(y.store, w, id, y.accepted[id], token, stamp, y.ttl)
    ensures (&& GrantOf(y.log, token).Some?
             && GrantOf(y.log, token).value.id == id && GrantOf(y.log, token).value.worker == w) ==>
      Next(Next(y, FinalGet(w, token, outcome, stamp)), FinalScript(w)).store
      == Finalized(y.store, Lease(id, y.accepted[id].job, w, token), outcome, stamp, y.ttl)
  {
  }
}
