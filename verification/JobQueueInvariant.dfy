/** Every step of the job queue protocol keeps the invariant. */
module JobQueueInvariant {
  import opened Options
  import opened JobQueue
  import H = History
  import opened JobQueueProtocol

  // ----- facts about histories

  lemma {:induction false} UntouchedHasNoEvents(log: Log, id: StreamId)
    requires Untouched(log, id)
    ensures LastGrant(log, id).None? && LastHandout(log, id).None? && Final(log, id).None?
    ensures LeasesSinceCreation(log, id) == 0
  {
    if log.Then? {
      UntouchedHasNoEvents(log.earlier, id);
    }
  }

  /** The last grant of an entry carries the number of leases since its record was created, and its own token. */
  lemma {:induction false} LastGrantCounts(log: Log, id: StreamId)
    requires Sound(log)
    ensures LastGrant(log, id).None? ==> LeasesSinceCreation(log, id) == 0
    ensures LastGrant(log, id).Some? ==>
      var g := LastGrant(log, id).value;
      && g.record.attempts == LeasesSinceCreation(log, id)
      && g.record.token == Some(g.token) && g.record.worker == Some(g.worker) && g.record.status.Running?
      && GrantOf(log, g.token) == Some(g)
  {
    if log.Then? {
      LastGrantCounts(log.earlier, id);
    }
  }

  // ----- one entry under the single-entry steps

  /** What a step leaves alone leaves an entry's invariant alone. */
  lemma EntryFrame(y: System, z: System, id: StreamId)
    requires id in y.accepted && EntryInv(y, id)
    requires id in z.accepted && z.accepted[id] == y.accepted[id]
    requires id in z.store.stream <==> id in y.store.stream
    requires id in z.store.stream ==> z.store.stream[id] == y.store.stream[id]
    requires id in z.store.pending <==> id in y.store.pending
    requires id in z.store.pending ==> z.store.pending[id] == y.store.pending[id]
    requires id <= z.store.delivered <==> id <= y.store.delivered
    requires y.store.lastId <= z.store.lastId && y.store.clock <= z.store.clock
    requires Get(z.store, y.accepted[id].job).Some? ==>
      Get(z.store, y.accepted[id].job) == Get(y.store, y.accepted[id].job)
    requires z.log == y.log || (z.log.Then? && z.log.earlier == y.log && z.log.event.id != id)
    ensures EntryInv(z, id)
  {
  }

  predicate LogFrame(y: System, z: System, id: StreamId) {
    z.log == y.log || (z.log.Then? && z.log.earlier == y.log && (z.log.event.id != id || z.log.event.Handout?))
  }

  lemma WorkerFrame(y: System, z: System, w: Worker)
    requires WorkerInv(y, w)
    requires PhaseOf(z, w) == PhaseOf(y, w)
    requires forall id :: id in y.accepted ==> id in z.accepted && z.accepted[id] == y.accepted[id]
    requires PhaseOf(y, w).Marking? && Owns(z.store, w, PhaseOf(y, w).id) ==>
      var id := PhaseOf(y, w).id;
      && Owns(y.store, w, id)
      && LogFrame(y, z, id)
      && (Get(z.store, y.accepted[id].job).Some? ==>
        Get(z.store, y.accepted[id].job) == Get(y.store, y.accepted[id].job))
    requires z.log == y.log || (z.log.Then? && z.log.earlier == y.log
      && (z.log.event.Grant? ==> GrantOf(y.log, z.log.event.token).None?))
    ensures WorkerInv(z, w)
  {
  }

  /** A log entry about an accepted entry keeps the global part, provided the entry allows it. */
  lemma GlobalFrame(y: System, z: System)
    requires Global(y)
    requires z.accepted == y.accepted && z.store.lastId == y.store.lastId && z.store.delivered <= z.store.lastId
    requires z.store.stream.Keys <= y.store.stream.Keys && z.store.pending.Keys <= y.accepted.Keys
    requires z.log == y.log || (z.log.Then? && z.log.earlier == y.log && z.log.event.id in y.accepted
                                && Final(y.log, z.log.event.id).None? && SoundEvent(y.log, z.log.event))
    ensures Global(z)
  {
    assert forall id :: id in z.store.pending ==> id in z.store.pending.Keys;
    assert forall id :: id in z.store.stream ==> id in z.store.stream.Keys;
  }

  // ----- enqueue

  lemma EnqueueKeepsGlobal(y: System, job: JobId, payload: Payload, stamp: nat)
    requires Global(y) && FreshJob(y, job)
    ensures Global(DoEnqueue(y, job, payload, stamp))
  {
    var z := DoEnqueue(y, job, payload, stamp);
    assert forall id :: id in z.accepted <==> id in y.accepted || id == y.store.lastId + 1;
  }

  lemma EnqueuedEntry(y: System, job: JobId, payload: Payload, stamp: nat)
    requires Inv(y) && FreshJob(y, job)
    ensures EntryInv(DoEnqueue(y, job, payload, stamp), y.store.lastId + 1)
  {
    var id := y.store.lastId + 1;
    assert id !in y.accepted && id !in y.store.pending;
    assert Untouched(y.log, id);
    UntouchedHasNoEvents(y.log, id);
  }

  lemma EnqueueKeeps(y: System, job: JobId, payload: Payload, stamp: nat)
    requires Inv(y) && FreshJob(y, job)
    ensures Inv(DoEnqueue(y, job, payload, stamp))
  {
    var z := DoEnqueue(y, job, payload, stamp);
    EnqueueKeepsGlobal(y, job, payload, stamp);
    EnqueuedEntry(y, job, payload, stamp);
    forall id | id in y.accepted ensures EntryInv(z, id) {
      EntryFrame(y, z, id);
    }
    forall w ensures WorkerInv(z, w) {
      WorkerFrame(y, z, w);
    }
  }

  lemma TickKeeps(y: System, ms: nat)
    requires Inv(y)
    ensures Inv(DoTick(y, ms))
  {
    var z := DoTick(y, ms);
    GlobalFrame(y, z);
    forall id | id in z.accepted ensures EntryInv(z, id) {
      EntryFrame(y, z, id);
    }
    forall w ensures WorkerInv(z, w) {
      WorkerFrame(y, z, w);
    }
  }

  /** Changing one worker's phase, with that worker's invariant shown. */
  lemma PhaseKeeps(y: System, w: Worker, phase: Phase)
    requires Inv(y) && WorkerInv(At(y, w, phase), w)
    ensures Inv(At(y, w, phase))
  {
    var z := At(y, w, phase);
    GlobalFrame(y, z);
    forall id | id in z.accepted ensures EntryInv(z, id) {
      EntryFrame(y, z, id);
    }
    forall v ensures WorkerInv(z, v) {
      if v != w {
        WorkerFrame(y, z, v);
      }
    }
  }

  // ----- handing entries to workers

  lemma DeliverKeeps(y: System, w: Worker)
    requires Inv(y) && !PhaseOf(y, w).Marking?
    requires NextEntry(y.store, y.store.delivered + 1).Some?
    ensures Inv(DoDeliver(y, w, NextEntry(y.store, y.store.delivered + 1).value))
  {
    var id := NextEntry(y.store, y.store.delivered + 1).value;
    var z := DoDeliver(y, w, id);
    assert Global(z) by { DeliverKeepsGlobal(y, w); }
    forall other | other in z.accepted ensures EntryInv(z, other) {
      DeliverKeepsEntry(y, w, other);
    }
    forall v ensures WorkerInv(z, v) {
      DeliverKeepsWorker(y, w, v);
    }
  }

  lemma DeliverKeepsGlobal(y: System, w: Worker)
    requires Inv(y) && NextEntry(y.store, y.store.delivered + 1).Some?
    ensures Global(DoDeliver(y, w, NextEntry(y.store, y.store.delivered + 1).value))
  {
    var id := NextEntry(y.store, y.store.delivered + 1).value;
    assert id in y.accepted && EntryInv(y, id) && Undelivered(y, id);
    UntouchedHasNoEvents(y.log, id);
    GlobalFrame(y, DoDeliver(y, w, id));
  }

  lemma DeliverKeepsWorker(y: System, w: Worker, v: Worker)
    requires Inv(y) && !PhaseOf(y, w).Marking? && NextEntry(y.store, y.store.delivered + 1).Some?
    ensures WorkerInv(DoDeliver(y, w, NextEntry(y.store, y.store.delivered + 1).value), v)
  {
    var id := NextEntry(y.store, y.store.delivered + 1).value;
    assert id in y.accepted && EntryInv(y, id) && WorkerInv(y, v);
    WorkerFrame(y, DoDeliver(y, w, id), v);
  }

  lemma DeliverKeepsEntry(y: System, w: Worker, other: StreamId)
    requires Inv(y) && other in y.accepted
    requires NextEntry(y.store, y.store.delivered + 1).Some?
    ensures EntryInv(DoDeliver(y, w, NextEntry(y.store, y.store.delivered + 1).value), other)
  {
    var id := NextEntry(y.store, y.store.delivered + 1).value;
    assert EntryInv(y, other) && EntryInv(y, id) && Undelivered(y, id);
    UntouchedHasNoEvents(y.log, id);
    if other != id {
      if y.store.delivered < other < id && other in y.store.stream {
        NextEntryIsFirst(y.store, y.store.delivered + 1, other);
      }
      EntryFrame(y, DoDeliver(y, w, id), other);
    }
  }

  lemma ClaimOneKeepsEntry(y: System, w: Worker, id: StreamId, minIdle: nat, other: StreamId)
    requires Inv(y) && Claimable(y.store, id, minIdle) && other in y.accepted
    ensures EntryInv(DoClaimOne(y, w, id, minIdle), other)
  {
    assert EntryInv(y, other);
    if other != id {
      EntryFrame(y, DoClaimOne(y, w, id, minIdle), other);
    }
  }

  lemma ClaimOneKeeps(y: System, w: Worker, id: StreamId, minIdle: nat)
    requires Inv(y) && !PhaseOf(y, w).Marking?
    ensures Inv(DoClaimOne(y, w, id, minIdle))
  {
    if Claimable(y.store, id, minIdle) {
      var z := DoClaimOne(y, w, id, minIdle);
      assert EntryInv(y, id);
      GlobalFrame(y, z);
      forall other | other in z.accepted ensures EntryInv(z, other) {
        ClaimOneKeepsEntry(y, w, id, minIdle, other);
      }
      forall v ensures WorkerInv(z, v) {
        WorkerFrame(y, z, v);
      }
    }
  }

  /** What every single delivery keeps, a read of many entries keeps. */
  lemma {:induction false} ReadInduction(P: System -> bool, y: System, w: Worker, count: nat)
    requires P(y)
    requires forall z :: P(z) && NextEntry(z.store, z.store.delivered + 1).Some? ==>
      P(DoDeliver(z, w, NextEntry(z.store, z.store.delivered + 1).value))
    ensures P(DoRead(y, w, count))
    decreases count
  {
    var next := NextEntry(y.store, y.store.delivered + 1);
    if count != 0 && next.Some? {
      ReadInduction(P, DoDeliver(y, w, next.value), w, count - 1);
    }
  }

  lemma ReadKeeps(y: System, w: Worker, count: nat)
    requires Inv(y) && !PhaseOf(y, w).Marking?
    ensures Inv(DoRead(y, w, count))
  {
    var P := z => Inv(z) && !PhaseOf(z, w).Marking?;
    forall z | P(z) && NextEntry(z.store, z.store.delivered + 1).Some?
      ensures P(DoDeliver(z, w, NextEntry(z.store, z.store.delivered + 1).value))
    {
      DeliverKeeps(z, w);
    }
    ReadInduction(P, y, w, count);
  }

  lemma {:induction false} ClaimKeeps(y: System, w: Worker, ids: seq<StreamId>, minIdle: nat)
    requires Inv(y) && !PhaseOf(y, w).Marking?
    ensures Inv(DoClaim(y, w, ids, minIdle)) && DoClaim(y, w, ids, minIdle).phases == y.phases
    decreases ids
  {
    if ids != [] {
      ClaimOneKeeps(y, w, ids[0], minIdle);
      ClaimKeeps(DoClaimOne(y, w, ids[0], minIdle), w, ids[1..], minIdle);
    }
  }

  // ----- the two halves of mark_running

  lemma MarkGetKeeps(y: System, w: Worker, id: StreamId)
    requires Inv(y) && id in y.accepted
    ensures Inv(DoMarkGet(y, w, id))
  {
    assert EntryInv(y, id);
    PhaseKeeps(y, w, Marking(id, Get(y.store, y.accepted[id].job)));
  }

  /** A worker about to run the ownership script as the owner holds exactly what the key holds, or the key expired. */
  lemma MarkReadIsCurrent(y: System, w: Worker)
    requires Inv(y) && PhaseOf(y, w).Marking? && Owns(y.store, w, PhaseOf(y, w).id)
    ensures var Marking(id, read) := PhaseOf(y, w);
      && id in y.accepted
      && (Get(y.store, y.accepted[id].job).Some? ==> Get(y.store, y.accepted[id].job) == read)
      && (read.Some? ==> read.value.attempts == LeasesSinceCreation(y.log, id))
  {
    var Marking(id, read) := PhaseOf(y, w);
    assert WorkerInv(y, w) && EntryInv(y, id);
    LastGrantCounts(y.log, id);
  }

  lemma MarkScriptKeepsEntry(y: System, w: Worker, token: Token, stamp: nat, other: StreamId)
    requires Inv(y) && Enabled(y, MarkScript(w, token, stamp))
    requires Owns(y.store, w, PhaseOf(y, w).id) && other in y.accepted
    ensures EntryInv(DoMarkScript(y, w, token, stamp), other)
  {
    assert EntryInv(y, other);
    if other != PhaseOf(y, w).id {
      EntryFrame(y, DoMarkScript(y, w, token, stamp), other);
    }
  }

  lemma MarkScriptKeepsWorker(y: System, w: Worker, token: Token, stamp: nat, v: Worker)
    requires Inv(y) && Enabled(y, MarkScript(w, token, stamp))
    requires Owns(y.store, w, PhaseOf(y, w).id)
    ensures WorkerInv(DoMarkScript(y, w, token, stamp), v)
  {
    assert WorkerInv(y, v);
    if v != w {
      WorkerFrame(y, DoMarkScript(y, w, token, stamp), v);
    }
  }

  lemma MarkScriptKeepsGlobal(y: System, w: Worker, token: Token, stamp: nat)
    requires Inv(y) && Enabled(y, MarkScript(w, token, stamp))
    requires Owns(y.store, w, PhaseOf(y, w).id)
    ensures Global(DoMarkScript(y, w, token, stamp))
  {
    assert EntryInv(y, PhaseOf(y, w).id);
    MarkReadIsCurrent(y, w);
    GlobalFrame(y, DoMarkScript(y, w, token, stamp));
  }

  lemma MarkScriptKeeps(y: System, w: Worker, token: Token, stamp: nat)
    requires Inv(y) && Enabled(y, MarkScript(w, token, stamp))
    ensures Inv(DoMarkScript(y, w, token, stamp))
  {
    if Owns(y.store, w, PhaseOf(y, w).id) {
      var z := DoMarkScript(y, w, token, stamp);
      MarkScriptKeepsGlobal(y, w, token, stamp);
      forall other | other in z.accepted ensures EntryInv(z, other) {
        MarkScriptKeepsEntry(y, w, token, stamp, other);
      }
      forall v ensures WorkerInv(z, v) {
        MarkScriptKeepsWorker(y, w, token, stamp, v);
      }
    } else {
      PhaseKeeps(y, w, Ready);
    }
  }

  // ----- the two halves of complete and fail

  lemma FinalGetKeeps(y: System, w: Worker, token: Token, outcome: Outcome, stamp: nat)
    requires Inv(y) && Enabled(y, FinalGet(w, token, outcome, stamp))
    ensures Inv(DoFinalGet(y, w, token, outcome, stamp))
  {
    var z := DoFinalGet(y, w, token, outcome, stamp);
    if z != y {
      var id := GrantOf(y.log, token).value.id;
      assert EntryInv(y, id);
      RecordWithToken(y, id, token);
      PhaseKeeps(y, w, PhaseOf(z, w));
    }
  }

  /** A key that holds a token holds the record written with the last grant, which is the grant of that token. */
  lemma RecordWithToken(y: System, id: StreamId, token: Token)
    requires Inv(y) && id in y.accepted
    requires Get(y.store, y.accepted[id].job).Some?
    requires Get(y.store, y.accepted[id].job).value.token == Some(token)
    ensures Final(y.log, id).None? && LastGrant(y.log, id).Some? && LastGrant(y.log, id) == GrantOf(y.log, token)
    ensures Get(y.store, y.accepted[id].job).value == LastGrant(y.log, id).value.record
  {
    assert EntryInv(y, id);
    LastGrantCounts(y.log, id);
    FinalHasNoToken(y.log, id);
  }

  lemma {:induction false} FinalHasNoToken(log: Log, id: StreamId)
    requires Sound(log)
    ensures Final(log, id).Some? ==> Final(log, id).value.record.token.None? && Final(log, id).value.record.Terminal()
  {
    if log.Then? {
      FinalHasNoToken(log.earlier, id);
    }
  }

  lemma FinalScriptKeepsGlobal(y: System, w: Worker)
    requires Inv(y) && PhaseOf(y, w).Finalizing? && CanFinalize(y.store, PhaseOf(y, w).lease)
    ensures Global(DoFinalScript(y, w))
  {
    var z := DoFinalScript(y, w);
    var Finalizing(lease, record, outcome, stamp) := PhaseOf(y, w);
    assert WorkerInv(y, w) && EntryInv(y, lease.id);
    RecordWithToken(y, lease.id, lease.token);
    LastGrantCounts(y.log, lease.id);
    assert z.log == H.Then(y.log, Commit(lease.id, lease.token, outcome, stamp, record));
    assert LastGrant(y.log, lease.id).value.worker == w;
    assert SoundEvent(y.log, z.log.event);
    GlobalFrame(y, z);
  }

  lemma FinalScriptKeepsEntry(y: System, w: Worker, other: StreamId)
    requires Inv(y) && PhaseOf(y, w).Finalizing? && CanFinalize(y.store, PhaseOf(y, w).lease)
    requires other in y.accepted
    ensures EntryInv(DoFinalScript(y, w), other)
  {
    assert EntryInv(y, other) && WorkerInv(y, w);
    if other != PhaseOf(y, w).lease.id {
      EntryFrame(y, DoFinalScript(y, w), other);
    }
  }

  lemma FinalScriptKeepsWorker(y: System, w: Worker, v: Worker)
    requires Inv(y) && PhaseOf(y, w).Finalizing? && CanFinalize(y.store, PhaseOf(y, w).lease)
    ensures WorkerInv(DoFinalScript(y, w), v)
  {
    assert WorkerInv(y, v) && WorkerInv(y, w);
    if v != w {
      WorkerFrame(y, DoFinalScript(y, w), v);
    }
  }

  lemma FinalScriptKeeps(y: System, w: Worker)
    requires Inv(y) && PhaseOf(y, w).Finalizing?
    ensures Inv(DoFinalScript(y, w))
  {
    if CanFinalize(y.store, PhaseOf(y, w).lease) {
      var z := DoFinalScript(y, w);
      FinalScriptKeepsGlobal(y, w);
      forall other | other in z.accepted ensures EntryInv(z, other) {
        FinalScriptKeepsEntry(y, w, other);
      }
      forall v ensures WorkerInv(z, v) {
        FinalScriptKeepsWorker(y, w, v);
      }
    } else {
      PhaseKeeps(y, w, Ready);
    }
  }

  // ----- every step, every run

  lemma InitInv(ttl: nat)
    ensures Inv(Init(ttl))
  {
  }

  lemma StepKeeps(y: System, step: Step)
    requires Inv(y)
    ensures Inv(Next(y, step))
  {
    if Enabled(y, step) {
      match step
      case Enqueue(job, payload, stamp) => EnqueueKeeps(y, job, payload, stamp);
      case Tick(ms) => TickKeeps(y, ms);
      case Read(w, count) => ReadKeeps(y, w, count);
      case Reclaim(w, minIdle, start, count) =>
        ClaimKeeps(y, w, Scan(y.store, PendingFrom(y.store, start), 10 * count, count, minIdle).0, minIdle);
      case LegacyInspect(w, minIdle, start, count) =>
        PhaseKeeps(y, w, Claiming(IdleOnly(y.store, LegacyListed(y.store, start, count), minIdle), minIdle));
      case LegacyClaim(w) =>
        ClaimKeeps(y, w, PhaseOf(y, w).candidates, PhaseOf(y, w).minIdle);
        PhaseKeeps(DoClaim(y, w, PhaseOf(y, w).candidates, PhaseOf(y, w).minIdle), w, Ready);
      case MarkGet(w, id) => MarkGetKeeps(y, w, id);
      case MarkScript(w, token, stamp) => MarkScriptKeeps(y, w, token, stamp);
      case FinalGet(w, token, outcome, stamp) => FinalGetKeeps(y, w, token, outcome, stamp);
      case FinalScript(w) => FinalScriptKeeps(y, w);
      case Crash(w) => PhaseKeeps(y, w, Ready);
    }
  }

  lemma {:induction false} RunKeeps(y: System, steps: seq<Step>)
    requires Inv(y)
    ensures Inv(Run(y, steps))
    decreases steps
  {
    if steps != [] {
      StepKeeps(y, steps[0]);
      RunKeeps(Next(y, steps[0]), steps[1..]);
    }
  }
}
