/** What the job records say in every state that a run of the protocol reaches. */
module JobResults {
  import opened Options
  import opened JobQueue
  import opened JobRecords
  import opened JobQueueProtocol
  import opened JobQueueInvariant
  import opened JobQueueTheorems

  /** The latest lease of every entry was written for that entry, and holds no answer. */
  ghost predicate LeasesMatch(y: System) {
    forall id :: id in y.accepted && LastGrant(y.log, id).Some? ==>
      var g := LastGrant(y.log, id).value;
      Leasing(g.record, y.accepted[id], g.worker, g.token)
  }

  /** No lease was granted in between. */
  ghost predicate SameLeases(y: System, z: System) {
    z.accepted == y.accepted && forall id :: LastGrant(z.log, id) == LastGrant(y.log, id)
  }

  lemma SameLeasesMatch(y: System, z: System)
    requires LeasesMatch(y) && SameLeases(y, z)
    ensures LeasesMatch(z)
  {
    forall id | id in z.accepted && LastGrant(z.log, id).Some?
      ensures Leasing(LastGrant(z.log, id).value.record, z.accepted[id], LastGrant(z.log, id).value.worker,
                      LastGrant(z.log, id).value.token)
    {
      assert LastGrant(z.log, id) == LastGrant(y.log, id);
    }
  }

  lemma {:induction false} ClaimGrantsNothing(y: System, w: Worker, ids: seq<StreamId>, minIdle: nat)
    ensures SameLeases(y, DoClaim(y, w, ids, minIdle))
    decreases ids
  {
    if ids != [] {
      ClaimGrantsNothing(DoClaimOne(y, w, ids[0], minIdle), w, ids[1..], minIdle);
    }
  }

  lemma ReadGrantsNothing(y: System, w: Worker, count: nat)
    ensures SameLeases(y, DoRead(y, w, count))
  {
    ReadInduction((z: System) => SameLeases(y, z), y, w, count);
  }

  lemma EnqueueMatches(y: System, job: JobId, payload: Payload, stamp: nat)
    requires Inv(y) && LeasesMatch(y)
    ensures LeasesMatch(DoEnqueue(y, job, payload, stamp))
  {
    var id := y.store.lastId + 1;
    assert id !in y.accepted;
    UntouchedHasNoEvents(y.log, id);
  }

  lemma MarkMatches(y: System, w: Worker, token: Token, stamp: nat)
    requires Inv(y) && LeasesMatch(y) && Enabled(y, MarkScript(w, token, stamp))
    ensures LeasesMatch(DoMarkScript(y, w, token, stamp))
  {
    var Marking(id, read) := PhaseOf(y, w);
    var z := DoMarkScript(y, w, token, stamp);
    if Owns(y.store, w, id) {
      assert WorkerInv(y, w) && EntryInv(y, id);
      assert Leasing(LastGrant(z.log, id).value.record, y.accepted[id], w, token);
      forall other | other in z.accepted && other != id ensures LastGrant(z.log, other) == LastGrant(y.log, other) {
      }
    } else {
      SameLeasesMatch(y, z);
    }
  }

  lemma StepMatches(y: System, step: Step)
    requires Inv(y) && LeasesMatch(y)
    ensures LeasesMatch(Next(y, step))
  {
    if Enabled(y, step) {
      match step
      case Enqueue(job, payload, stamp) => EnqueueMatches(y, job, payload, stamp);
      case Read(w, count) =>
        ReadGrantsNothing(y, w, count);
        SameLeasesMatch(y, Next(y, step));
      case Reclaim(w, minIdle, start, count) =>
        ClaimGrantsNothing(y, w, Scan(y.store, PendingFrom(y.store, start), 10 * count, count, minIdle).0, minIdle);
        SameLeasesMatch(y, Next(y, step));
      case LegacyClaim(w) =>
        ClaimGrantsNothing(y, w, PhaseOf(y, w).candidates, PhaseOf(y, w).minIdle);
        SameLeasesMatch(y, Next(y, step));
      case MarkScript(w, token, stamp) => MarkMatches(y, w, token, stamp);
      case _ => SameLeasesMatch(y, Next(y, step));
    }
  }

  lemma {:induction false} RunMatches(y: System, steps: seq<Step>)
    requires Inv(y) && LeasesMatch(y)
    ensures LeasesMatch(Run(y, steps))
    decreases steps
  {
    if steps != [] {
      StepKeeps(y, steps[0]);
      StepMatches(y, steps[0]);
      RunMatches(Next(y, steps[0]), steps[1..]);
    }
  }

  lemma ReachedMatches(ttl: nat, steps: seq<Step>)
    ensures LeasesMatch(Reached(ttl, steps))
  {
    InitInv(ttl);
    RunMatches(Init(ttl), steps);
  }

  /** After any run the record of a finalised entry is about that entry's job and holds the answer that was committed,
      from the worker with the latest lease, as long as it has not expired. */
  lemma TerminalRecordAnswers(ttl: nat, steps: seq<Step>, id: StreamId)
    requires Final(Reached(ttl, steps).log, id).Some?
    ensures var y := Reached(ttl, steps);
      var c := Final(y.log, id).value;
      && id in y.accepted && LastGrant(y.log, id).Some?
      && c.record.job == y.accepted[id].job && c.record.createdAt == y.accepted[id].createdAt
      && Answers(c.record, c.outcome, LastGrant(y.log, id).value.worker, c.stamp)
      && c.record.attempts == LeasesSinceCreation(y.log, id)
      && (Get(y.store, y.accepted[id].job).Some? ==> Get(y.store, y.accepted[id].job).value == c.record)
  {
    var y := Reached(ttl, steps);
    FinalRecordExtendsLatestLease(ttl, steps, id);
    TerminalRecordNeverChanges(ttl, steps, [], id);
    ReachedMatches(ttl, steps);
  }

  /** And the record of an entry that is not is waiting, or is its latest lease's, with no answer yet. */
  lemma OpenRecordWaitsOrRuns(ttl: nat, steps: seq<Step>, id: StreamId)
    requires var y := Reached(ttl, steps);
      id in y.accepted && Final(y.log, id).None? && Get(y.store, y.accepted[id].job).Some?
    ensures var y := Reached(ttl, steps);
      var r, entry := Get(y.store, y.accepted[id].job).value, y.accepted[id];
      if LastGrant(y.log, id).None? then Waiting(r, entry.job, entry.createdAt)
      else
        && Leasing(r, entry, LastGrant(y.log, id).value.worker, LastGrant(y.log, id).value.token)
        && r.attempts == LeasesSinceCreation(y.log, id)
  {
    var y := Reached(ttl, steps);
    ReachedInv(ttl, steps);
    ReachedMatches(ttl, steps);
    assert EntryInv(y, id);
    LastGrantCounts(y.log, id);
  }
}
