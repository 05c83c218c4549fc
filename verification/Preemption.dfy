/** How long a worker keeps an entry it was handed (app/redis_stream_jobs.py:235-288, app/job_worker.py:139-174). */
module Preemption {
  import opened Options
  import opened JobQueue
  import H = History
  import opened JobQueueProtocol
  import opened JobQueueInvariant
  import opened JobQueueTheorems

  /** Still pending under the same owner since the same moment, or finished. */
  ghost predicate KeptOrDone(y: System, id: StreamId, held: Pending) {
    (id in y.store.pending && y.store.pending[id] == held) || (id in y.accepted && Final(y.log, id).Some?)
  }

  lemma {:induction false} ClaimLeavesBusyEntry(y: System, v: Worker, ids: seq<StreamId>, minIdle: nat, id: StreamId)
    requires id in y.store.pending && !Claimable(y.store, id, minIdle)
    ensures var z := DoClaim(y, v, ids, minIdle);
      id in z.store.pending && z.store.pending[id] == y.store.pending[id] && z.store.clock == y.store.clock
    decreases ids
  {
    if ids != [] {
      ClaimLeavesBusyEntry(DoClaimOne(y, v, ids[0], minIdle), v, ids[1..], minIdle, id);
    }
  }

  lemma ReadLeavesPending(y: System, v: Worker, count: nat, id: StreamId)
    requires Inv(y) && !PhaseOf(y, v).Marking? && id in y.store.pending
    ensures var z := DoRead(y, v, count);
      id in z.store.pending && z.store.pending[id] == y.store.pending[id]
  {
    var held := y.store.pending[id];
    var P := (z: System) => Inv(z) && !PhaseOf(z, v).Marking? && id in z.store.pending && z.store.pending[id] == held;
    forall z | P(z) && NextEntry(z.store, z.store.delivered + 1).Some?
      ensures P(DoDeliver(z, v, NextEntry(z.store, z.store.delivered + 1).value))
    {
      assert EntryInv(z, id);
      DeliverKeeps(z, v);
    }
    ReadInduction(P, y, v, count);
  }

  /** Steps that hand nothing out leave a pending entry with its owner, unless they finish it. */
  lemma OtherStepKeepsEntry(y: System, step: Step, id: StreamId)
    requires !step.Read? && !step.Reclaim? && !step.LegacyClaim? && id in y.store.pending && id in y.accepted
    ensures KeptOrDone(Next(y, step), id, y.store.pending[id])
  {
  }

  lemma StepKeepsEntry(y: System, step: Step, theta: nat, id: StreamId)
    requires PatientSystem(y, theta) && Patient(step, theta) && id in y.store.pending
    requires y.store.clock < y.store.pending[id].deliveredAt + theta
    ensures KeptOrDone(Next(y, step), id, y.store.pending[id])
  {
    assert id in y.accepted;
    if Enabled(y, step) {
      match step
      case Read(v, count) => ReadLeavesPending(y, v, count, id);
      case Reclaim(v, minIdle, start, count) =>
        ClaimLeavesBusyEntry(y, v, Scan(y.store, PendingFrom(y.store, start), 10 * count, count, minIdle).0, minIdle,
          id);
      case LegacyClaim(v) => ClaimLeavesBusyEntry(y, v, PhaseOf(y, v).candidates, PhaseOf(y, v).minIdle, id);
      case _ => OtherStepKeepsEntry(y, step, id);
    }
  }

  lemma {:induction false} ClaimKeepsClock(y: System, w: Worker, ids: seq<StreamId>, minIdle: nat)
    ensures DoClaim(y, w, ids, minIdle).store.clock == y.store.clock
    decreases ids
  {
    if ids != [] {
      ClaimKeepsClock(DoClaimOne(y, w, ids[0], minIdle), w, ids[1..], minIdle);
    }
  }

  lemma {:induction false} ReadKeepsClock(y: System, w: Worker, count: nat)
    ensures DoRead(y, w, count).store.clock == y.store.clock
    decreases count
  {
    var next := NextEntry(y.store, y.store.delivered + 1);
    if count != 0 && next.Some? {
      ReadKeepsClock(DoDeliver(y, w, next.value), w, count - 1);
    }
  }

  lemma {:induction false} ClockNeverGoesBack(y: System, steps: seq<Step>)
    ensures y.store.clock <= Run(y, steps).store.clock
    decreases steps
  {
    if steps != [] {
      if Enabled(y, steps[0]) {
        match steps[0]
        case Read(w, count) => ReadKeepsClock(y, w, count);
        case Reclaim(w, minIdle, start, count) =>
          ClaimKeepsClock(y, w, Scan(y.store, PendingFrom(y.store, start), 10 * count, count, minIdle).0, minIdle);
        case LegacyClaim(w) => ClaimKeepsClock(y, w, PhaseOf(y, w).candidates, PhaseOf(y, w).minIdle);
        case _ =>
      }
      ClockNeverGoesBack(Next(y, steps[0]), steps[1..]);
    }
  }

  lemma {:induction false} RunKeepsEntry(y: System, steps: seq<Step>, theta: nat, id: StreamId)
    requires PatientSystem(y, theta) && forall i :: 0 <= i < |steps| ==> Patient(steps[i], theta)
    requires id in y.store.pending
    requires Run(y, steps).store.clock < y.store.pending[id].deliveredAt + theta
    ensures KeptOrDone(Run(y, steps), id, y.store.pending[id])
    decreases steps
  {
    if steps != [] {
      var z := Next(y, steps[0]);
      assert Patient(steps[0], theta);
      ClockNeverGoesBack(y, steps);
      StepKeepsEntry(y, steps[0], theta, id);
      StepIsPatient(y, steps[0], theta);
      if id in z.store.pending && z.store.pending[id] == y.store.pending[id] {
        RunKeepsEntry(z, steps[1..], theta, id);
      } else {
        RunFreezes(z, steps[1..], id);
      }
    }
  }

  /** Nobody is pre-empted early: whatever all the workers do, an entry stays with the worker it was handed to, or is
      finished, until the reclaim threshold has passed. */
  lemma NotPreemptedWithinThreshold(ttl: nat, steps: seq<Step>, more: seq<Step>, theta: nat, id: StreamId)
    requires forall i :: 0 <= i < |steps| ==> Patient(steps[i], theta)
    requires forall i :: 0 <= i < |more| ==> Patient(more[i], theta)
    requires id in Reached(ttl, steps).store.pending
    requires Run(Reached(ttl, steps), more).store.clock < Reached(ttl, steps).store.pending[id].deliveredAt + theta
    ensures KeptOrDone(Run(Reached(ttl, steps), more), id, Reached(ttl, steps).store.pending[id])
  {
    InitInv(ttl);
    RunIsPatient(Init(ttl), steps, theta);
    RunKeepsEntry(Reached(ttl, steps), more, theta, id);
  }

  lemma {:induction false} RunAppends(y: System, steps: seq<Step>, more: seq<Step>)
    ensures Run(y, steps + more) == Run(Run(y, steps), more)
    decreases steps
  {
    if steps == [] {
      assert steps + more == more;
    } else {
      assert (steps + more)[1..] == steps[1..] + more;
      RunAppends(Next(y, steps[0]), steps[1..], more);
    }
  }

  /** So a worker that holds the entry's latest lease and is done before the threshold has passed does commit its
      result, unless the job record itself has expired. */
  lemma PromptWorkerCommits(
    ttl: nat, steps: seq<Step>, more: seq<Step>, theta: nat, token: Token, outcome: Outcome, stamp: nat)
    requires forall i :: 0 <= i < |steps| ==> Patient(steps[i], theta)
    requires forall i :: 0 <= i < |more| ==> Patient(more[i], theta)
    requires var y, z := Reached(ttl, steps), Run(Reached(ttl, steps), more);
      && GrantOf(z.log, token).Some?
      && var g := GrantOf(z.log, token).value;
      && PhaseOf(z, g.worker).Ready? && LastGrant(z.log, g.id) == Some(g) && Final(z.log, g.id).None?
      && Owns(y.store, g.worker, g.id)
      && z.store.clock < y.store.pending[g.id].deliveredAt + theta
      && g.id in z.accepted && Get(z.store, z.accepted[g.id].job).Some?
    ensures var z := Run(Reached(ttl, steps), more);
      var g := GrantOf(z.log, token).value;
      Run(z, [FinalGet(g.worker, token, outcome, stamp), FinalScript(g.worker)]).log
      == H.Then(z.log, Commit(g.id, token, outcome, stamp, Finished(g.record, g.worker, outcome, stamp)))
  {
    var z := Run(Reached(ttl, steps), more);
    var g := GrantOf(z.log, token).value;
    NotPreemptedWithinThreshold(ttl, steps, more, theta, g.id);
    RunAppends(Init(ttl), steps, more);
    LeaseCommitsExactlyWhen(ttl, steps + more, token, outcome, stamp);
  }

  /** A reclaim that starts at an overdue entry and asks for one takes just that. */
  lemma ReclaimTakesIt(y: System, v: Worker, theta: nat, id: StreamId)
    requires Inv(y) && PhaseOf(y, v).Ready? && id in y.store.pending && Claimable(y.store, id, theta)
    ensures Next(y, Reclaim(v, theta, id, 1)) == DoClaimOne(y, v, id, theta)
  {
    assert EntryInv(y, id);
    OneIsEnough(y.store, PendingFrom(y.store, id), theta);
    assert DoClaim(y, v, [id], theta) == DoClaim(DoClaimOne(y, v, id, theta), v, [], theta);
  }

  /** And the threshold is sharp: a worker that reclaims from an entry on takes it exactly when it has been idle that
      long. */
  lemma TakenExactlyWhenIdle(y: System, v: Worker, theta: nat, id: StreamId)
    requires Inv(y) && PhaseOf(y, v).Ready? && id in y.store.pending && y.store.pending[id].owner != v
    ensures Owns(Next(y, Reclaim(v, theta, id, 1)).store, v, id)
      <==> y.store.pending[id].deliveredAt + theta <= y.store.clock
  {
    if Claimable(y.store, id, theta) {
      ReclaimTakesIt(y, v, theta, id);
    } else {
      ClaimLeavesBusyEntry(y, v, Scan(y.store, PendingFrom(y.store, id), 10, 1, theta).0, theta, id);
    }
  }

  lemma OneIsEnough(s: Store, pel: seq<StreamId>, minIdle: nat)
    requires pel != [] && Claimable(s, pel[0], minIdle)
    ensures Scan(s, pel, 10, 1, minIdle).0 == [pel[0]]
  {
    assert Scan(s, pel[1..], 9, 0, minIdle).0 == [];
  }
}
