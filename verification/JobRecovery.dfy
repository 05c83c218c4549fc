/** After any run of the protocol, however many workers died in it, one healthy worker that is left alone: when it
    empties the stream (app/redis_stream_jobs.py:153-502, app/job_worker.py:78-130). */
module JobRecovery {
  import opened JobQueue
  import P = JobQueueProtocol
  import Q = JobQueueTheorems
  import W = JobWorker
  import R = JobRound
  import D = JobDrain

  lemma InvIsCalm(y: P.System)
    requires P.Inv(y)
    ensures R.Calm(y.store)
  {
    forall id | id in y.store.stream || id in y.store.pending
      ensures id in y.store.stream && 0 < id <= y.store.lastId && (id in y.store.pending <==> id <= y.store.delivered)
      ensures id in y.store.pending ==> y.store.pending[id].deliveredAt <= y.store.clock
      ensures id in y.accepted && y.store.stream[id] == y.accepted[id]
    {
      assert id in y.accepted && P.EntryInv(y, id);
    }
  }

  /** Every store that the protocol reaches is calm. */
  lemma ReachedIsCalm(ttl: nat, steps: seq<P.Step>)
    ensures R.Calm(Q.Reached(ttl, steps).store)
  {
    Q.ReachedInv(ttl, steps);
    InvIsCalm(Q.Reached(ttl, steps));
  }

  /** So the condition for draining applies to every reachable store, once what is pending there is overdue. */
  lemma ReachedDrainsExactlyWhen(
      ttl: nat, steps: seq<P.Step>, cfg: W.Config, cursor: StreamId, envs: seq<D.Env>, patient: seq<D.Env>)
    requires cfg.Valid() && D.Overdue(Q.Reached(ttl, steps).store, cfg) && D.AllBrisk(envs, cfg)
      && D.AllBrisk(patient, cfg)
    requires D.PausesPast(patient, cfg) && |Q.Reached(ttl, steps).store.stream| < |patient|
    ensures R.Calm(Q.Reached(ttl, steps).store)
    ensures var s := Q.Reached(ttl, steps).store;
      D.After(s, cfg, cursor, envs + patient).0.stream == map[] <==> D.Drainable(D.LoadOf(s, cursor), cfg.batch)
  {
    ReachedIsCalm(ttl, steps);
    D.DrainsInTheEndExactlyWhen(Q.Reached(ttl, steps).store, cfg, cursor, envs, patient);
  }
}
