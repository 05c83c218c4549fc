/** What a job record says at each point of its life (app/redis_stream_jobs.py:153-189, 362-463), field by field. */
module JobRecords {
  import opened Options
  import opened JobQueue

  /** Nobody has taken the job on yet. */
  predicate Waiting(r: Record, job: JobId, createdAt: nat) {
    && r.job == job && r.createdAt == createdAt && r.updatedAt == createdAt
    && r.status.Queued? && r.attempts == 0
    && r.worker.None? && r.token.None? && r.result.None? && r.failure.None?
  }

  /** A worker holds a lease of the job, and there is no answer. */
  predicate Leasing(r: Record, entry: Entry, w: Worker, token: Token) {
    && r.job == entry.job && r.createdAt == entry.createdAt
    && r.status.Running? && r.worker == Some(w) && r.token == Some(token)
    && r.result.None? && r.failure.None?
  }

  /** The record holds this answer, given by this worker at this time, and no lease. */
  predicate Answers(r: Record, outcome: Outcome, w: Worker, stamp: nat) {
    && r.updatedAt == stamp && r.worker == Some(w) && r.token.None?
    && (outcome.Completed? ==> r.status.Succeeded? && r.result == Some(outcome.result) && r.failure.None?)
    && (outcome.Errored? ==>
          && r.status.Failed? && r.result.None? && r.failure.Some?
          && r.failure.value.errorType == outcome.errorType
          && |r.failure.value.message| == (if |outcome.message| <= 1000 then |outcome.message| else 1000)
          && r.failure.value.message <= outcome.message)
  }

  /** `enqueue` leaves a waiting record that lives for the time to live, and the payload as the newest entry. */
  lemma EnqueueStores(s: Store, job: JobId, payload: Payload, stamp: nat, ttl: nat)
    ensures var t := Enqueued(s, job, payload, stamp, ttl);
      && Get(t, job).Some? && Waiting(Get(t, job).value, job, stamp) && t.jobs[job].expiresAt == s.clock + ttl
      && t.lastId == s.lastId + 1 && t.lastId in t.stream && t.stream[t.lastId] == Entry(job, payload, stamp)
      && (forall id :: id in s.stream && id != t.lastId ==> id in t.stream && t.stream[id] == s.stream[id])
      && (forall other :: other != job ==> Get(t, other) == Get(s, other))
      && t.pending == s.pending && t.delivered == s.delivered
  {
  }

  /** `mark_running` of an owned entry counts one attempt more than the record it found, or the first when it found
      none, and keeps everything else the record said about its job; for an entry it does not own it changes nothing. */
  lemma MarkStores(s: Store, w: Worker, id: StreamId, entry: Entry, token: Token, stamp: nat, ttl: nat)
    ensures var t, found := Marked(s, w, id, entry, token, stamp, ttl), Get(s, entry.job);
      if !Owns(s, w, id) then t == s
      else
        && t == s.(jobs := t.jobs) && Get(t, entry.job).Some? && t.jobs[entry.job].expiresAt == s.clock + ttl
        && (forall job :: job != entry.job ==> Get(t, job) == Get(s, job))
        && var r := Get(t, entry.job).value;
        && r.status.Running? && r.worker == Some(w) && r.token == Some(token) && r.updatedAt == stamp
        && (found.None? ==> Leasing(r, entry, w, token) && r.attempts == 1)
        && (found.Some? ==>
              && r.attempts == found.value.attempts + 1
              && r.job == found.value.job && r.createdAt == found.value.createdAt
              && r.result == found.value.result && r.failure == found.value.failure)
  {
  }

  /** `complete` and `fail` store the answer when the lease is current and remove the entry; otherwise they change
      nothing. */
  lemma FinalizeStores(s: Store, lease: Lease, outcome: Outcome, stamp: nat, ttl: nat)
    ensures var t, found := Finalized(s, lease, outcome, stamp, ttl), Get(s, lease.job);
      var current := found.Some? && found.value.token == Some(lease.token) && Owns(s, lease.worker, lease.id);
      if !current then t == s
      else
        && t == s.(jobs := t.jobs, pending := s.pending - {lease.id}, stream := s.stream - {lease.id})
        && Get(t, lease.job).Some? && t.jobs[lease.job].expiresAt == s.clock + ttl
        && (forall job :: job != lease.job ==> Get(t, job) == Get(s, job))
        && var r := Get(t, lease.job).value;
        && Answers(r, outcome, lease.worker, stamp)
        && r.job == found.value.job && r.createdAt == found.value.createdAt && r.attempts == found.value.attempts
  {
  }
}
