/** What one call of `process_once` does when nobody else is at work (app/job_worker.py:78-174).

    Nothing is assumed of the idle times or of the worker's cursor. */
module JobRound {
  import opened Options
  import opened JobQueue
  import opened JobWorker
  import opened JobRecords

  /** An entry is pending exactly when it was delivered, none was handed out in the future, and jobs are distinct.
      Every store that the protocol reaches is calm. */
  ghost predicate Calm(s: Store) {
    && WellFormed(s)
    && (forall id :: id in s.stream ==> (id in s.pending <==> id <= s.delivered))
    && (forall id :: id in s.pending ==> s.pending[id].deliveredAt <= s.clock)
    && (forall id, other :: id in s.stream && other in s.stream && id != other ==>
      s.stream[id].job != s.stream[other].job)
  }

  /** No inference outlives the record's expiry. */
  ghost predicate Brisk(work: StreamId -> Work, cfg: Config) {
    forall id :: work(id).duration <= cfg.ttl
  }

  // ----- processing owned messages

  /** An owned message is finalised exactly when its inference does not outlast the record's time to live. */
  lemma ProcessCommitsExactlyWhen(s: Store, cfg: Config, m: Message, work: Work)
    requires Owns(s, cfg.name, m.id)
    ensures var (t, verdict) := Process(s, cfg, m, work);
      && (verdict.Skipped? <==> cfg.ttl < work.duration)
      && (!verdict.Skipped? ==> (verdict.Succeeded? <==> work.outcome.Completed?))
      && (!verdict.Skipped? ==>
            && t.stream == s.stream - {m.id} && t.pending == s.pending - {m.id}
            && t.lastId == s.lastId && t.delivered == s.delivered && t.clock == s.clock + work.duration
            && t.jobs.Keys == s.jobs.Keys + {m.entry.job}
            && (forall job :: job in s.jobs && job != m.entry.job ==> t.jobs[job] == s.jobs[job])
            && t.jobs[m.entry.job].record.status
              == (if work.outcome.Completed? then Status.Succeeded else Status.Failed)
            && Answers(t.jobs[m.entry.job].record, work.outcome, cfg.name, work.doneStamp)
            && t.jobs[m.entry.job].expiresAt == t.clock + cfg.ttl)
  {
  }

  /** A message that is no longer this worker's is skipped, and nothing happens. */
  lemma LostMessageIsSkipped(s: Store, cfg: Config, m: Message, work: Work)
    requires !Owns(s, cfg.name, m.id)
    ensures Process(s, cfg, m, work) == (s, Verdict.Skipped)
  {
  }

  predicate Held(s: Store, cfg: Config, m: Message) {
    Owns(s, cfg.name, m.id) && m.id in s.stream && s.stream[m.id] == m.entry
  }

  function Ids(ms: seq<Message>): set<StreamId> {
    set m | m in ms :: m.id
  }

  ghost predicate Distinct(ms: seq<Message>) {
    forall i, j :: 0 <= i < j < |ms| ==> ms[i].id != ms[j].id && ms[i].entry.job != ms[j].entry.job
  }

  predicate Settled(s: Store, job: JobId) {
    job in s.jobs && s.jobs[job].record.Terminal()
  }

  /** Distinct held messages are all finalised: their entries leave the stream and the pending list, their jobs get
      terminal records, and no other job's record changes. */
  lemma {:induction false} ProcessAllCommits(s: Store, cfg: Config, ms: seq<Message>, work: StreamId -> Work,
      tally: Tally)
    requires Brisk(work, cfg) && Distinct(ms)
    requires forall i :: 0 <= i < |ms| ==> Held(s, cfg, ms[i])
    ensures var (t, tally') := ProcessAll(s, cfg, ms, work, tally);
      && t.stream == s.stream - Ids(ms) && t.pending == s.pending - Ids(ms)
      && t.lastId == s.lastId && t.delivered == s.delivered && s.clock <= t.clock
      && tally'.skipped == tally.skipped
      && (forall i :: 0 <= i < |ms| ==> Settled(t, ms[i].entry.job))
      && (forall job :: Settled(s, job) ==> Settled(t, job))
    decreases ms
  {
    if ms == [] {
      assert Ids(ms) == {};
    } else {
      var m := ms[0];
      var (t, verdict) := Process(s, cfg, m, work(m.id));
      assert Held(s, cfg, m);
      ProcessCommitsExactlyWhen(s, cfg, m, work(m.id));
      forall i | 0 <= i < |ms[1..]| ensures Held(t, cfg, ms[1..][i]) {
        assert Held(s, cfg, ms[i + 1]) && ms[0].id != ms[i + 1].id;
      }
      ProcessAllCommits(t, cfg, ms[1..], work, tally.Add(verdict));
      IdsCons(ms);
      assert Settled(t, m.entry.job);
      forall i | 0 <= i < |ms| ensures Settled(ProcessAll(s, cfg, ms, work, tally).0, ms[i].entry.job) {
        assert i == 0 || ms[i] == ms[1..][i - 1];
      }
    }
  }

  /** How many of the messages' inferences end with a result. */
  function CompletedCount(ms: seq<Message>, work: StreamId -> Work): nat {
    if ms == [] then 0 else (if work(ms[0].id).outcome.Completed? then 1 else 0) + CompletedCount(ms[1..], work)
  }

  /** The job's record holds what its message's inference came to. */
  predicate Answered(t: Store, cfg: Config, m: Message, work: Work) {
    m.entry.job in t.jobs && Answers(t.jobs[m.entry.job].record, work.outcome, cfg.name, work.doneStamp)
  }

  /** Each of them gets its own message's answer, no other record is touched, and the call's counts are those of the
      answers. */
  lemma {:induction false} ProcessAllAnswers(s: Store, cfg: Config, ms: seq<Message>, work: StreamId -> Work,
      tally: Tally)
    requires Brisk(work, cfg) && Distinct(ms)
    requires forall i :: 0 <= i < |ms| ==> Held(s, cfg, ms[i])
    ensures var (t, tally') := ProcessAll(s, cfg, ms, work, tally);
      && (forall i :: 0 <= i < |ms| ==> Answered(t, cfg, ms[i], work(ms[i].id)))
      && (forall job :: job in s.jobs && (forall i :: 0 <= i < |ms| ==> ms[i].entry.job != job) ==>
            job in t.jobs && t.jobs[job] == s.jobs[job])
      && tally'.succeeded == tally.succeeded + CompletedCount(ms, work)
      && tally'.failed == tally.failed + |ms| - CompletedCount(ms, work)
    decreases ms
  {
    if ms != [] {
      var m := ms[0];
      var (t, verdict) := Process(s, cfg, m, work(m.id));
      assert Held(s, cfg, m);
      ProcessCommitsExactlyWhen(s, cfg, m, work(m.id));
      forall i | 0 <= i < |ms[1..]| ensures Held(t, cfg, ms[1..][i]) && ms[1..][i].entry.job != m.entry.job {
        assert Held(s, cfg, ms[i + 1]) && ms[0].id != ms[i + 1].id && ms[0].entry.job != ms[i + 1].entry.job;
      }
      ProcessAllAnswers(t, cfg, ms[1..], work, tally.Add(verdict));
      var u := ProcessAll(s, cfg, ms, work, tally).0;
      assert Answered(t, cfg, m, work(m.id));
      forall i | 0 <= i < |ms| ensures Answered(u, cfg, ms[i], work(ms[i].id)) {
        assert i == 0 || ms[i] == ms[1..][i - 1];
      }
      assert forall i :: 0 <= i < |ms[1..]| ==> ms[1..][i] == ms[i + 1];
    }
  }

  lemma IdsCons(ms: seq<Message>)
    requires ms != []
    ensures Ids(ms) == {ms[0].id} + Ids(ms[1..])
  {
    assert ms == [ms[0]] + ms[1..];
  }

  // ----- what a call does to a store

  function Elements(ids: seq<StreamId>): set<StreamId> {
    set id | id in ids
  }

  /** What a call of `process_once` that comes back does to a calm store. */
  ghost predicate Progress(s: Store, t: Store, taken: set<StreamId>) {
    && t.stream == s.stream - taken
    && t.pending == s.pending - taken
    && t.lastId == s.lastId && s.delivered <= t.delivered && s.clock <= t.clock
    && (forall id :: id in taken && id in s.stream ==> Settled(t, s.stream[id].job))
    && (forall job :: Settled(s, job) ==> Settled(t, job))
  }

  ghost predicate Takeable(k: Taken, cfg: Config) {
    && (forall id :: id in k.reclaimed + k.news ==> id in k.store.stream && Owns(k.store, cfg.name, id))
    && Ascending(k.reclaimed + k.news)
    && (forall id, other :: id in k.store.stream && other in k.store.stream && id != other ==>
      k.store.stream[id].job != k.store.stream[other].job)
  }

  lemma TakingMembers(k: Taken, cfg: Config)
    requires forall id :: id in k.reclaimed ==> id in k.store.stream
    requires forall id :: id in k.news ==> id in k.store.stream
    requires Takeable(k, cfg)
    ensures var ms := Taking(k);
      && |ms| == |k.reclaimed + k.news|
      && (forall i :: 0 <= i < |ms| ==> ms[i].id == (k.reclaimed + k.news)[i] && Held(k.store, cfg, ms[i]))
      && Distinct(ms)
  {
    var ms := Taking(k);
    var ids := k.reclaimed + k.news;
    forall i | 0 <= i < |ms| ensures ms[i].id == ids[i] && Held(k.store, cfg, ms[i]) {
      assert ids[i] in ids;
    }
    forall i, j | 0 <= i < j < |ms| ensures ms[i].id != ms[j].id && ms[i].entry.job != ms[j].entry.job {
      assert ids[i] < ids[j];
      assert Held(k.store, cfg, ms[i]) && Held(k.store, cfg, ms[j]);
    }
  }

  lemma TakenIds(k: Taken, ms: seq<Message>)
    requires |ms| == |k.reclaimed + k.news| && forall i :: 0 <= i < |ms| ==> ms[i].id == (k.reclaimed + k.news)[i]
    ensures Ids(ms) == Elements(k.reclaimed + k.news)
  {
    var ids := k.reclaimed + k.news;
    forall id ensures id in Ids(ms) <==> id in ids {
      if id in ids {
        var i :| 0 <= i < |ids| && ids[i] == id;
        assert ms[i] in ms;
      }
      if id in Ids(ms) {
        var m :| m in ms && m.id == id;
        var i :| 0 <= i < |ms| && ms[i] == m;
        assert ids[i] in ids;
      }
    }
  }

  /** A call has taken entries of `s` over, all of them its own now, and done nothing else. */
  ghost predicate TakenFrom(s: Store, cfg: Config, k: Taken) {
    && (forall id :: id in k.reclaimed ==> id in k.store.stream)
    && (forall id :: id in k.news ==> id in k.store.stream)
    && Takeable(k, cfg)
    && k.store.stream == s.stream && k.store.jobs == s.jobs && k.store.lastId == s.lastId
    && s.delivered <= k.store.delivered && s.clock <= k.store.clock
    && k.store.pending - Elements(k.reclaimed + k.news) == s.pending - Elements(k.reclaimed + k.news)
  }

  lemma ProcessTaken(s: Store, cfg: Config, k: Taken, work: StreamId -> Work)
    requires Brisk(work, cfg) && TakenFrom(s, cfg, k)
    ensures var (t, tally) := ProcessAll(k.store, cfg, Taking(k), work, Tally(0, 0, 0));
      && Progress(s, t, Elements(k.reclaimed + k.news)) && tally.skipped == 0 && t.delivered == k.store.delivered
  {
    var ms := Taking(k);
    var ids := k.reclaimed + k.news;
    TakingMembers(k, cfg);
    TakenIds(k, ms);
    ProcessAllCommits(k.store, cfg, ms, work, Tally(0, 0, 0));
    var t := ProcessAll(k.store, cfg, ms, work, Tally(0, 0, 0)).0;
    forall id | id in Elements(ids) && id in s.stream ensures Settled(t, s.stream[id].job) {
      var i :| 0 <= i < |ids| && ids[i] == id;
      assert Held(k.store, cfg, ms[i]) && Settled(t, ms[i].entry.job);
    }
  }

  // ----- what a call takes on

  /** The undelivered entries. */
  function Unread(s: Store): set<StreamId> {
    set id | id in s.stream && s.delivered < id
  }

  lemma {:induction false} AscendingCount(ids: seq<StreamId>)
    requires Ascending(ids)
    ensures |Elements(ids)| == |ids|
    decreases ids
  {
    if ids != [] {
      AscendingCount(ids[1..]);
      assert Elements(ids) == {ids[0]} + Elements(ids[1..]);
      assert ids[0] !in ids[1..];
    }
  }

  lemma NothingUnread(s: Store)
    requires WellFormed(s)
    ensures Unread(s) == {} <==> NextEntry(s, s.delivered + 1).None?
  {
    forall id | id in Unread(s) ensures NextEntry(s, s.delivered + 1).Some? {
      NextEntryIsFirst(s, s.delivered + 1, id);
    }
    if NextEntry(s, s.delivered + 1).Some? {
      assert NextEntry(s, s.delivered + 1).value in Unread(s);
    }
  }

  /** A read hands out as many entries as it may, or all there are. */
  lemma {:induction false} ReadNewCount(s: Store, w: Worker, count: nat)
    requires WellFormed(s)
    ensures |ReadNew(s, w, count).1| == if count <= |Unread(s)| then count else |Unread(s)|
    decreases count
  {
    var next := NextEntry(s, s.delivered + 1);
    NothingUnread(s);
    if count != 0 && next.Some? {
      var s1 := Deliver(s, w, next.value);
      forall id | id in Unread(s) ensures next.value <= id {
        NextEntryIsFirst(s, s.delivered + 1, id);
      }
      assert Unread(s) == {next.value} + Unread(s1);
      assert next.value !in Unread(s1);
      ReadNewCount(s1, w, count - 1);
    }
  }

  /** The entries a call reads after a reclaim of `reclaimed`: the next ones, without a gap, as many as the batch has
      room for.  The read comes back unless it finds nothing and was made with BLOCK 0. */
  lemma TakeNewIs(s: Store, cfg: Config, cursor: StreamId, reclaimed: seq<StreamId>)
    requires WellFormed(s) && cfg.Valid() && |reclaimed| <= cfg.batch
    ensures var k := TakeNew(s, cfg, cursor, reclaimed);
      && k.reclaimed == reclaimed && k.cursor == cursor
      && Ascending(k.news)
      && |k.news| == (if cfg.batch - |reclaimed| <= |Unread(s)| then cfg.batch - |reclaimed| else |Unread(s)|)
      && s.delivered <= k.store.delivered && (k.news == [] ==> k.store.delivered == s.delivered)
      && (k.returned <==>
            || |reclaimed| == cfg.batch || k.news != []
            || (reclaimed == [] && !TimesOut(cfg.blockMs, cfg.socketTimeout)))
      && k.store.clock
         == s.clock + if !k.returned then cfg.socketTimeout else if reclaimed + k.news == [] then cfg.blockMs else 0
  {
    if |reclaimed| < cfg.batch {
      ReadNewCount(s, cfg.name, cfg.batch - |reclaimed|);
      ReadNewAscends(s, cfg.name, cfg.batch - |reclaimed|);
      ReadNewFrame(s, cfg.name, cfg.batch - |reclaimed|);
    }
  }

  lemma TakeNewReads(s: Store, cfg: Config, cursor: StreamId, reclaimed: seq<StreamId>, id: StreamId)
    requires WellFormed(s) && cfg.Valid() && |reclaimed| <= cfg.batch
    ensures var k := TakeNew(s, cfg, cursor, reclaimed);
      id in k.news <==> id in s.stream && s.delivered < id <= k.store.delivered
  {
    if |reclaimed| < cfg.batch {
      ReadNewFrame(s, cfg.name, cfg.batch - |reclaimed|);
      if id in s.stream && s.delivered < id {
        ReadNewSkipsNothing(s, cfg.name, cfg.batch - |reclaimed|, id);
      }
    }
  }

  /** The store after a reclaim of `ids`. */
  function Reclaimed(s: Store, cfg: Config, ids: seq<StreamId>): Store {
    s.(pending := s.pending + Handed(ids, cfg.name, s.clock))
  }

  lemma ReclaimedKeeps(s: Store, cfg: Config, ids: seq<StreamId>)
    requires WellFormed(s) && forall id :: id in ids ==> id in s.pending
    ensures WellFormed(Reclaimed(s, cfg, ids)) && Unread(Reclaimed(s, cfg, ids)) == Unread(s)
    ensures Reclaimed(s, cfg, ids).pending.Keys == s.pending.Keys
  {
  }

  lemma TakeIs(s: Store, cfg: Config, cursor: StreamId)
    requires WellFormed(s) && cfg.Valid()
    ensures var (_, next, ids) := AutoClaim(s, cfg.name, cfg.reclaimIdle, cursor, cfg.batch);
      && Ascending(ids) && |ids| <= cfg.batch && (forall id :: id in ids ==> id in s.pending)
      && Take(s, cfg, cursor) == TakeNew(Reclaimed(s, cfg, ids), cfg, next, ids)
  {
    AutoClaimIsExact(s, cfg.name, cfg.reclaimIdle, cursor, cfg.batch);
  }

  /** Whatever a call takes on: pending entries in ascending order, then the next undelivered ones; all in one batch. */
  lemma TakeCounts(s: Store, cfg: Config, cursor: StreamId)
    requires WellFormed(s) && cfg.Valid()
    ensures var k := Take(s, cfg, cursor);
      var room := cfg.batch - |k.reclaimed|;
      && |k.reclaimed| <= cfg.batch
      && Ascending(k.reclaimed) && Ascending(k.news)
      && (forall id :: id in k.reclaimed ==> id in s.pending)
      && |k.news| == (if room <= |Unread(s)| then room else |Unread(s)|)
      && s.delivered <= k.store.delivered && (k.news == [] ==> k.store.delivered == s.delivered)
      && (k.returned <==> room == 0 || k.news != [] || (k.reclaimed == [] && !TimesOut(cfg.blockMs, cfg.socketTimeout)))
      && k.store.clock
         == s.clock + if !k.returned then cfg.socketTimeout else if k.reclaimed + k.news == [] then cfg.blockMs else 0
  {
    TakeIs(s, cfg, cursor);
    var (_, next, ids) := AutoClaim(s, cfg.name, cfg.reclaimIdle, cursor, cfg.batch);
    ReclaimedKeeps(s, cfg, ids);
    TakeNewIs(Reclaimed(s, cfg, ids), cfg, next, ids);
  }

  lemma TakeStore(s: Store, cfg: Config, cursor: StreamId)
    requires WellFormed(s) && cfg.Valid()
    ensures var k := Take(s, cfg, cursor);
      && k.store == s.(
           pending := s.pending + Handed(k.reclaimed, cfg.name, s.clock) + Handed(k.news, cfg.name, s.clock),
           delivered := k.store.delivered, clock := k.store.clock)
      && s.clock <= k.store.clock
  {
    TakeIs(s, cfg, cursor);
    var (_, next, ids) := AutoClaim(s, cfg.name, cfg.reclaimIdle, cursor, cfg.batch);
    ReclaimedKeeps(s, cfg, ids);
    TakeNewKeeps(Reclaimed(s, cfg, ids), cfg, next, ids);
  }

  lemma TakeReads(s: Store, cfg: Config, cursor: StreamId, id: StreamId)
    requires WellFormed(s) && cfg.Valid()
    ensures var k := Take(s, cfg, cursor);
      id in k.news <==> id in s.stream && s.delivered < id <= k.store.delivered
  {
    TakeIs(s, cfg, cursor);
    var (_, next, ids) := AutoClaim(s, cfg.name, cfg.reclaimIdle, cursor, cfg.batch);
    ReclaimedKeeps(s, cfg, ids);
    TakeNewReads(Reclaimed(s, cfg, ids), cfg, next, ids, id);
  }

  lemma HandedOutside(pending: map<StreamId, Pending>, k: Taken, w: Worker, at: nat)
    ensures pending + Handed(k.reclaimed, w, at) + Handed(k.news, w, at) - Elements(k.reclaimed + k.news)
         == pending - Elements(k.reclaimed + k.news)
  {
  }

  lemma CalmTakenFrom(s: Store, cfg: Config, k: Taken)
    requires Calm(s)
    requires k.store == s.(pending := k.store.pending, delivered := k.store.delivered, clock := k.store.clock)
    requires s.delivered <= k.store.delivered && s.clock <= k.store.clock
    requires Ascending(k.reclaimed) && Ascending(k.news)
    requires forall id :: id in k.reclaimed ==> id in s.pending
    requires forall id :: id in k.news ==> id in s.stream && s.delivered < id
    requires k.store.pending == s.pending + Handed(k.reclaimed, cfg.name, s.clock) + Handed(k.news, cfg.name, s.clock)
    ensures TakenFrom(s, cfg, k)
  {
    var ids := k.reclaimed + k.news;
    forall i, j | 0 <= i < j < |ids| ensures ids[i] < ids[j] {
      if i < |k.reclaimed| <= j {
        assert ids[i] in k.reclaimed && ids[j] in k.news;
      }
    }
    HandedOutside(s.pending, k, cfg.name, s.clock);
  }

  lemma TakeTakesFrom(s: Store, cfg: Config, cursor: StreamId)
    requires Calm(s) && cfg.Valid()
    ensures TakenFrom(s, cfg, Take(s, cfg, cursor))
  {
    var k := Take(s, cfg, cursor);
    TakeCounts(s, cfg, cursor);
    TakeStore(s, cfg, cursor);
    forall id | id in k.news ensures id in s.stream && s.delivered < id {
      TakeReads(s, cfg, cursor, id);
    }
    CalmTakenFrom(s, cfg, k);
  }

  // ----- the call

  /** A call that comes back finalises exactly what it took on, and the store stays calm. */
  lemma ReturnedRound(s: Store, cfg: Config, cursor: StreamId, work: StreamId -> Work)
    requires cfg.Valid() && Calm(s) && Brisk(work, cfg) && Take(s, cfg, cursor).returned
    ensures var (t, next, round) := Once(s, cfg, cursor, work);
      var k := Take(s, cfg, cursor);
      && round.Finished? && round.result.skipped == 0 && next == k.cursor
      && t.delivered == k.store.delivered
      && Progress(s, t, Elements(k.reclaimed + k.news))
  {
    TakeTakesFrom(s, cfg, cursor);
    ProcessTaken(s, cfg, Take(s, cfg, cursor), work);
  }

  lemma TakenAnswers(s: Store, cfg: Config, k: Taken, work: StreamId -> Work)
    requires Brisk(work, cfg) && TakenFrom(s, cfg, k)
    ensures var (t, tally) := ProcessAll(k.store, cfg, Taking(k), work, Tally(0, 0, 0));
      && (forall id :: id in k.reclaimed + k.news ==>
            && id in s.stream && s.stream[id].job in t.jobs
            && Answers(t.jobs[s.stream[id].job].record, work(id).outcome, cfg.name, work(id).doneStamp))
      && tally.succeeded == CompletedCount(Taking(k), work)
      && tally.failed == |k.reclaimed + k.news| - CompletedCount(Taking(k), work)
  {
    var ms, ids := Taking(k), k.reclaimed + k.news;
    TakingMembers(k, cfg);
    ProcessAllAnswers(k.store, cfg, ms, work, Tally(0, 0, 0));
    var t := ProcessAll(k.store, cfg, ms, work, Tally(0, 0, 0)).0;
    forall id | id in ids
      ensures id in s.stream && s.stream[id].job in t.jobs
      ensures Answers(t.jobs[s.stream[id].job].record, work(id).outcome, cfg.name, work(id).doneStamp)
    {
      var i :| 0 <= i < |ids| && ids[i] == id;
      assert Held(k.store, cfg, ms[i]) && Answered(t, cfg, ms[i], work(ms[i].id));
    }
  }

  /** A call that comes back leaves every job it took on with the answer of its own message, and counts the answers. */
  lemma RoundAnswers(s: Store, cfg: Config, cursor: StreamId, work: StreamId -> Work)
    requires cfg.Valid() && Calm(s) && Brisk(work, cfg) && Take(s, cfg, cursor).returned
    ensures var (t, next, round) := Once(s, cfg, cursor, work);
      var k := Take(s, cfg, cursor);
      && (forall id :: id in k.reclaimed + k.news ==>
            && id in s.stream && s.stream[id].job in t.jobs
            && Answers(t.jobs[s.stream[id].job].record, work(id).outcome, cfg.name, work(id).doneStamp))
      && round.Finished? && round.result.reclaimed == |k.reclaimed| && round.result.receivedNew == |k.news|
    ensures var (t, next, round) := Once(s, cfg, cursor, work);
      var k := Take(s, cfg, cursor);
      && round.Finished?
      && (forall id :: id in k.reclaimed + k.news ==> id in k.store.stream)
      && round.result.succeeded == CompletedCount(Taking(k), work)
      && round.result.failed == |k.reclaimed + k.news| - round.result.succeeded
  {
    TakeTakesFrom(s, cfg, cursor);
    TakenAnswers(s, cfg, Take(s, cfg, cursor), work);
  }

  lemma ReturnedStaysCalm(s: Store, cfg: Config, cursor: StreamId, t: Store)
    requires cfg.Valid() && Calm(s) && WellFormed(t)
    requires var k := Take(s, cfg, cursor);
      && t.delivered == k.store.delivered
      && Progress(s, t, Elements(k.reclaimed + k.news))
    ensures Calm(t)
  {
    var k := Take(s, cfg, cursor);
    TakeCounts(s, cfg, cursor);
    forall id | id in t.stream ensures id in t.pending <==> id <= t.delivered {
      TakeReads(s, cfg, cursor, id);
      assert id !in k.reclaimed + k.news;
    }
  }

  /** A call that does not come back has changed nothing but owners, idle times and the clock. */
  lemma StalledRound(s: Store, cfg: Config, cursor: StreamId, work: StreamId -> Work)
    requires cfg.Valid() && Calm(s) && !Take(s, cfg, cursor).returned
    ensures var (t, next, round) := Once(s, cfg, cursor, work);
      var k := Take(s, cfg, cursor);
      && round.QueueUnavailable? && next == k.cursor && t == k.store && k.news == []
      && t == s.(pending := s.pending + Handed(k.reclaimed, cfg.name, s.clock), clock := t.clock)
      && t.pending.Keys == s.pending.Keys && s.clock <= t.clock
      && Calm(t)
  {
    var k := Take(s, cfg, cursor);
    TakeCounts(s, cfg, cursor);
    TakeStore(s, cfg, cursor);
    assert s.pending + Handed(k.reclaimed, cfg.name, s.clock) + Handed([], cfg.name, s.clock)
        == s.pending + Handed(k.reclaimed, cfg.name, s.clock);
  }

  /** Either way the store stays calm, what leaves the stream is settled, and what was settled stays so. */
  lemma CalmRound(s: Store, cfg: Config, cursor: StreamId, work: StreamId -> Work)
    requires cfg.Valid() && Calm(s) && Brisk(work, cfg)
    ensures var t := Once(s, cfg, cursor, work).0;
      && Calm(t)
      && (forall id :: id in t.stream ==> id in s.stream && t.stream[id] == s.stream[id])
      && (forall id :: id in s.stream && id !in t.stream ==> Settled(t, s.stream[id].job))
      && (forall job :: Settled(s, job) ==> Settled(t, job))
  {
    if Take(s, cfg, cursor).returned {
      ReturnedRound(s, cfg, cursor, work);
      ReturnedStaysCalm(s, cfg, cursor, Once(s, cfg, cursor, work).0);
    } else {
      StalledRound(s, cfg, cursor, work);
    }
  }
}
