/** One worker of the job queue (app/job_worker.py): `process_once` and the messages it processes. */
module JobWorker {
  import opened Options
  import opened JobQueue

  /** What the outside supplies for one message: the uuid drawn, how long inference took, how it ended. */
  datatype Work = Work(token: Token, markStamp: nat, duration: nat, outcome: Outcome, doneStamp: nat)

  datatype Verdict = Succeeded | Failing | Skipped
  datatype BatchResult = BatchResult(reclaimed: nat, receivedNew: nat, succeeded: nat, failed: nat, skipped: nat)
  /** `QueueUnavailable` is the exception that the worker's main loop catches before it calls again. */
  datatype Round = Finished(result: BatchResult) | QueueUnavailable

  datatype Config = Config(name: Worker, batch: nat, blockMs: nat, reclaimIdle: nat, ttl: nat, socketTimeout: nat) {
    predicate Valid() { 0 < batch && 0 < reclaimIdle }
  }

  // ----- specification

  /** `_process_message`, with nobody interfering. */
  function Process(s: Store, cfg: Config, m: Message, work: Work): (Store, Verdict) {
    if !Owns(s, cfg.name, m.id) then (s, Verdict.Skipped)
    else
      var s1 := Marked(s, cfg.name, m.id, m.entry, work.token, work.markStamp, cfg.ttl);
      var s2 := s1.(clock := s1.clock + work.duration);
      var lease := Lease(m.id, m.entry.job, cfg.name, work.token);
      var verdict :=
        if !CanFinalize(s2, lease) then Verdict.Skipped
        else if work.outcome.Completed? then Verdict.Succeeded
        else Verdict.Failing;
      (Finalized(s2, lease, work.outcome, work.doneStamp, cfg.ttl), verdict)
  }

  datatype Tally = Tally(succeeded: nat, failed: nat, skipped: nat) {
    function Add(verdict: Verdict): Tally {
      match verdict
      case Succeeded => this.(succeeded := succeeded + 1)
      case Failing => this.(failed := failed + 1)
      case Skipped => this.(skipped := skipped + 1)
    }
  }

  function ProcessAll(s: Store, cfg: Config, ms: seq<Message>, work: StreamId -> Work, tally: Tally): (Store, Tally)
    decreases ms
  {
    if ms == [] then (s, tally)
    else
      var (t, verdict) := Process(s, cfg, ms[0], work(ms[0].id));
      ProcessAll(t, cfg, ms[1..], work, tally.Add(verdict))
  }

  /** What `process_once` takes on: the store after the reclaim and the read, the new cursor, the reclaimed and the
      new ids, and whether the read came back. */
  datatype Taken = Taken(store: Store, cursor: StreamId, reclaimed: seq<StreamId>, news: seq<StreamId>, returned: bool)

  /** The read after a reclaim.  It is made with BLOCK 0 when something was reclaimed, and then waits for the socket to
      time out when nothing is new. */
  function TakeNew(s: Store, cfg: Config, cursor: StreamId, reclaimed: seq<StreamId>): Taken {
    if cfg.batch <= |reclaimed| then Taken(s, cursor, reclaimed, [], true)
    else
      var (t, news) := ReadNew(s, cfg.name, cfg.batch - |reclaimed|);
      var block := if reclaimed == [] then cfg.blockMs else 0;
      if news == [] then
        Taken(t.(clock := t.clock + Waited(block, cfg.socketTimeout)), cursor, reclaimed, [],
          !TimesOut(block, cfg.socketTimeout))
      else Taken(t, cursor, reclaimed, news, true)
  }

  function Take(s: Store, cfg: Config, cursor: StreamId): Taken {
    var (t, next, reclaimed) := AutoClaim(s, cfg.name, cfg.reclaimIdle, cursor, cfg.batch);
    TakeNew(t, cfg, next, reclaimed)
  }

  lemma TakeNewKeeps(s: Store, cfg: Config, cursor: StreamId, reclaimed: seq<StreamId>)
    requires WellFormed(s) && cfg.Valid() && |reclaimed| <= cfg.batch
    ensures var k := TakeNew(s, cfg, cursor, reclaimed);
      && k.store == s.(pending := s.pending + Handed(k.news, cfg.name, s.clock), delivered := k.store.delivered,
        clock := k.store.clock)
      && s.clock <= k.store.clock && WellFormed(k.store)
      && k.reclaimed == reclaimed
      && (forall id :: id in k.news ==> id in s.stream && s.delivered < id)
      && |reclaimed| + |k.news| <= cfg.batch
  {
    if |reclaimed| < cfg.batch {
      ReadNewFrame(s, cfg.name, cfg.batch - |reclaimed|);
    }
    assert s.pending + Handed([], cfg.name, s.clock) == s.pending;
  }

  lemma TakeKeeps(s: Store, cfg: Config, cursor: StreamId)
    requires WellFormed(s) && cfg.Valid()
    ensures var k := Take(s, cfg, cursor);
      && WellFormed(k.store) && k.store.stream == s.stream
      && (forall id :: id in k.reclaimed ==> id in k.store.stream)
      && (forall id :: id in k.news ==> id in k.store.stream)
      && |k.reclaimed| + |k.news| <= cfg.batch
  {
    var (t, next, reclaimed) := AutoClaim(s, cfg.name, cfg.reclaimIdle, cursor, cfg.batch);
    AutoClaimIsExact(s, cfg.name, cfg.reclaimIdle, cursor, cfg.batch);
    assert forall id :: id in t.pending ==> id in s.pending;
    TakeNewKeeps(t, cfg, next, reclaimed);
  }

  function Taking(k: Taken): seq<Message>
    requires forall id :: id in k.reclaimed ==> id in k.store.stream
    requires forall id :: id in k.news ==> id in k.store.stream
  {
    Messages(k.store, k.reclaimed, true) + Messages(k.store, k.news, false)
  }

  lemma {:induction false} ProcessAllKeeps(s: Store, cfg: Config, ms: seq<Message>, work: StreamId -> Work,
      tally: Tally)
    requires WellFormed(s)
    ensures WellFormed(ProcessAll(s, cfg, ms, work, tally).0)
    decreases ms
  {
    if ms != [] {
      var (t, verdict) := Process(s, cfg, ms[0], work(ms[0].id));
      ProcessAllKeeps(t, cfg, ms[1..], work, tally.Add(verdict));
    }
  }

  /** `process_once`: the store, the cursor and what the call returned. */
  function Once(s: Store, cfg: Config, cursor: StreamId, work: StreamId -> Work): (r: (Store, StreamId, Round))
    requires WellFormed(s) && cfg.Valid()
    ensures WellFormed(r.0)
  {
    TakeKeeps(s, cfg, cursor);
    ProcessAllKeeps(Take(s, cfg, cursor).store, cfg, Taking(Take(s, cfg, cursor)), work, Tally(0, 0, 0));
    var k := Take(s, cfg, cursor);
    if !k.returned then (k.store, k.cursor, QueueUnavailable)
    else
      var (t, tally) := ProcessAll(k.store, cfg, Taking(k), work, Tally(0, 0, 0));
      (t, k.cursor, Finished(BatchResult(|k.reclaimed|, |k.news|, tally.succeeded, tally.failed, tally.skipped)))
  }

  // ----- the worker object

  class JobWorker {
    const queue: RedisStreamJobQueue
    const cfg: Config
    var reclaimStart: StreamId

    ghost predicate Valid()
      reads this, queue
    {
      queue.Valid() && cfg.Valid() && queue.ttl == cfg.ttl && queue.socketTimeout == cfg.socketTimeout
    }

    constructor (q: RedisStreamJobQueue, name: Worker, batch: nat, blockMs: nat, reclaimIdle: nat)
      requires q.Valid() && 0 < batch && 0 < reclaimIdle
      ensures Valid() && queue == q && cfg == Config(name, batch, blockMs, reclaimIdle, q.ttl, q.socketTimeout)
        && reclaimStart == 0
    {
      queue := q;
      cfg := Config(name, batch, blockMs, reclaimIdle, q.ttl, q.socketTimeout);
      reclaimStart := 0;
    }

    method ProcessMessage(message: Message, work: Work) returns (verdict: Verdict)
      requires Valid()
      modifies queue
      ensures Valid()
      ensures (queue.Contents(), verdict) == Process(old(queue.Contents()), cfg, message, work)
    {
      var lease := queue.MarkRunning(message, cfg.name, work.token, work.markStamp);
      if lease.None? {
        return Verdict.Skipped;
      }
      queue.Elapse(work.duration);
      var done := queue.Finalize(lease.value, work.outcome, work.doneStamp);
      verdict :=
        if !done then Verdict.Skipped
        else if work.outcome.Completed? then Verdict.Succeeded
        else Verdict.Failing;
    }

    method ProcessOnce(work: StreamId -> Work) returns (round: Round)
      requires Valid()
      modifies this, queue
      ensures Valid()
      ensures (queue.Contents(), reclaimStart, round) == Once(old(queue.Contents()), cfg, old(reclaimStart), work)
      ensures round.Finished? ==>
        && round.result.reclaimed + round.result.receivedNew <= cfg.batch
        && round.result.reclaimed + round.result.receivedNew
           == round.result.succeeded + round.result.failed + round.result.skipped
    {
      TakeKeeps(queue.Contents(), cfg, reclaimStart);
      var reclaimed, news, returned := TakeMessages();
      if !returned {
        return QueueUnavailable;
      }
      var tally := ProcessMessages(reclaimed + news, work);
      round := Finished(BatchResult(|reclaimed|, |news|, tally.succeeded, tally.failed, tally.skipped));
    }

    method TakeMessages() returns (reclaimed: seq<Message>, news: seq<Message>, returned: bool)
      requires Valid()
      modifies this, queue
      ensures Valid()
      ensures var k := Take(old(queue.Contents()), cfg, old(reclaimStart));
        && queue.Contents() == k.store && reclaimStart == k.cursor && returned == k.returned
        && (forall id :: id in k.reclaimed ==> id in k.store.stream)
        && (forall id :: id in k.news ==> id in k.store.stream)
        && (returned ==> reclaimed == Messages(k.store, k.reclaimed, true) && news == Messages(k.store, k.news, false))
    {
      ghost var s0 := queue.Contents();
      TakeKeeps(s0, cfg, reclaimStart);
      var cursor;
      cursor, reclaimed := queue.ReclaimIdle(cfg.name, cfg.reclaimIdle, reclaimStart, cfg.batch);
      reclaimStart := cursor;
      ghost var ids := AutoClaim(s0, cfg.name, cfg.reclaimIdle, old(reclaimStart), cfg.batch).2;
      news, returned := ReadNews(|reclaimed|, cursor, ids);
    }

    /** The read for what room the reclaim has left in the batch. */
    method ReadNews(reclaimed: nat, ghost cursor: StreamId, ghost ids: seq<StreamId>)
      returns (news: seq<Message>, returned: bool)
      requires Valid() && reclaimed == |ids|
      modifies queue
      ensures Valid()
      ensures var k := TakeNew(old(queue.Contents()), cfg, cursor, ids);
        && queue.Contents() == k.store && returned == k.returned
        && (forall id :: id in k.news ==> id in k.store.stream)
        && (returned ==> news == Messages(k.store, k.news, false))
    {
      news, returned := [], true;
      if reclaimed < cfg.batch {
        ReadNewFrame(queue.Contents(), cfg.name, cfg.batch - reclaimed);
        var r := queue.ReadNewMessages(cfg.name, cfg.batch - reclaimed, if reclaimed == 0 then cfg.blockMs else 0);
        if r.Received? {
          news := r.messages;
        } else {
          returned := false;
        }
      }
    }

    method ProcessMessages(ms: seq<Message>, work: StreamId -> Work) returns (tally: Tally)
      requires Valid()
      modifies queue
      ensures Valid()
      ensures (queue.Contents(), tally) == ProcessAll(old(queue.Contents()), cfg, ms, work, Tally(0, 0, 0))
      ensures tally.succeeded + tally.failed + tally.skipped == |ms|
    {
      ghost var s0 := queue.Contents();
      tally := Tally(0, 0, 0);
      assert ms[0..] == ms;
      for i := 0 to |ms|
        invariant Valid()
        invariant ProcessAll(s0, cfg, ms, work, Tally(0, 0, 0))
          == ProcessAll(queue.Contents(), cfg, ms[i..], work, tally)
        invariant tally.succeeded + tally.failed + tally.skipped == i
      {
        var verdict := ProcessMessage(ms[i], work(ms[i].id));
        tally := tally.Add(verdict);
        assert ms[i..][1..] == ms[i + 1..];
      }
    }
  }
}
