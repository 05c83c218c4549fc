/** The Redis Stream job queue (app/redis_stream_jobs.py).

    `Store` is the part of Redis the queue uses: the job records with their expiry, the stream, and the
    consumer group (last delivered id and pending entries list).  Every Redis command and every Lua script
    is a function from stores to stores; the class at the end runs them in the source's own order.
    Stream ids are natural numbers in XADD order; id 0 plays the part of "0-0". */
module JobQueue {
  import opened Options

  type Worker = string
  type Payload = string
  type StreamId = nat
  datatype JobId = JobId(uuid: nat)
  datatype Token = Token(uuid: nat)

  datatype Status = Queued | Running | Succeeded | Failed
  datatype Failure = Failure(errorType: string, message: string)
  datatype Outcome = Completed(result: Payload) | Errored(errorType: string, message: string)

  datatype Record = Record(
    job: JobId, status: Status, createdAt: nat, updatedAt: nat, attempts: nat,
    worker: Option<Worker>, token: Option<Token>,
    result: Option<Payload>, failure: Option<Failure>)
  {
    predicate Terminal() { status.Succeeded? || status.Failed? }
  }

  datatype Stored = Stored(record: Record, expiresAt: nat)
  datatype Entry = Entry(job: JobId, payload: Payload, createdAt: nat)
  datatype Pending = Pending(owner: Worker, deliveredAt: nat)
  datatype Message = Message(id: StreamId, entry: Entry, reclaimed: bool)
  datatype Lease = Lease(id: StreamId, job: JobId, worker: Worker, token: Token)

  datatype Store = Store(
    jobs: map<JobId, Stored>,
    stream: map<StreamId, Entry>,
    lastId: StreamId,
    delivered: StreamId,
    pending: map<StreamId, Pending>,
    clock: nat)

  const EMPTY := Store(map[], map[], 0, 0, map[], 0)

  const ERROR_MESSAGE_LIMIT := 1000

  // ----- what the Python methods write into a job record

  function QueuedRecord(job: JobId, stamp: nat): Record {
    Record(job, Queued, stamp, stamp, 0, None, None, None, None)
  }

  /** `mark_running`: the record it read, or a rebuilt one when the key had expired, taken one lease further. */
  function Leased(read: Option<Record>, entry: Entry, w: Worker, token: Token, stamp: nat): Record {
    var base := if read.Some? then read.value else QueuedRecord(entry.job, entry.createdAt);
    base.(status := Running, updatedAt := stamp, attempts := base.attempts + 1,
          worker := Some(w), token := Some(token))
  }

  /** `complete` and `fail`: the record read, made terminal and stripped of its delivery token. */
  function Finished(read: Record, w: Worker, outcome: Outcome, stamp: nat): Record {
    match outcome
    case Completed(result) =>
      read.(status := Succeeded, updatedAt := stamp, worker := Some(w), token := None,
            result := Some(result), failure := None)
    case Errored(errorType, message) =>
      read.(status := Failed, updatedAt := stamp, worker := Some(w), token := None,
            result := None, failure := Some(Failure(errorType, Shortened(message))))
  }

  function Shortened(message: string): string {
    if |message| > ERROR_MESSAGE_LIMIT then message[..ERROR_MESSAGE_LIMIT] else message
  }

  // ----- Redis commands and scripts

  /** GET: a key is gone once the time is past its expiry. */
  function Get(s: Store, job: JobId): Option<Record> {
    if job in s.jobs && s.clock <= s.jobs[job].expiresAt then Some(s.jobs[job].record) else None
  }

  /** SET .. EX ttl */
  function Put(s: Store, job: JobId, record: Record, ttl: nat): Store {
    s.(jobs := s.jobs[job := Stored(record, s.clock + ttl)])
  }

  function Enqueued(s: Store, job: JobId, payload: Payload, stamp: nat, ttl: nat): Store {
    Put(s, job, QueuedRecord(job, stamp), ttl)
      .(stream := s.stream[s.lastId + 1 := Entry(job, payload, stamp)], lastId := s.lastId + 1)
  }

  /** The ownership test both scripts start with: XPENDING for exactly this entry names this consumer. */
  predicate Owns(s: Store, w: Worker, id: StreamId) {
    id in s.pending && s.pending[id].owner == w
  }

  function MarkEval(s: Store, w: Worker, id: StreamId, job: JobId, record: Record, ttl: nat): Store {
    if Owns(s, w, id) then Put(s, job, record, ttl) else s
  }

  predicate CanFinalize(s: Store, lease: Lease) {
    && Owns(s, lease.worker, lease.id)
    && Get(s, lease.job).Some?
    && Get(s, lease.job).value.token == Some(lease.token)
  }

  function FinalEval(s: Store, lease: Lease, record: Record, ttl: nat): Store {
    if CanFinalize(s, lease)
    then Put(s, lease.job, record, ttl).(pending := s.pending - {lease.id}, stream := s.stream - {lease.id})
    else s
  }

  /** The first entry of the stream at or after `from`. */
  function NextEntry(s: Store, from: StreamId): (r: Option<StreamId>)
    ensures r.Some? ==> from <= r.value <= s.lastId && r.value in s.stream
    decreases s.lastId + 1 - from
  {
    if from > s.lastId then None
    else if from in s.stream then Some(from)
    else NextEntry(s, from + 1)
  }

  lemma {:induction false} NextEntryIsFirst(s: Store, from: StreamId, id: StreamId)
    requires from <= id <= s.lastId && id in s.stream
    ensures NextEntry(s, from).Some? && NextEntry(s, from).value <= id
    decreases s.lastId + 1 - from
  {
    if from !in s.stream {
      NextEntryIsFirst(s, from + 1, id);
    }
  }

  function Deliver(s: Store, w: Worker, id: StreamId): Store {
    s.(delivered := id, pending := s.pending[id := Pending(w, s.clock)])
  }

  /** XREADGROUP .. ">" COUNT count: the next entries after the last delivered id, in order. */
  function ReadNew(s: Store, w: Worker, count: nat): (Store, seq<StreamId>)
    decreases count
  {
    var next := NextEntry(s, s.delivered + 1);
    if count == 0 || next.None? then (s, [])
    else
      var (t, ids) := ReadNew(Deliver(s, w, next.value), w, count - 1);
      (t, [next.value] + ids)
  }

  predicate Claimable(s: Store, id: StreamId, minIdle: nat) {
    id in s.pending && s.clock - s.pending[id].deliveredAt >= minIdle
  }

  /** XCLAIM of one id: re-checks the idle time, takes ownership and resets the idle time. */
  function ClaimOne(s: Store, w: Worker, id: StreamId, minIdle: nat): Store {
    if Claimable(s, id, minIdle) then s.(pending := s.pending[id := Pending(w, s.clock)]) else s
  }

  /** XCLAIM of a list of ids: the new store and the ids that were claimed. */
  function ClaimAll(s: Store, w: Worker, ids: seq<StreamId>, minIdle: nat): (Store, seq<StreamId>)
    decreases ids
  {
    if ids == [] then (s, [])
    else
      var (t, claimed) := ClaimAll(ClaimOne(s, w, ids[0], minIdle), w, ids[1..], minIdle);
      (t, if Claimable(s, ids[0], minIdle) then [ids[0]] + claimed else claimed)
  }

  /** XPENDING from an id on: the pending ids in stream order. */
  function PendingFrom(s: Store, from: StreamId): seq<StreamId>
    decreases s.lastId + 1 - from
  {
    if from > s.lastId then []
    else if from in s.pending then [from] + PendingFrom(s, from + 1)
    else PendingFrom(s, from + 1)
  }

  predicate Ascending(ids: seq<StreamId>) {
    forall i, j :: 0 <= i < j < |ids| ==> ids[i] < ids[j]
  }

  /** The listing holds exactly the pending ids of the range, each once, in ascending order. */
  lemma {:induction false} PendingFromIsExact(s: Store, from: StreamId)
    ensures forall id :: id in PendingFrom(s, from) <==> from <= id <= s.lastId && id in s.pending
    ensures Ascending(PendingFrom(s, from))
    decreases s.lastId + 1 - from
  {
    if from <= s.lastId {
      PendingFromIsExact(s, from + 1);
      var rest := PendingFrom(s, from + 1);
      assert forall i :: 0 <= i < |rest| ==> rest[i] in rest;
    }
  }

  /** The part of XAUTOCLAIM that chooses: walk at most `attempts` pending entries, stop after `count` idle ones.
      The result is the chosen ids and the entries not walked over. */
  function Scan(s: Store, pel: seq<StreamId>, attempts: nat, count: nat, minIdle: nat): (seq<StreamId>, seq<StreamId>) {
    if pel == [] || attempts == 0 || count == 0 then ([], pel)
    else if Claimable(s, pel[0], minIdle) then
      var (ids, rest) := Scan(s, pel[1..], attempts - 1, count - 1, minIdle);
      ([pel[0]] + ids, rest)
    else Scan(s, pel[1..], attempts - 1, count, minIdle)
  }

  /** XAUTOCLAIM: new store, next cursor (0 at the end of the list), claimed ids. */
  function AutoClaim(s: Store, w: Worker, minIdle: nat, start: StreamId, count: nat): (Store, StreamId, seq<StreamId>) {
    var (ids, rest) := Scan(s, PendingFrom(s, start), 10 * count, count, minIdle);
    var (t, claimed) := ClaimAll(s, w, ids, minIdle);
    (t, if rest == [] then 0 else rest[0], claimed)
  }

  /** The XPENDING half of the legacy reclaim: the listed entries and those among them idle long enough. */
  function LegacyListed(s: Store, start: StreamId, count: nat): seq<StreamId> {
    var pel := PendingFrom(s, if start == 0 then 0 else start + 1);
    if |pel| <= count then pel else pel[..count]
  }

  function IdleOnly(s: Store, ids: seq<StreamId>, minIdle: nat): seq<StreamId> {
    if ids == [] then []
    else if Claimable(s, ids[0], minIdle) then [ids[0]] + IdleOnly(s, ids[1..], minIdle)
    else IdleOnly(s, ids[1..], minIdle)
  }

  /** The legacy cursor exactly as the source computes it, from the listed entries and the count asked for. */
  function LegacyCursor(listed: seq<StreamId>, count: nat): StreamId {
    if |listed| <= count then 0 else listed[|listed| - 1]
  }

  function LegacyReclaim(s: Store, w: Worker, minIdle: nat, start: StreamId, count: nat)
    : (Store, StreamId, seq<StreamId>)
  {
    var listed := LegacyListed(s, start, count);
    var (t, claimed) := ClaimAll(s, w, IdleOnly(s, listed, minIdle), minIdle);
    (t, LegacyCursor(listed, count), claimed)
  }

  lemma {:induction false} IdleOnlyMembers(s: Store, ids: seq<StreamId>, minIdle: nat, id: StreamId)
    ensures id in IdleOnly(s, ids, minIdle) <==> id in ids && Claimable(s, id, minIdle)
    decreases ids
  {
    if ids != [] {
      IdleOnlyMembers(s, ids[1..], minIdle, id);
      assert id in ids <==> id == ids[0] || id in ids[1..];
    }
  }

  lemma {:induction false} IdleOnlyAscends(s: Store, ids: seq<StreamId>, minIdle: nat)
    requires Ascending(ids)
    ensures Ascending(IdleOnly(s, ids, minIdle))
    decreases ids
  {
    if ids != [] {
      IdleOnlyAscends(s, ids[1..], minIdle);
      var rest := IdleOnly(s, ids[1..], minIdle);
      if rest != [] {
        assert rest[0] in rest;
        IdleOnlyMembers(s, ids[1..], minIdle, rest[0]);
      }
      AscendingCons(ids[0], rest);
    }
  }

  /** The legacy cursor always restarts, so a legacy pass always sees the same head of the pending list, and it takes
      exactly the idle entries among the first `count`.  An idle entry behind `count` busy ones is never reached. */
  lemma LegacyReclaimSeesOnlyTheHead(s: Store, w: Worker, minIdle: nat, start: StreamId, count: nat, id: StreamId)
    ensures LegacyReclaim(s, w, minIdle, start, count).1 == 0
    ensures start == 0 ==>
      var pel := PendingFrom(s, 0);
      (id in LegacyReclaim(s, w, minIdle, 0, count).2 <==>
        Claimable(s, id, minIdle) && id in (if |pel| <= count then pel else pel[..count]))
  {
    PendingFromIsExact(s, if start == 0 then 0 else start + 1);
    var listed := LegacyListed(s, start, count);
    IdleOnlyAscends(s, listed, minIdle);
    forall k | k in IdleOnly(s, listed, minIdle) ensures Claimable(s, k, minIdle) {
      IdleOnlyMembers(s, listed, minIdle, k);
    }
    IdleOnlyMembers(s, listed, minIdle, id);
    ClaimAllTakesAll(s, w, IdleOnly(s, listed, minIdle), minIdle);
  }

  /** So entry 1, while it is busy, keeps a legacy reclaim of one entry from entry 2, however long that has been idle.
      With XAUTOCLAIM the same reclaim takes it. */
  lemma BusyHeadHidesIdleEntry(s: Store, w: Worker, minIdle: nat, start: StreamId)
    requires s.pending.Keys == {1, 2} && 2 <= s.lastId && !Claimable(s, 1, minIdle) && Claimable(s, 2, minIdle)
    ensures LegacyReclaim(s, w, minIdle, 0, 1).1 == 0 && LegacyReclaim(s, w, minIdle, 0, 1).2 == []
    ensures AutoClaim(s, w, minIdle, 0, 1).2 == [2]
  {
    var pel := PendingFrom(s, 0);
    PendingFromIsExact(s, 0);
    OneAndTwo(pel);
    assert pel[..1] == [1] && [1][1..] == [];
    assert IdleOnly(s, [1], minIdle) == [];
    assert pel[1..] == [2];
    assert Scan(s, [2], 9, 1, minIdle).0 == [2];
    ClaimAllTakesAll(s, w, [2], minIdle);
  }

  lemma {:induction false} AscendingFits(ids: seq<StreamId>, low: StreamId, high: StreamId)
    requires Ascending(ids) && forall i :: 0 <= i < |ids| ==> low <= ids[i] <= high
    ensures ids == [] || |ids| <= high + 1 - ids[0] <= high + 1 - low
    decreases ids
  {
    if ids != [] {
      AscendingFits(ids[1..], low, high);
      if |ids| > 1 {
        assert ids[0] < ids[1];
      }
    }
  }

  lemma OneAndTwo(pel: seq<StreamId>)
    requires Ascending(pel) && forall id :: id in pel <==> id == 1 || id == 2
    ensures pel == [1, 2]
  {
    forall i | 0 <= i < |pel| ensures 1 <= pel[i] <= 2 {
      assert pel[i] in pel;
    }
    AscendingFits(pel, 1, 2);
    assert 1 in pel && 2 in pel;
  }

  function Messages(s: Store, ids: seq<StreamId>, reclaimed: bool): (ms: seq<Message>)
    requires forall id :: id in ids ==> id in s.stream
    ensures |ms| == |ids|
    ensures forall i :: 0 <= i < |ids| ==> ms[i] == Message(ids[i], s.stream[ids[i]], reclaimed)
  {
    if ids == [] then [] else [Message(ids[0], s.stream[ids[0]], reclaimed)] + Messages(s, ids[1..], reclaimed)
  }

  // ----- the Python methods, run without interference

  /** Ids come from XADD, and an entry is pending only while it is in the stream. */
  predicate WellFormed(s: Store) {
    (forall id :: id in s.pending ==> id in s.stream) && (forall id :: id in s.stream ==> 0 < id <= s.lastId)
  }

  function Marked(s: Store, w: Worker, id: StreamId, entry: Entry, token: Token, stamp: nat, ttl: nat): Store {
    MarkEval(s, w, id, entry.job, Leased(Get(s, entry.job), entry, w, token, stamp), ttl)
  }

  function Finalized(s: Store, lease: Lease, outcome: Outcome, stamp: nat, ttl: nat): Store {
    if CanFinalize(s, lease)
    then FinalEval(s, lease, Finished(Get(s, lease.job).value, lease.worker, outcome, stamp), ttl)
    else s
  }

  // ----- frames of the list commands

  /** XCLAIM touches only the pending list, and only re-assigns entries that were there. */
  lemma {:induction false} ClaimAllFrame(s: Store, w: Worker, ids: seq<StreamId>, minIdle: nat)
    ensures var (t, claimed) := ClaimAll(s, w, ids, minIdle);
      && t == s.(pending := t.pending) && t.pending.Keys == s.pending.Keys
      && (forall id :: id in s.pending && id !in ids ==> t.pending[id] == s.pending[id])
      && (forall id :: id in s.pending ==> t.pending[id] == s.pending[id] || t.pending[id] == Pending(w, s.clock))
      && (forall id :: id in claimed ==> id in ids && id in t.pending && t.pending[id] == Pending(w, s.clock))
    decreases ids
  {
    if ids != [] {
      ClaimAllFrame(ClaimOne(s, w, ids[0], minIdle), w, ids[1..], minIdle);
    }
  }

  lemma ReadNewUnfolds(s: Store, w: Worker, count: nat, ids: seq<StreamId>)
    requires 0 < count && NextEntry(s, s.delivered + 1).Some?
    ensures var id := NextEntry(s, s.delivered + 1).value;
      var later := ReadNew(Deliver(s, w, id), w, count - 1);
      ReadNew(s, w, count).0 == later.0 && ids + ReadNew(s, w, count).1 == (ids + [id]) + later.1
  {
  }

  function Handed(ids: seq<StreamId>, w: Worker, at: nat): map<StreamId, Pending> {
    map id | id in ids :: Pending(w, at)
  }

  lemma HandedCons(m: map<StreamId, Pending>, id: StreamId, rest: seq<StreamId>, w: Worker, at: nat)
    ensures m[id := Pending(w, at)] + Handed(rest, w, at) == m + Handed([id] + rest, w, at)
  {
  }

  /** Distinct idle ids are all claimed, in the order given, and nothing else changes. */
  lemma {:induction false} ClaimAllTakesAll(s: Store, w: Worker, ids: seq<StreamId>, minIdle: nat)
    requires forall id :: id in ids ==> Claimable(s, id, minIdle)
    requires Ascending(ids)
    ensures ClaimAll(s, w, ids, minIdle) == (s.(pending := s.pending + Handed(ids, w, s.clock)), ids)
    decreases ids
  {
    if ids == [] {
      assert s.pending + Handed(ids, w, s.clock) == s.pending;
    } else {
      ClaimableTail(s, w, ids, minIdle);
      assert ids[0] in ids;
      ClaimAllTakesAll(ClaimOne(s, w, ids[0], minIdle), w, ids[1..], minIdle);
      HandedCons(s.pending, ids[0], ids[1..], w, s.clock);
      assert ids == [ids[0]] + ids[1..];
    }
  }

  lemma ClaimableTail(s: Store, w: Worker, ids: seq<StreamId>, minIdle: nat)
    requires ids != [] && Ascending(ids) && forall id :: id in ids ==> Claimable(s, id, minIdle)
    ensures Ascending(ids[1..])
    ensures forall id :: id in ids[1..] ==> Claimable(ClaimOne(s, w, ids[0], minIdle), id, minIdle)
  {
    forall id | id in ids[1..] ensures id in ids && id != ids[0] {
      var i :| 0 <= i < |ids[1..]| && ids[1..][i] == id;
      assert ids[0] < ids[i + 1];
    }
  }

  /** XREADGROUP only adds pending entries, all of them the reader's and all past the last delivered id. */
  lemma {:induction false} ReadNewFrame(s: Store, w: Worker, count: nat)
    ensures var (t, ids) := ReadNew(s, w, count);
      && t == s.(pending := s.pending + Handed(ids, w, s.clock), delivered := t.delivered)
      && |ids| <= count && s.delivered <= t.delivered
      && (forall id :: id in ids ==> id in s.stream && s.delivered < id <= t.delivered)
    decreases count
  {
    var next := NextEntry(s, s.delivered + 1);
    if count == 0 || next.None? {
      assert ReadNew(s, w, count) == (s, []);
      assert s.pending + Handed([], w, s.clock) == s.pending;
    } else {
      var s1 := Deliver(s, w, next.value);
      var (t, rest) := ReadNew(s1, w, count - 1);
      assert ReadNew(s, w, count) == (t, [next.value] + rest);
      ReadNewFrame(s1, w, count - 1);
      HandedCons(s.pending, next.value, rest, w, s.clock);
    }
  }

  /** XREADGROUP skips nothing: every entry the last delivered id moved over was handed out. */
  lemma {:induction false} ReadNewSkipsNothing(s: Store, w: Worker, count: nat, id: StreamId)
    requires s.delivered < id <= s.lastId && id in s.stream
    ensures id <= ReadNew(s, w, count).0.delivered ==> id in ReadNew(s, w, count).1
    decreases count
  {
    var next := NextEntry(s, s.delivered + 1);
    NextEntryIsFirst(s, s.delivered + 1, id);
    if count != 0 {
      var s1 := Deliver(s, w, next.value);
      var (t, rest) := ReadNew(s1, w, count - 1);
      assert ReadNew(s, w, count) == (t, [next.value] + rest);
      if id != next.value {
        ReadNewSkipsNothing(s1, w, count - 1, id);
      }
    }
  }

  lemma AscendingCons(id: StreamId, rest: seq<StreamId>)
    requires Ascending(rest) && (rest != [] ==> id < rest[0])
    ensures Ascending([id] + rest)
  {
    forall i | 0 <= i < |rest| ensures id < rest[i] {
      assert rest[0] <= rest[i];
    }
  }

  lemma {:induction false} ReadNewAscends(s: Store, w: Worker, count: nat)
    ensures var ids := ReadNew(s, w, count).1;
      && Ascending(ids)
      && (ids == [] <==> count == 0 || NextEntry(s, s.delivered + 1).None?)
      && (ids != [] ==> s.delivered < ids[0])
    decreases count
  {
    var next := NextEntry(s, s.delivered + 1);
    if count != 0 && next.Some? {
      var s1 := Deliver(s, w, next.value);
      var rest := ReadNew(s1, w, count - 1).1;
      assert ReadNew(s, w, count).1 == [next.value] + rest;
      ReadNewAscends(s1, w, count - 1);
      AscendingCons(next.value, rest);
    }
  }

  /** A scan reads its list in order: what it chose are idle entries of the part it walked, none twice,
      and what it left is the rest of the list. */
  lemma {:induction false} ScanIsExact(s: Store, pel: seq<StreamId>, attempts: nat, count: nat, minIdle: nat)
    requires Ascending(pel)
    ensures var (ids, rest) := Scan(s, pel, attempts, count, minIdle);
      && |ids| <= count && |ids| + |rest| <= |pel|
      && rest == pel[|pel| - |rest|..]
      && Ascending(ids)
      && (forall id :: id in ids ==> id in pel[..|pel| - |rest|] && Claimable(s, id, minIdle))
    decreases pel
  {
    if pel == [] || attempts == 0 || count == 0 {
    } else {
      var tail := pel[1..];
      var chosen := Claimable(s, pel[0], minIdle);
      var (ids, rest) := Scan(s, tail, attempts - 1, if chosen then count - 1 else count, minIdle);
      ScanIsExact(s, tail, attempts - 1, if chosen then count - 1 else count, minIdle);
      var walked := pel[..|pel| - |rest|];
      assert tail[..|tail| - |rest|] == walked[1..];
      assert pel[0] == walked[0];
      forall i | 0 <= i < |ids| ensures pel[0] < ids[i] {
        assert ids[i] in ids && ids[i] in walked[1..];
      }
    }
  }

  /** XAUTOCLAIM claims exactly what its scan chose: idle entries at or after the start, at most `count` of them. */
  lemma AutoClaimIsExact(s: Store, w: Worker, minIdle: nat, start: StreamId, count: nat)
    ensures var pel := PendingFrom(s, start);
      var (ids, rest) := Scan(s, pel, 10 * count, count, minIdle);
      && AutoClaim(s, w, minIdle, start, count)
         == (s.(pending := s.pending + Handed(ids, w, s.clock)), if rest == [] then 0 else rest[0], ids)
      && Ascending(ids) && |ids| <= count && |ids| <= |pel|
      && (forall id :: id in ids ==> id in s.pending && Claimable(s, id, minIdle))
  {
    PendingFromIsExact(s, start);
    ScanIsExact(s, PendingFrom(s, start), 10 * count, count, minIdle);
    ClaimAllTakesAll(s, w, Scan(s, PendingFrom(s, start), 10 * count, count, minIdle).0, minIdle);
  }

  // ----- the queue object

  /** A blocking read that finds nothing: BLOCK 0 waits without limit, and the socket gives up after its own timeout. */
  predicate TimesOut(blockMs: nat, socketTimeout: nat) {
    blockMs == 0 || socketTimeout <= blockMs
  }

  function Waited(blockMs: nat, socketTimeout: nat): nat {
    if TimesOut(blockMs, socketTimeout) then socketTimeout else blockMs
  }

  datatype ReadResult = Received(messages: seq<Message>) | InvalidArgument | Unavailable

  class RedisStreamJobQueue {
    var jobs: map<JobId, Stored>
    var stream: map<StreamId, Entry>
    var lastId: StreamId
    var delivered: StreamId
    var pending: map<StreamId, Pending>
    var clock: nat
    const ttl: nat
    const socketTimeout: nat

    ghost function Contents(): Store
      reads this
    {
      Store(jobs, stream, lastId, delivered, pending, clock)
    }

    ghost predicate Valid()
      reads this
    {
      WellFormed(Contents())
    }

    constructor (jobTtl: nat, timeout: nat)
      ensures Valid() && Contents() == EMPTY && ttl == jobTtl && socketTimeout == timeout
    {
      ttl, socketTimeout := jobTtl, timeout;
      jobs, stream, lastId, delivered, pending, clock := map[], map[], 0, 0, map[], 0;
    }

    method Enqueue(job: JobId, payload: Payload, stamp: nat) returns (state: Record)
      requires Valid()
      modifies this
      ensures Valid()
      ensures Contents() == Enqueued(old(Contents()), job, payload, stamp, ttl)
      ensures state == QueuedRecord(job, stamp)
    {
      state := QueuedRecord(job, stamp);
      jobs := jobs[job := Stored(state, clock + ttl)];
      lastId := lastId + 1;
      stream := stream[lastId := Entry(job, payload, stamp)];
    }

    method GetJob(job: JobId) returns (state: Option<Record>)
      ensures state == Get(Contents(), job)
    {
      if job !in jobs || jobs[job].expiresAt < clock {
        state := None;
      } else {
        state := Some(jobs[job].record);
      }
    }

    /** `read_new`.  A read that finds nothing waits; when the socket gives up first the call is an error. */
    method ReadNewMessages(w: Worker, count: int, blockMs: int) returns (r: ReadResult)
      requires Valid()
      modifies this
      ensures Valid()
      ensures count <= 0 || blockMs < 0 <==> r.InvalidArgument?
      ensures r.InvalidArgument? ==> Contents() == old(Contents())
      ensures !r.InvalidArgument? ==>
        var (t, ids) := ReadNew(old(Contents()), w, count);
        && (r.Unavailable? <==> ids == [] && TimesOut(blockMs, socketTimeout))
        && Contents() == (if ids == [] then t.(clock := t.clock + Waited(blockMs, socketTimeout)) else t)
        && (r.Received? ==> (forall id :: id in ids ==> id in stream) && r.messages == Messages(Contents(), ids, false))
    {
      if count <= 0 || blockMs < 0 {
        return InvalidArgument;
      }
      ReadNewFrame(Contents(), w, count);
      var ids := XReadGroup(w, count);
      if ids == [] {
        clock := clock + Waited(blockMs, socketTimeout);
        if TimesOut(blockMs, socketTimeout) {
          return Unavailable;
        }
        return Received([]);
      }
      var messages := Fetch(ids, false);
      return Received(messages);
    }

    method XReadGroup(w: Worker, count: nat) returns (ids: seq<StreamId>)
      modifies this`delivered, this`pending
      ensures (Contents(), ids) == ReadNew(old(Contents()), w, count)
    {
      ghost var s0 := Contents();
      ids := [];
      assert ids + ReadNew(s0, w, count).1 == ReadNew(s0, w, count).1;
      var next := FirstAfter(delivered);
      while |ids| < count && next.Some?
        invariant |ids| <= count
        invariant next == NextEntry(Contents(), delivered + 1)
        invariant ReadNew(s0, w, count).0 == ReadNew(Contents(), w, count - |ids|).0
        invariant ReadNew(s0, w, count).1 == ids + ReadNew(Contents(), w, count - |ids|).1
        decreases count - |ids|
      {
        ReadNewUnfolds(Contents(), w, count - |ids|, ids);
        HandOut(w, next.value);
        ids := ids + [next.value];
        next := FirstAfter(delivered);
      }
      assert ids + [] == ids;
    }

    method HandOut(w: Worker, id: StreamId)
      modifies this`delivered, this`pending
      ensures Contents() == Deliver(old(Contents()), w, id)
    {
      delivered := id;
      pending := pending[id := Pending(w, clock)];
    }

    method FirstAfter(id: StreamId) returns (next: Option<StreamId>)
      ensures next == NextEntry(Contents(), id + 1)
    {
      var k := id + 1;
      while k <= lastId && k !in stream
        invariant id + 1 <= k
        invariant NextEntry(Contents(), id + 1) == NextEntry(Contents(), k)
        decreases lastId + 1 - k
      {
        k := k + 1;
      }
      next := if k <= lastId then Some(k) else None;
    }

    method Fetch(ids: seq<StreamId>, reclaimed: bool) returns (messages: seq<Message>)
      requires forall id :: id in ids ==> id in stream
      ensures messages == Messages(Contents(), ids, reclaimed)
    {
      messages := [];
      for i := 0 to |ids|
        invariant |messages| == i
        invariant forall k :: 0 <= k < i ==> messages[k] == Message(ids[k], stream[ids[k]], reclaimed)
      {
        messages := messages + [Message(ids[i], stream[ids[i]], reclaimed)];
      }
    }

    method XPending(from: StreamId) returns (ids: seq<StreamId>)
      ensures ids == PendingFrom(Contents(), from)
    {
      ids := [];
      var k := from;
      ghost var s0 := Contents();
      assert ids + PendingFrom(s0, k) == PendingFrom(s0, k);
      while k <= lastId
        invariant PendingFrom(s0, from) == ids + PendingFrom(s0, k)
        decreases lastId + 1 - k
      {
        ghost var rest := PendingFrom(s0, k + 1);
        if k in pending {
          assert ids + ([k] + rest) == (ids + [k]) + rest;
          ids := ids + [k];
        }
        k := k + 1;
      }
      assert ids + [] == ids;
    }

    method XClaim(w: Worker, minIdle: nat, ids: seq<StreamId>) returns (claimed: seq<StreamId>)
      requires Valid()
      modifies this`pending
      ensures Valid()
      ensures (Contents(), claimed) == ClaimAll(old(Contents()), w, ids, minIdle)
    {
      ghost var s0 := Contents();
      claimed := [];
      assert ids[0..] == ids && claimed + ClaimAll(s0, w, ids, minIdle).1 == ClaimAll(s0, w, ids, minIdle).1;
      for i := 0 to |ids|
        invariant Valid()
        invariant Contents() == s0.(pending := pending)
        invariant ClaimAll(s0, w, ids, minIdle)
               == (ClaimAll(Contents(), w, ids[i..], minIdle).0, claimed + ClaimAll(Contents(), w, ids[i..], minIdle).1)
      {
        ghost var before := Contents();
        ghost var (t, later) := ClaimAll(ClaimOne(before, w, ids[i], minIdle), w, ids[i..][1..], minIdle);
        if ids[i] in pending && clock - pending[ids[i]].deliveredAt >= minIdle {
          assert claimed + ([ids[i]] + later) == (claimed + [ids[i]]) + later;
          claimed := claimed + [ids[i]];
          pending := pending[ids[i] := Pending(w, clock)];
        }
        assert Contents() == ClaimOne(before, w, ids[i], minIdle);
        assert ids[i..][1..] == ids[i + 1..];
      }
      assert claimed + [] == claimed;
    }

    /** `reclaim_idle` on a server that has XAUTOCLAIM. */
    method ReclaimIdle(
        w: Worker, minIdle: nat, start: StreamId, count: nat)
      returns (cursor: StreamId, messages: seq<Message>)
      requires Valid() && 0 < count
      modifies this`pending
      ensures Valid()
      ensures var (t, next, ids) := AutoClaim(old(Contents()), w, minIdle, start, count);
        && Contents() == t && cursor == next
        && (forall id :: id in ids ==> id in stream) && messages == Messages(t, ids, true)
    {
      ghost var s0 := Contents();
      var pel := XPending(start);
      var ids, rest := ScanIdle(pel, minIdle, count);
      cursor := if rest == [] then 0 else rest[0];
      var claimed := XClaim(w, minIdle, ids);
      ClaimAllFrame(s0, w, ids, minIdle);
      messages := Fetch(claimed, true);
    }

    method ScanIdle(pel: seq<StreamId>, minIdle: nat, count: nat) returns (ids: seq<StreamId>, rest: seq<StreamId>)
      ensures (ids, rest) == Scan(Contents(), pel, 10 * count, count, minIdle)
    {
      ghost var s0 := Contents();
      var attempts: nat := 10 * count;
      ids, rest := [], pel;
      assert ids + Scan(s0, pel, attempts, count, minIdle).0 == Scan(s0, pel, attempts, count, minIdle).0;
      while rest != [] && 0 < attempts && |ids| < count
        invariant |ids| <= count
        invariant Scan(s0, pel, 10 * count, count, minIdle)
               == (ids + Scan(s0, rest, attempts, count - |ids|, minIdle).0,
                   Scan(s0, rest, attempts, count - |ids|, minIdle).1)
        decreases attempts
      {
        var id := rest[0];
        rest, attempts := rest[1..], attempts - 1;
        if id in pending && clock - pending[id].deliveredAt >= minIdle {
          ghost var later := Scan(s0, rest, attempts, count - |ids| - 1, minIdle).0;
          assert ids + ([id] + later) == (ids + [id]) + later;
          ids := ids + [id];
        }
      }
      assert ids + [] == ids;
    }

    /** `_reclaim_idle_legacy`: XPENDING, then XCLAIM of the idle entries it listed. */
    method ReclaimIdleLegacy(
        w: Worker, minIdle: nat, start: StreamId, count: nat)
      returns (cursor: StreamId, messages: seq<Message>)
      requires Valid() && 0 < count
      modifies this`pending
      ensures Valid()
      ensures var (t, next, ids) := LegacyReclaim(old(Contents()), w, minIdle, start, count);
        && Contents() == t && cursor == next
        && (forall id :: id in ids ==> id in stream) && messages == Messages(t, ids, true)
    {
      ghost var s0 := Contents();
      var listed := XPending(if start == 0 then 0 else start + 1);
      if |listed| > count {
        listed := listed[..count];
      }
      cursor := LegacyCursor(listed, count);
      var candidates := [];
      assert listed[0..] == listed;
      for i := 0 to |listed|
        invariant IdleOnly(s0, listed, minIdle) == candidates + IdleOnly(s0, listed[i..], minIdle)
      {
        ghost var later := IdleOnly(s0, listed[i..][1..], minIdle);
        assert listed[i..][1..] == listed[i + 1..];
        if listed[i] in pending && clock - pending[listed[i]].deliveredAt >= minIdle {
          assert candidates + ([listed[i]] + later) == (candidates + [listed[i]]) + later;
          candidates := candidates + [listed[i]];
        }
      }
      assert candidates + [] == candidates;
      var claimed := XClaim(w, minIdle, candidates);
      ClaimAllFrame(s0, w, candidates, minIdle);
      messages := Fetch(claimed, true);
    }

    /** `mark_running`: GET, then the ownership script. */
    method MarkRunning(message: Message, w: Worker, token: Token, stamp: nat) returns (lease: Option<Lease>)
      requires Valid()
      modifies this`jobs
      ensures Valid()
      ensures Contents() == Marked(old(Contents()), w, message.id, message.entry, token, stamp, ttl)
      ensures lease == if Owns(old(Contents()), w, message.id)
                       then Some(Lease(message.id, message.entry.job, w, token)) else None
    {
      var state := GetJob(message.entry.job);
      if state.None? {
        state := Some(QueuedRecord(message.entry.job, message.entry.createdAt));
      }
      var running := state.value.(status := Running, updatedAt := stamp, attempts := state.value.attempts + 1,
                                  worker := Some(w), token := Some(token));
      // the script
      if message.id !in pending || pending[message.id].owner != w {
        return None;
      }
      jobs := jobs[message.entry.job := Stored(running, clock + ttl)];
      return Some(Lease(message.id, message.entry.job, w, token));
    }

    /** `complete` and `fail`: GET and compare the token, then the finalize script. */
    method Finalize(lease: Lease, outcome: Outcome, stamp: nat) returns (done: bool)
      requires Valid()
      modifies this
      ensures Valid()
      ensures Contents() == Finalized(old(Contents()), lease, outcome, stamp, ttl)
      ensures done <==> CanFinalize(old(Contents()), lease)
    {
      var state := GetJob(lease.job);
      if state.None? || state.value.token != Some(lease.token) {
        return false;
      }
      var terminal := Finished(state.value, lease.worker, outcome, stamp);
      // the script
      if lease.id !in pending || pending[lease.id].owner != lease.worker {
        return false;
      }
      var current := GetJob(lease.job);
      if current.None? || current.value.token != Some(lease.token) {
        return false;
      }
      jobs := jobs[lease.job := Stored(terminal, clock + ttl)];
      pending := pending - {lease.id};
      stream := stream - {lease.id};
      return true;
    }

    /** Time passes on the server. */
    method Elapse(ms: nat)
      requires Valid()
      modifies this`clock
      ensures Valid() && Contents() == old(Contents()).(clock := old(clock) + ms)
    {
      clock := clock + ms;
    }
  }
}
