/** The job queue as a protocol: any number of workers and producers over one store.

    A worker is single-threaded and alternates Python code with atomic Redis commands, so the only places where
    others can interfere are between the two commands of `mark_running`, of `complete`/`fail` and of the legacy
    reclaim.  `Phase` is where a worker stands in between.  A crash, an error reply and a lost reply all put the
    worker back to `Ready`; whatever its commands did stays done.  Record expiry is the passing of time.
    The model lets a worker attempt more than the source does (any accepted entry, any lease ever granted to its
    name), so every theorem covers the source's runs.  `log` is history: it records what happened and is never read
    by a step, except to keep delivery tokens fresh. */
module JobQueueProtocol {
  import opened Options
  import opened JobQueue
  import H = History

  datatype Phase =
    | Ready
    | Marking(id: StreamId, read: Option<Record>)
    | Finalizing(lease: Lease, record: Record, outcome: Outcome, stamp: nat)
    | Claiming(candidates: seq<StreamId>, minIdle: nat)

  datatype Event =
    | Handout(id: StreamId, worker: Worker, at: nat, minIdle: nat)
    | Grant(id: StreamId, worker: Worker, token: Token, record: Record, rebuilt: bool)
    | Commit(id: StreamId, token: Token, outcome: Outcome, stamp: nat, record: Record)

  type Log = H.Log<Event>

  datatype System = System(
    store: Store, phases: map<Worker, Phase>, accepted: map<StreamId, Entry>, log: Log, ttl: nat)

  datatype Step =
    | Enqueue(job: JobId, payload: Payload, stamp: nat)
    | Tick(ms: nat)
    | Read(worker: Worker, count: nat)
    | Reclaim(worker: Worker, minIdle: nat, start: StreamId, count: nat)
    | LegacyInspect(worker: Worker, minIdle: nat, start: StreamId, count: nat)
    | LegacyClaim(worker: Worker)
    | MarkGet(worker: Worker, id: StreamId)
    | MarkScript(worker: Worker, token: Token, stamp: nat)
    | FinalGet(worker: Worker, token: Token, outcome: Outcome, stamp: nat)
    | FinalScript(worker: Worker)
    | Crash(worker: Worker)

  // ----- questions about the history

  function LastGrant(log: Log, id: StreamId): (r: Option<Event>)
    ensures r.Some? ==> r.value.Grant? && r.value.id == id
  {
    match log
    case Start => None
    case Then(l, e) => if e.Grant? && e.id == id then Some(e) else LastGrant(l, id)
  }

  function GrantOf(log: Log, token: Token): (r: Option<Event>)
    ensures r.Some? ==> r.value.Grant? && r.value.token == token
  {
    match log
    case Start => None
    case Then(l, e) => if e.Grant? && e.token == token then Some(e) else GrantOf(l, token)
  }

  function LastHandout(log: Log, id: StreamId): (r: Option<Event>)
    ensures r.Some? ==> r.value.Handout? && r.value.id == id
  {
    match log
    case Start => None
    case Then(l, e) => if e.Handout? && e.id == id then Some(e) else LastHandout(l, id)
  }

  function Final(log: Log, id: StreamId): (r: Option<Event>)
    ensures r.Some? ==> r.value.Commit? && r.value.id == id
  {
    match log
    case Start => None
    case Then(l, e) => if e.Commit? && e.id == id then Some(e) else Final(l, id)
  }

  function Commits(log: Log, id: StreamId): nat {
    match log
    case Start => 0
    case Then(l, e) => Commits(l, id) + if e.Commit? && e.id == id then 1 else 0
  }

  /** How many leases were granted for an entry since its record was last created: by the enqueue, or rebuilt
      by a `mark_running` that found the key expired. */
  function LeasesSinceCreation(log: Log, id: StreamId): nat {
    match log
    case Start => 0
    case Then(l, e) =>
      if e.Grant? && e.id == id then (if e.rebuilt then 1 else LeasesSinceCreation(l, id) + 1)
      else LeasesSinceCreation(l, id)
  }

  predicate Untouched(log: Log, id: StreamId) {
    match log
    case Start => true
    case Then(l, e) => e.id != id && Untouched(l, id)
  }

  /** `log` continues `earlier`. */
  predicate Extends(log: Log, earlier: Log) {
    log == earlier || (log.Then? && Extends(log.earlier, earlier))
  }

  /** What every event must satisfy in view of the events before it. */
  predicate Sound(log: Log) {
    match log
    case Start => true
    case Then(l, e) =>
      Sound(l) && Final(l, e.id).None? && SoundEvent(l, e)
  }

  predicate SoundEvent(l: Log, e: Event) {
    match e
    case Handout(id, w, at, minIdle) =>
      LastHandout(l, id).Some? ==> at - LastHandout(l, id).value.at >= minIdle
    case Grant(id, w, token, record, rebuilt) =>
      && GrantOf(l, token).None?
      && LastHandout(l, id).Some? && LastHandout(l, id).value.worker == w
      && record.status.Running? && record.token == Some(token) && record.worker == Some(w)
      && record.attempts == if rebuilt then 1 else LeasesSinceCreation(l, id) + 1
    case Commit(id, token, outcome, stamp, record) =>
      && LastGrant(l, id).Some?
      && LastGrant(l, id).value.token == token
      && LastHandout(l, id).Some? && LastHandout(l, id).value.worker == LastGrant(l, id).value.worker
      && record == Finished(LastGrant(l, id).value.record, LastGrant(l, id).value.worker, outcome, stamp)
  }

  // ----- the steps

  function Init(ttl: nat): System {
    System(EMPTY, map[], map[], H.Start, ttl)
  }

  function PhaseOf(y: System, w: Worker): Phase {
    if w in y.phases then y.phases[w] else Ready
  }

  function At(y: System, w: Worker, phase: Phase): System {
    y.(phases := y.phases[w := phase])
  }

  predicate FreshJob(y: System, job: JobId) {
    forall id :: id in y.accepted ==> y.accepted[id].job != job
  }

  function DoEnqueue(y: System, job: JobId, payload: Payload, stamp: nat): System {
    y.(store := Enqueued(y.store, job, payload, stamp, y.ttl),
       accepted := y.accepted[y.store.lastId + 1 := Entry(job, payload, stamp)])
  }

  function DoTick(y: System, ms: nat): System {
    y.(store := y.store.(clock := y.store.clock + ms))
  }

  function DoDeliver(y: System, w: Worker, id: StreamId): System {
    y.(store := Deliver(y.store, w, id), log := H.Then(y.log, Handout(id, w, y.store.clock, 0)))
  }

  function DoRead(y: System, w: Worker, count: nat): System
    decreases count
  {
    var next := NextEntry(y.store, y.store.delivered + 1);
    if count == 0 || next.None? then y else DoRead(DoDeliver(y, w, next.value), w, count - 1)
  }

  function DoClaimOne(y: System, w: Worker, id: StreamId, minIdle: nat): System {
    if Claimable(y.store, id, minIdle)
    then y.(store := ClaimOne(y.store, w, id, minIdle), log := H.Then(y.log, Handout(id, w, y.store.clock, minIdle)))
    else y
  }

  function DoClaim(y: System, w: Worker, ids: seq<StreamId>, minIdle: nat): System
    decreases ids
  {
    if ids == [] then y else DoClaim(DoClaimOne(y, w, ids[0], minIdle), w, ids[1..], minIdle)
  }

  function DoMarkGet(y: System, w: Worker, id: StreamId): System
    requires id in y.accepted
  {
    At(y, w, Marking(id, Get(y.store, y.accepted[id].job)))
  }

  function DoMarkScript(y: System, w: Worker, token: Token, stamp: nat): System
    requires PhaseOf(y, w).Marking? && PhaseOf(y, w).id in y.accepted
  {
    var Marking(id, read) := PhaseOf(y, w);
    var entry := y.accepted[id];
    var record := Leased(read, entry, w, token, stamp);
    var log := if Owns(y.store, w, id) then H.Then(y.log, Grant(id, w, token, record, read.None?)) else y.log;
    At(y.(store := MarkEval(y.store, w, id, entry.job, record, y.ttl), log := log), w, Ready)
  }

  function DoFinalGet(y: System, w: Worker, token: Token, outcome: Outcome, stamp: nat): System
    requires GrantOf(y.log, token).Some? && GrantOf(y.log, token).value.id in y.accepted
  {
    var id := GrantOf(y.log, token).value.id;
    var job := y.accepted[id].job;
    var read := Get(y.store, job);
    if read.None? || read.value.token != Some(token) then y
    else At(y, w, Finalizing(Lease(id, job, w, token), Finished(read.value, w, outcome, stamp), outcome, stamp))
  }

  function DoFinalScript(y: System, w: Worker): System
    requires PhaseOf(y, w).Finalizing?
  {
    var Finalizing(lease, record, outcome, stamp) := PhaseOf(y, w);
    var log := if CanFinalize(y.store, lease)
               then H.Then(y.log, Commit(lease.id, lease.token, outcome, stamp, record)) else y.log;
    At(y.(store := FinalEval(y.store, lease, record, y.ttl), log := log), w, Ready)
  }

  predicate Enabled(y: System, step: Step) {
    match step
    case Enqueue(job, _, _) => FreshJob(y, job)
    case Tick(_) => true
    case Read(w, _) => PhaseOf(y, w).Ready?
    case Reclaim(w, _, _, _) => PhaseOf(y, w).Ready?
    case LegacyInspect(w, _, _, _) => PhaseOf(y, w).Ready?
    case LegacyClaim(w) => PhaseOf(y, w).Claiming?
    case MarkGet(w, id) => PhaseOf(y, w).Ready? && id in y.accepted
    case MarkScript(w, token, _) => PhaseOf(y, w).Marking? && PhaseOf(y, w).id in y.accepted
      && GrantOf(y.log, token).None?
    case FinalGet(w, token, _, _) =>
      && PhaseOf(y, w).Ready?
      && GrantOf(y.log, token).Some?
      && GrantOf(y.log, token).value.worker == w && GrantOf(y.log, token).value.id in y.accepted
    case FinalScript(w) => PhaseOf(y, w).Finalizing?
    case Crash(_) => true
  }

  /** One step of the system; a step that is not enabled does nothing. */
  function Next(y: System, step: Step): System {
    if !Enabled(y, step) then y
    else match step
      case Enqueue(job, payload, stamp) => DoEnqueue(y, job, payload, stamp)
      case Tick(ms) => DoTick(y, ms)
      case Read(w, count) => DoRead(y, w, count)
      case Reclaim(w, minIdle, start, count) =>
        DoClaim(y, w, Scan(y.store, PendingFrom(y.store, start), 10 * count, count, minIdle).0, minIdle)
      case LegacyInspect(w, minIdle, start, count) =>
        At(y, w, Claiming(IdleOnly(y.store, LegacyListed(y.store, start, count), minIdle), minIdle))
      case LegacyClaim(w) =>
        At(DoClaim(y, w, PhaseOf(y, w).candidates, PhaseOf(y, w).minIdle), w, Ready)
      case MarkGet(w, id) => DoMarkGet(y, w, id)
      case MarkScript(w, token, stamp) => DoMarkScript(y, w, token, stamp)
      case FinalGet(w, token, outcome, stamp) => DoFinalGet(y, w, token, outcome, stamp)
      case FinalScript(w) => DoFinalScript(y, w)
      case Crash(w) => At(y, w, Ready)
  }

  function Run(y: System, steps: seq<Step>): System
    decreases steps
  {
    if steps == [] then y else Run(Next(y, steps[0]), steps[1..])
  }

  // ----- the invariant

  /** The record an entry's key holds whenever it is there at all. */
  function Expected(log: Log, id: StreamId, entry: Entry): Record {
    if Final(log, id).Some? then Final(log, id).value.record
    else if LastGrant(log, id).Some? then LastGrant(log, id).value.record
    else QueuedRecord(entry.job, entry.createdAt)
  }

  predicate Undelivered(y: System, id: StreamId) {
    id in y.store.stream && id !in y.store.pending && y.store.delivered < id
  }

  predicate InFlight(y: System, id: StreamId) {
    id in y.store.stream && id in y.store.pending && id <= y.store.delivered
  }

  predicate Done(y: System, id: StreamId) {
    id !in y.store.stream && id !in y.store.pending && id <= y.store.delivered
  }

  predicate EntryInv(y: System, id: StreamId)
    requires id in y.accepted
  {
    && 0 < id <= y.store.lastId
    && (if Final(y.log, id).Some? then Done(y, id) else Undelivered(y, id) || InFlight(y, id))
    && (id in y.store.stream ==> y.store.stream[id] == y.accepted[id])
    && (Undelivered(y, id) ==> Untouched(y.log, id))
    && (id in y.store.pending ==>
          && LastHandout(y.log, id).Some?
          && LastHandout(y.log, id).value.worker == y.store.pending[id].owner
          && LastHandout(y.log, id).value.at == y.store.pending[id].deliveredAt <= y.store.clock)
    && (Get(y.store, y.accepted[id].job).Some? ==>
          Get(y.store, y.accepted[id].job).value == Expected(y.log, id, y.accepted[id]))
  }

  predicate WorkerInv(y: System, w: Worker) {
    match PhaseOf(y, w)
    case Ready => true
    case Claiming(_, _) => true
    case Marking(id, read) =>
      && id in y.accepted
      && (Owns(y.store, w, id) ==>
            if read.Some? then read.value == Expected(y.log, id, y.accepted[id])
            else Get(y.store, y.accepted[id].job).None?)
    case Finalizing(lease, record, outcome, stamp) =>
      && lease.worker == w
      && GrantOf(y.log, lease.token).Some?
      && GrantOf(y.log, lease.token).value.id == lease.id && GrantOf(y.log, lease.token).value.worker == w
      && lease.id in y.accepted && lease.job == y.accepted[lease.id].job
      && record == Finished(GrantOf(y.log, lease.token).value.record, w, outcome, stamp)
  }

  ghost predicate Global(y: System) {
    && Sound(y.log)
    && y.store.delivered <= y.store.lastId
    && (forall id :: id in y.store.stream ==> id in y.accepted)
    && (forall id :: id in y.store.pending ==> id in y.accepted)
    && (forall id :: id in y.accepted <==> 0 < id <= y.store.lastId)
    && (forall id, other :: id in y.accepted && other in y.accepted && id != other ==>
      y.accepted[id].job != y.accepted[other].job)
    && (forall id :: id !in y.accepted ==> Untouched(y.log, id))
  }

  ghost predicate Inv(y: System) {
    && Global(y)
    && (forall id :: id in y.accepted ==> EntryInv(y, id))
    && (forall w :: WorkerInv(y, w))
  }
}
