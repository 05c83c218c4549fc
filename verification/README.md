# Verified model of the inference service's queue, breakers and schedulers

This project models the parts of the service whose guarantees hold only because several steps fit together, and proves
what they guarantee:

- **The Redis Stream job queue** (`app/redis_stream_jobs.py`, `app/job_worker.py`). `JobQueue` holds the part of Redis the
  queue uses and every command and Lua script on it, first as functions and then as the methods of
  `RedisStreamJobQueue`. `JobQueueProtocol` interleaves any number of workers and producers: enqueue, read, reclaim, both
  halves of `mark_running`, of `complete`/`fail` and of the legacy reclaim, crash or lost reply, passing time and with it
  record expiry. `JobQueueInvariant` proves the inductive invariant, `JobQueueTheorems` the guarantees over every run.
  `JobRecords` and `JobResults` say field by field what the records hold, `ReclaimSweep` how far a reclaim gets.
  `JobWorker` is `process_once`; `JobRound` says what one undisturbed call does, `JobDrain` when repeating it empties the
  stream, `JobRecovery` the same after any run; `Preemption`, `LateMessage` and `TimeoutBudget` tie the reclaim threshold
  to the controller's worst case.
- **The shared circuit breaker** (`app/redis_circuit_breaker.py`). `SharedBreaker` holds the four scripts,
  `SharedBreakerTheorems` their guarantees over every interleaving of requests and of results under permits of any age,
  `RoutedBreaker` the gateway object that falls back to its local breaker, `RoutedRuns` where its permits and results go.
- **The process-local breaker and the controller** (`app/resilience.py`). `LocalBreaker`, `LocalBreakerTheorems`,
  `BreakerSimulation` (where the two breakers agree), `Controller` (`execute`, and the load on the primary in an outage) and
  `ExecuteAnswers` (what the caller gets back).
- **The two batching simulations** (`scripts/scheduler_simulation.py`): `Requests`, `StaticBatching`,
  `ContinuousBatching`, `ContinuousTheorems`, `ContinuousTimes`.
- **The image size reader** (`JpegScan`, against ITU-T T.81 sections B.1.1.2, B.1.1.4 and B.2.2; `ImageHeaders` for PNG and
  WebP).
- **The INT8 quantiser** (`Quantizer`, `RmsNorm`), over the reals.

Every object that the source updates in place is a class whose methods are proved equal to a function of the old state;
the guarantees are lemmas about those functions and about runs of them. A clock is an integer that never goes back
(milliseconds of Redis for the queue and the shared breaker, ticks for the local breaker), simulated times are reals.

`dafny verify dfyconfig.toml` checks the whole project.

## What the code does not do

Proving the properties brought out where the code falls short of them. Each point is a lemma below.

- **Draining can jam.** When `process_once` has reclaimed something, but less than a batch, it reads new entries with
  `BLOCK 0`, which waits without limit. If nothing is new, the call ends in a socket timeout before it processes what it
  reclaimed. Whether a lone worker on a quiet stream ever empties it depends on how many pending entries are ahead of its
  reclaim cursor, how many behind, and how many entries are undelivered. With nothing undelivered, all pending entries must
  make up whole batches; otherwise those behind the cursor must, or some entry must still be undelivered when the worker
  comes back to them. `JobDrain.DrainsInTheEndExactlyWhen` says so for any cursor and any pauses, followed by a patient
  stretch; `JobDrain.DrainsExactlyWhen` counts the calls; `JobRecovery.ReachedDrainsExactlyWhen` carries it to every store
  that the protocol reaches. `JobDrain.PassedEntryIsLeft` and `JobDrain.ImpatientWorkerStalls` are inputs that show the
  cursor and the pause after a stall matter.
- **The legacy reclaim looks only at the head of the pending list.** Its cursor always restarts, so an idle entry behind
  `count` busy ones is out of its reach (`JobQueue.LegacyReclaimSeesOnlyTheHead`; input: `JobQueue.BusyHeadHidesIdleEntry`).
- **The default reclaim threshold covers the first message of a batch only.** The i-th message is safe in every run when i
  worst cases and the overhead stay below the threshold (`TimeoutBudget.MessageIsCommitted`); when i worst cases reach it, a
  run loses the i-th message (`TimeoutBudget.MessageIsLost`). `TimeoutBudget.MessageIsCoveredExactlyWhen` says for which
  policies and timeouts that is; with the shipped ones only for the first message
  (`TimeoutBudget.DefaultsCoverOneMessageOfABatch`).
- **Truncation of that threshold to whole milliseconds can take away a fraction of one**
  (`TimeoutBudget.DefaultCoversAllowanceExactlyWhen`; input: `TimeoutBudget.TruncationLosesHalfAMillisecond`).
- **The local breaker reports a refusal time of 0 while a probe is in flight**, and a probe whose result is never recorded
  makes it refuse every request until any result is recorded (`LocalBreakerTheorems.RefusalTimeIsExactOnlyWhileOpen`,
  `LocalBreakerTheorems.WedgedExactlyUntilReport`; a run that gets there: `LocalBreakerTheorems.WedgeIsReached`). The shared breaker never wedges; its half-open refusal time is what is
  left of the probe lease, which is one millisecond short of the moment a request is granted
  (`SharedBreakerTheorems.RefusalTimeIsExact`).
- **Static batching waits to fill its batch**; the docstring's rule, start as soon as the GPU is free and a request has
  arrived, is followed only by batches whose requests have all arrived by that moment
  (`StaticBatching.ResultStartsAsDocumentedExactlyWhen`; `StaticBatching.FirstRequestWaitsForTheSecond` is an input where it
  is not). The model follows the code.
- **The JPEG scan takes TEM and RSTn for segments with a length** (`JpegScan.OtherBareMarkersHideTheFrame`);
  `JpegScan.SizedExactlyWhen` says exactly which files get a size.
- **The fused kernel and its reference put different floors under the scale** (`Quantizer.FusedEqualsReferenceExactlyWhen`,
  `Quantizer.QuantisedAlikeExactlyWhen`; input: `Quantizer.SmallRowsDiffer`).

## Model

| member | source | states |
|---|---|---|
| `JobQueueInvariant.StepKeeps` | app/redis_stream_jobs.py:45-85 | one inductive invariant over store, workers in mid-method and history is kept by every atomic step: each command, each half of the GET-then-EVAL methods, crash, lost reply, clock |
| `JobQueueTheorems.EveryJobIsInExactlyOnePlace` | app/redis_stream_jobs.py:153-189 | after any run an accepted entry is exactly one of undelivered, pending, finalised; every pending id is still in the stream; at most one finalise took effect, and exactly one when it is finalised |
| `JobQueueTheorems.FinalRecordExtendsLatestLease` | app/redis_stream_jobs.py:416-502 | the terminal record is the latest lease's record, finished by that lease's worker, and its attempt count is the number of leases since the record was last created |
| `JobQueueTheorems.LeasesWithoutRebuild` | app/redis_stream_jobs.py:362-414 | when no worker found the record expired, that number is all leases ever granted |
| `JobResults.TerminalRecordAnswers` | app/redis_stream_jobs.py:416-502 | after any run, a finalised entry's record is about its job and holds the committed answer, result or error type and first 1000 characters of the message, from the latest lease's worker, at the commit's stamp; and that is what a read returns until it expires |
| `JobResults.OpenRecordWaitsOrRuns` | app/redis_stream_jobs.py:362-414 | after any run, the live record of an entry not finalised is queued with no attempts, or running under its latest lease, with no answer |
| `JobQueueTheorems.TerminalRecordNeverChanges` | app/redis_stream_jobs.py:58-85 | once finalised, in every continuation the record reads as it did or has expired, and an expired one never comes back |
| `JobQueueTheorems.MarkRunningLosesNoUpdate` | app/redis_stream_jobs.py:362-414 | if the worker still owns the entry when the script runs, what it read before is what the record holds now, or the record has expired in between: ownership is a lock |
| `JobQueueTheorems.FinalizeLosesNoUpdate` | app/redis_stream_jobs.py:465-502 | if the finalise script is let through, the record it writes extends the record as it is at that moment: the token is a version |
| `JobQueueTheorems.SupersededLeaseNeverCommits` | app/redis_stream_jobs.py:58-85 | once a newer lease was granted, the old one cannot commit in any continuation, whoever owns the entry by then |
| `JobQueueTheorems.OnlyTheLatestLeaseCanCommit` | app/redis_stream_jobs.py:58-85 | a lease that can commit in a reachable state is the entry's latest one, so there is at most one per job |
| `JobQueueTheorems.LostEntryStaysFenced` | app/redis_stream_jobs.py:58-85 | a worker whose entry was reclaimed owns nothing of it and cannot commit until it takes entries itself |
| `JobQueueTheorems.LeaseCommitsExactlyWhen` | app/redis_stream_jobs.py:478-502 | finishing takes effect if and only if the lease is the latest, its worker owns the entry and the record has not expired; and what it then logs |
| `JobQueueTheorems.NoTwoHandoutsWithinThreshold` | app/redis_stream_jobs.py:290-360 | with every reclaim asking for at least some idle time, two hand-outs of an entry are that far apart, also through a stale legacy list |
| `JobQueueTheorems.ClaimStepIsXClaim` | app/redis_stream_jobs.py:235-360 | the protocol's claim step does to the store what the command of the queue object does |
| `JobQueueTheorems.ReadStepIsXReadGroup` | app/redis_stream_jobs.py:208-233 | the same for the read step |
| `JobQueueTheorems.HalvesMakeTheMethods` | app/redis_stream_jobs.py:362-502 | the two halves back to back do to the store what the queue object's methods do |
| `JobQueue.PendingFromIsExact` | app/redis_stream_jobs.py:300-322 | XPENDING from an id lists exactly the pending ids from there on, each once, ascending |
| `JobQueue.AutoClaimIsExact` | app/redis_stream_jobs.py:247-284 | XAUTOCLAIM takes exactly what its scan chose, all of it idle, at most `count`; only owner and idle time of those change |
| `ReclaimSweep.AutoClaimWalks` | app/redis_stream_jobs.py:247-284 | the pending ids from `start` up to the new cursor are walked over; those idle long enough, and no others, are taken; a cursor short of the end is a pending id and comes only after `count` taken or ten times as many walked over; it is 0 exactly at the end |
| `ReclaimSweep.EveryIdleEntryIsReached` | app/job_worker.py:81-88 | from any cursor, a worker that keeps reclaiming takes a given idle entry before it has gone round twice, however many busy ones are in the way |
| `JobQueue.ReadNewSkipsNothing` | app/redis_stream_jobs.py:208-233 | a read hands out the next entries after the last delivered id and leaves no gap |
| `JobQueue.LegacyReclaimSeesOnlyTheHead` | app/redis_stream_jobs.py:311-360 | the legacy cursor is always 0-0, and a legacy pass takes exactly the idle ones among the first `count` pending entries |
| `JobQueue.BusyHeadHidesIdleEntry` | app/redis_stream_jobs.py:311-360 | entry 1 busy, entry 2 idle, count 1: the legacy reclaim takes nothing and restarts, XAUTOCLAIM takes 2 |
| `JobQueue.RedisStreamJobQueue.Enqueue` | app/redis_stream_jobs.py:153-189 | one atomic record and stream entry |
| `JobQueue.RedisStreamJobQueue.GetJob` | app/redis_stream_jobs.py:191-206 | the record, or nothing once it has expired |
| `JobQueue.RedisStreamJobQueue.ReadNewMessages` | app/redis_stream_jobs.py:208-233 | the read; one that finds nothing waits for its block time, or for the socket timeout and fails when that comes first or the block time is 0 |
| `JobQueue.RedisStreamJobQueue.ReclaimIdle` | app/redis_stream_jobs.py:235-284 | cursor, messages and store after XAUTOCLAIM |
| `JobQueue.RedisStreamJobQueue.ReclaimIdleLegacy` | app/redis_stream_jobs.py:290-360 | cursor, messages and store after XPENDING and XCLAIM |
| `JobQueue.RedisStreamJobQueue.MarkRunning` | app/redis_stream_jobs.py:362-414 | the lease and the store: record read or rebuilt, taken one attempt further, written only for the owner |
| `JobQueue.RedisStreamJobQueue.Finalize` | app/redis_stream_jobs.py:416-502 | whether it took effect, and the store: record finished, entry acknowledged and deleted, or nothing changed |
| `JobRecords.EnqueueStores` | app/redis_stream_jobs.py:153-189 | field by field: the record of a new job and its stream entry; nothing else changes |
| `JobRecords.MarkStores` | app/redis_stream_jobs.py:362-414 | field by field: the running record, with one attempt more than the one found, or the first; nothing changes for an entry not owned |
| `JobRecords.FinalizeStores` | app/redis_stream_jobs.py:416-502 | field by field: the terminal record with its answer, when the lease is current; otherwise nothing changes |
| `JobWorker.JobWorker.ProcessMessage` | app/job_worker.py:139-174 | store and verdict for one message |
| `JobWorker.JobWorker.ProcessOnce` | app/job_worker.py:78-130 | store, cursor and result of a call; at most a batch is handled, and reclaimed plus new equals succeeded plus failed plus skipped |
| `JobWorker.TakeKeeps` | app/job_worker.py:81-106 | what a call takes on is still in the stream and is at most a batch |
| `JobRound.ProcessCommitsExactlyWhen` | app/job_worker.py:139-174 | an owned message is finalised if and only if its inference does not outlast the record's time to live |
| `JobRound.LostMessageIsSkipped` | app/job_worker.py:139-147 | a message no longer owned is skipped and the store stays as it is |
| `JobRound.ProcessAllCommits` | app/job_worker.py:112-123 | a batch of owned messages leaves stream and pending list entirely, each with a terminal record, and unsettles no other job |
| `JobRound.ProcessAllAnswers` | app/job_worker.py:112-123 | each of a batch of owned messages leaves its job with its own answer, and succeeded and failed count the two kinds of answer |
| `JobRound.RoundAnswers` | app/job_worker.py:78-130 | so does a whole call that comes back, for everything it reclaimed or read; what it returns counts these |
| `JobRound.TakeCounts` | app/job_worker.py:81-106 | a call takes at most a batch of pending entries and fills it up with as many new ones as there are; its read comes back unless it finds nothing and times out |
| `JobRound.CalmRound` | app/job_worker.py:78-130 | whatever is idle and wherever the cursor stands: a call leaves delivered and pending in step, settles every job that leaves the stream, and changes no settled one back |
| `JobDrain.OneRound` | app/job_worker.py:78-130 | for any cursor: a call on a quiet store shrinks the stream if and only if a whole batch is ahead of the cursor or something is undelivered; otherwise entries, records and pending ids stay and the cursor starts over |
| `JobDrain.RoundLightens` | app/job_worker.py:78-130 | a call takes a whole batch off what is ahead; or, at the end of a pass, all of it and as many undelivered entries as there is room for; or, with nothing to fill the batch, nothing, and what was behind comes ahead |
| `JobDrain.JammedForever` | app/job_worker.py:95-106 | less than a batch pending and nothing undelivered: the store keeps its entries, records and pending ids through any number of calls |
| `JobDrain.DrainsInTheEndExactlyWhen` | app/job_worker.py:78-130 | from a quiet store with any cursor, after any calls with any pauses, a stretch of one more patient call than there are entries empties the stream if and only if the load at the start was drainable |
| `JobDrain.DrainsExactlyWhen` | app/job_worker.py:78-130 | from a quiet store with any cursor, as many calls as there are entries, or one more, empty the stream if and only if the load is drainable, the one pause after a stall being long enough; if it is not drainable, no number of calls and no pauses do |
| `JobRecovery.ReachedIsCalm` | app/redis_stream_jobs.py:153-502 | in every store the protocol reaches an entry is pending exactly when it was delivered and unfinished, and none was handed out in the future |
| `JobRecovery.ReachedDrainsExactlyWhen` | app/job_worker.py:78-130 | so after any run, once what is pending is overdue, one worker left alone empties the stream if and only if the load is drainable |
| `JobDrain.FreshWorkerDrainsExactlyWhen` | app/job_worker.py:76-130 | with the cursor at the start, drainable means whole batches pending or something undelivered |
| `JobDrain.RoomIsRemainder` | app/job_worker.py:90-93 | the room for new entries at the end of a pass is what the remainder leaves of a batch |
| `JobDrain.PassedEntryIsLeft` | app/job_worker.py:81-106 | entries 1 and 2 pending, 3 undelivered, batch 2: with the cursor at 2 entry 1 stays for ever, with the cursor at the start all three go |
| `JobDrain.ImpatientWorkerStalls` | app/job_worker.py:95-106 | entries 1 and 2 pending, cursor at 2, batch 2: two calls process nothing when the pause between them, with the socket timeout, is below the reclaim threshold, however long the pause before |
| `JobDrain.WholeBatchesIsDivisibility` | app/job_worker.py:90-93 | whole batches means divisible by the batch size |
| `JobDrain.DrainedJobsAreSettled` | app/job_worker.py:112-123 | every entry that left the stream left its job with a terminal record, for any cursor and any idle times |
| `Preemption.NotPreemptedWithinThreshold` | app/redis_stream_jobs.py:235-360 | whatever all workers do, an entry stays with the worker it was handed to, or is finished, until the threshold has passed |
| `Preemption.PromptWorkerCommits` | app/redis_stream_jobs.py:478-502 | so a worker with the latest lease that is done before then commits its result, unless the record has expired |
| `Preemption.TakenExactlyWhenIdle` | app/redis_stream_jobs.py:247-262 | a reclaim that starts at a pending entry takes it if and only if it has been idle that long |
| `TimeoutBudget.CallTimeIsBounded` | app/resilience.py:255-302 | with each backend call within its timeout `execute` takes at most (retries + 1) primary timeouts, the backoffs and one fallback timeout |
| `TimeoutBudget.WorstCallHappens` | app/resilience.py:255-302 | and some granted call takes exactly that |
| `TimeoutBudget.DefaultCoversOneMessage` | app/config.py:166-175 | with backoffs and overhead under 60 s that worst case is below the default reclaim threshold |
| `TimeoutBudget.DefaultCoversAllowanceExactlyWhen` | app/config.py:166-175 | counted in fractions of a millisecond, every time below the allowance is below the threshold if and only if the allowance is whole or the fixed minimum decides |
| `TimeoutBudget.TruncationLosesHalfAMillisecond` | app/config.py:166-175 | no retries, timeouts of 600.00025 s: times in the last half millisecond of the allowance reach the threshold |
| `TimeoutBudget.FirstMessageIsCommitted` | app/job_worker.py:139-174 | in any run with at least the default threshold, the first message of a batch is committed when backend calls respect their timeouts and the rest stays under 60 s |
| `TimeoutBudget.MessageIsCoveredExactlyWhen` | app/config.py:166-175 | for every policy and timeouts, i worst cases fit under the default threshold if and only if the other i - 1 messages' backend calls and all backoffs fit into the slack, or everything stays below the minimum |
| `TimeoutBudget.DefaultsCoverOneMessageOfABatch` | app/config.py:166-175 | with the shipped defaults i worst cases fit under the threshold if and only if i is 1 |
| `TimeoutBudget.MessageIsCommitted` | app/job_worker.py:112-123 | when i worst cases and the overhead are below the default threshold, in any patient run a message whose worker made i calls within their timeouts since the hand-out is committed, unless its record expired |
| `TimeoutBudget.MessageIsLost` | app/job_worker.py:112-123 | when i worst cases reach it: a run with i entries handed out at 0, one worst case for each, the earlier ones committed if that is within the time to live, the i-th lease held at i - 1 worst cases, the entry taken at i, its result refused |
| `LateMessage.LastMessageIsTaken` | app/job_worker.py:112-123 | the same for any batch size, time per message and threshold they reach |
| `SharedBreaker.BreakerStore.AllowScript` | app/redis_circuit_breaker.py:19-105 | decision and new state of the allow script |
| `SharedBreaker.BreakerStore.SuccessScript` | app/redis_circuit_breaker.py:108-157 | response and new state of the success script |
| `SharedBreaker.BreakerStore.FailureScript` | app/redis_circuit_breaker.py:160-231 | response and new state of the failure script |
| `SharedBreaker.BreakerStore.SnapshotScript` | app/redis_circuit_breaker.py:234-262 | the snapshot, changing nothing |
| `SharedBreakerTheorems.VersionCountsAdvances` | app/redis_circuit_breaker.py:54-83 | the version is the number of half-open grants and reported transitions, and rises by one at each change of state and each half-open grant |
| `SharedBreakerTheorems.OutdatedResultIsInert` | app/redis_circuit_breaker.py:119-141 | a result under an older version changes nothing, now or after any continuation |
| `SharedBreakerTheorems.OneTransitionAndOneProbePerVersion` | app/redis_circuit_breaker.py:54-83 | across all gateways a version sees at most one reported transition and names at most one half-open permit |
| `SharedBreakerTheorems.HalfOpenVersionNamesOnePermit` | app/redis_circuit_breaker.py:54-83 | while the breaker is half-open its version names exactly one permit |
| `SharedBreakerTheorems.CounterIsFailingSuffix` | app/redis_circuit_breaker.py:143-155 | closed: the counter is the failing suffix of this version's accepted results, below threshold; open: it equals the threshold; half-open: 0 |
| `SharedBreakerTheorems.OpensExactlyAtThreshold` | app/redis_circuit_breaker.py:199-228 | a closed breaker opens if and only if that suffix reaches the threshold |
| `SharedBreakerTheorems.ProbesAreSpaced` | app/redis_circuit_breaker.py:37-97 | any two half-open grants are the recovery timeout apart, or more than the probe lease |
| `SharedBreakerTheorems.NeverWedged` | app/redis_circuit_breaker.py:33-97 | in every reachable state a request is granted if and only if a known moment has come, no further off than the recovery timeout or the end of a probe lease |
| `SharedBreakerTheorems.RefusalTimeIsExact` | app/redis_circuit_breaker.py:33-97 | open: a request is granted if and only if the reported time has passed; half-open: if and only if more than the reported time has |
| `SharedBreakerTheorems.ResultMovesTheBreaker` | app/redis_circuit_breaker.py:99-232 | a result is stale and changes nothing, or reports a transition exactly when it changes the state; once it opens the breaker, requests wait for the whole recovery timeout |
| `SharedBreakerTheorems.SnapshotIsExact` | app/redis_circuit_breaker.py:234-262 | the state, the failures counted in it, and while open exactly how long requests are still refused |
| `SharedBreakerTheorems.ProbeOnlyInHalfOpen` | app/redis_circuit_breaker.py:139-195 | the probe key exists if and only if the breaker is half-open |
| `SharedBreakerTheorems.AcceptedExactlyWhenCurrent` | app/redis_circuit_breaker.py:175-197 | for a permit really issued, its result counts if and only if its version is current and, for a probe, its lease has not ended |
| `LocalBreaker.CircuitBreaker.AllowPrimaryCall` | app/resilience.py:113-126 | decision and new state |
| `LocalBreaker.CircuitBreaker.RecordSuccess` | app/resilience.py:128-142 | transition and new state |
| `LocalBreaker.CircuitBreaker.RecordFailure` | app/resilience.py:144-167 | transition and new state |
| `LocalBreaker.CircuitBreaker.TakeSnapshot` | app/resilience.py:169-177 | snapshot and new state |
| `LocalBreakerTheorems.ProbesAreSpaced` | app/resilience.py:113-198 | two half-open grants are at least the recovery timeout apart, with late results of any order in between |
| `LocalBreakerTheorems.ClosedExactlyBelowThreshold` | app/resilience.py:128-167 | closed if and only if fewer than `threshold` of the newest results are failures |
| `LocalBreakerTheorems.RefusalTimeIsExactOnlyWhileOpen` | app/resilience.py:113-126 | the refusal time is exact if open; half-open it is 0 and requests stay refused |
| `LocalBreakerTheorems.ResultMovesTheBreaker` | app/resilience.py:128-167 | a result reports a transition exactly when it changes the state; after a failure that leaves the breaker open, late or not, requests wait for the whole recovery timeout |
| `LocalBreakerTheorems.SnapshotIsExact` | app/resilience.py:169-177 | the state a request would find, the failing suffix while closed, and while open exactly how long requests are still refused |
| `LocalBreakerTheorems.GrantsExactlyWhen` | app/resilience.py:113-126 | in every reachable state a request is granted if and only if no probe is in flight and, if open, the recovery timeout has passed |
| `LocalBreakerTheorems.WedgeIsReached` | app/resilience.py:113-167 | `threshold` failures and one request after the recovery timeout put a probe in flight |
| `LocalBreakerTheorems.WedgedExactlyUntilReport` | app/resilience.py:113-167 | from a reachable state with a probe in flight the breaker stays so throughout a run if and only if the run records no result |
| `LocalBreakerTheorems.ReportEndsTheProbe` | app/resilience.py:128-167 | any recorded result ends the probe, and a request a recovery timeout later is granted |
| `LocalBreakerTheorems.UnrecordedProbeWedges` | app/resilience.py:113-126 | without a report the wedged breaker does not change at all |
| `BreakerSimulation.SameTrace` | app/redis_circuit_breaker.py:19-232 | from related states, calls recorded before the next request and within the lease are granted, refused and reported alike by both breakers |
| `BreakerSimulation.FreshBreakersAgree` | app/resilience.py:113-198 | so they are from the start |
| `BreakerSimulation.LateProbeTellsThemApart` | app/redis_circuit_breaker.py:119-141 | a probe that outlives its lease closes one and is stale for the other |
| `RoutedBreaker.RedisCircuitBreaker.AllowPrimaryCall` | app/redis_circuit_breaker.py:332-357 | decision and both states, when Redis answers, is not reached, or loses its reply |
| `RoutedBreaker.RedisCircuitBreaker.RecordResult` | app/redis_circuit_breaker.py:359-404 | transition and both states, by the permit's origin and what became of the EVAL |
| `RoutedBreaker.SharedStateIsAnOrdinaryRun` | app/redis_circuit_breaker.py:332-404 | however gateways route, the shared state is one the shared breaker alone reaches |
| `RoutedBreaker.LocalStateIsAnOrdinaryRun` | app/redis_circuit_breaker.py:430-437 | and each gateway's local state one the local breaker alone reaches |
| `RoutedBreaker.ResultCountsOnce` | app/redis_circuit_breaker.py:359-404 | a result counts in one store only, unless Redis ran the script and its reply was lost |
| `RoutedBreaker.ResultsAreConserved` | app/redis_circuit_breaker.py:359-404 | over any run of any gateways the results recorded by the shared and all local breakers are all reported ones, plus those whose reply was lost |
| `RoutedRuns.PermitNamesItsIssuer` | app/redis_circuit_breaker.py:332-357 | a permit names Redis as its issuer if and only if Redis answered; then it is just what Redis decided, and the local breaker is left alone; otherwise the local breaker decides |
| `RoutedRuns.ResultsGoHome` | app/redis_circuit_breaker.py:359-404 | over runs in which gateways report under permits they were given: a report runs in Redis if and only if Redis issued its permit and is reached, and in the gateway's own breaker if and only if it does not, or its answer is lost |
| `RoutedRuns.ProbeReportedInTimeCounts` | app/redis_circuit_breaker.py:332-404 | in any such run, a half-open permit issued by Redis and reported to it within its lease, before any other report under it, settles the shared breaker |
| `Controller.ResilienceController.ExecuteCall` | app/resilience.py:231-302 | result, effects, breaker and clock equal the recursive specification |
| `Controller.ResilienceController.CallPrimary` | app/resilience.py:255-276 | the loop makes the specified number of calls, sleeps between them and collects the errors it retried |
| `Controller.ResilienceController.FallbackOrRaise` | app/resilience.py:304-335 | the same for the fallback |
| `Controller.AttemptsIsLeast` | app/resilience.py:255-276 | the number of attempts is the least k that succeeds, is not retry-safe or is retries + 1 |
| `Controller.OneRecordPerPermit` | app/resilience.py:244-302 | a granted call records exactly one result, its last attempt's, and retries only retry-safe failures; a refused one makes no call |
| `Controller.FallbackRunsExactlyWhen` | app/resilience.py:246-335 | the fallback runs at most once, if and only if there is one and the call was refused or its last failure is fallback-safe |
| `Controller.EffectOnBreakerIsExact` | app/resilience.py:244-302 | the call's whole effect on the breaker is its permit, its one record when the last attempt ended, and reading the state |
| `ExecuteAnswers.AnswerIsTheLastCalls` | app/resilience.py:244-335 | a primary outcome holds the last primary call's value, the number of calls, the permit's state and no budget; a fallback outcome the fallback's value, the number of calls, the budget and the state afterwards; an error is the fallback's if it ran, otherwise the last primary call's |
| `ExecuteAnswers.AnswerComesAfter` | app/resilience.py:255-335 | the call takes its primary calls, the backoffs between them and the fallback, and no other time |
| `ExecuteAnswers.RefusalSaysWhen` | app/resilience.py:304-320 | in any reachable state, a refusal without fallback while the breaker is open tells exactly when a request is granted again |
| `Controller.OutageLoadIsBounded` | app/resilience.py:144-198 | if the primary always fails, up to D after the breaker first opened sequential calls make at most (retries + 1) * (threshold + D / recovery) attempts |
| `Requests.SortIsSorted` | scripts/scheduler_simulation.py:97-98 | sorting gives a sorted permutation |
| `ContinuousBatching.SimulateContinuousBatching` | scripts/scheduler_simulation.py:160-265 | the nested loops terminate and return what the specification returns |
| `ContinuousBatching.RoundDecreases` | scripts/scheduler_simulation.py:190-257 | each pass of the outer loop uses up a token, admits a request or ends a wait |
| `ContinuousTheorems.EveryRequestCompletesOnce` | scripts/scheduler_simulation.py:190-257 | with a cap of at least 1 every request completes exactly once, is started in arrival order and at most the cap are active; otherwise none completes and the loop ends by its break |
| `ContinuousTheorems.EveryRequestRunsItsSteps` | scripts/scheduler_simulation.py:230-255 | a completed request took part in exactly max(1, output) decode steps |
| `ContinuousTheorems.ClockAddsUpThroughout` | scripts/scheduler_simulation.py:184-257 | after every pass of the outer loop the clock is busy plus idle time, and busy time is the prefill and decode time of what has been started and stepped so far |
| `ContinuousTheorems.BusyTimeIdentity` | scripts/scheduler_simulation.py:184-257 | at the end busy time is all prompts' prefill, base cost times steps and per-request cost times all tokens |
| `ContinuousTheorems.DecodeStepsAreBounded` | scripts/scheduler_simulation.py:225-257 | steps <= tokens <= cap times steps |
| `ContinuousTheorems.IdlesOnlyWhenNothingToDo` | scripts/scheduler_simulation.py:216-223 | in an idle gap every request has finished or has not arrived |
| `ContinuousTheorems.StartsFollowArrivals` | scripts/scheduler_simulation.py:197-214 | with distinct ids no request starts before it arrives, after it finishes, or after a later arrival |
| `ContinuousTimes.StartIsTheClock` | scripts/scheduler_simulation.py:199-214 | a request's start is busy plus idle time when it leaves the waiting list, before its prefill; no other start changes |
| `ContinuousTimes.RequestsTakeTheirTime` | scripts/scheduler_simulation.py:199-255 | from start to finish a request takes at least its prefill and max(1, output) decode steps for one request |
| `ContinuousTimes.StartsArePrefillsApart` | scripts/scheduler_simulation.py:199-204 | a request starts only when each earlier one in arrival order is through with its prefill |
| `ContinuousTimes.GapsEndWithAStart` | scripts/scheduler_simulation.py:216-223 | every idle gap ends with a request that starts the moment it arrives |
| `ContinuousTheorems.MakespanIsBusyPlusIdle` | scripts/scheduler_simulation.py:225-265 | the last finish is busy plus idle time |
| `StaticBatching.SimulateStaticBatching` | scripts/scheduler_simulation.py:74-157 | results, busy and idle time as specified; a batch size below 1 is an exception, unless nothing is requested |
| `StaticBatching.ResultsListRequests` | scripts/scheduler_simulation.py:133-147 | the results list every request once, in arrival order |
| `StaticBatching.BatchKIsStamped` | scripts/scheduler_simulation.py:97-149 | batches are consecutive chunks and all of a chunk have the same start and finish |
| `StaticBatching.FinishFollowsTheBatchBefore` | scripts/scheduler_simulation.py:97-149 | a batch starts at the later of the finish before it and its last arrival, and finishes its duration later |
| `StaticBatching.StartsAfterArrival` | scripts/scheduler_simulation.py:103-120 | no request starts before it arrives |
| `StaticBatching.StartsAsDocumentedExactlyWhen` | scripts/scheduler_simulation.py:80-120 | a batch starts when the GPU is free and a request has arrived if and only if its last request has arrived by then; otherwise later |
| `StaticBatching.ResultStartsAsDocumentedExactlyWhen` | scripts/scheduler_simulation.py:80-147 | the same for the start times in the results |
| `StaticBatching.FirstRequestWaitsForTheSecond` | scripts/scheduler_simulation.py:80-120 | arrivals 0 and 10, batch size 2: documented start 0, start in the results 10 |
| `StaticBatching.BusyPlusIdleIsMakespan` | scripts/scheduler_simulation.py:97-149 | busy plus idle is the end of the last batch |
| `StaticBatching.HeadsAreMultiples` | scripts/scheduler_simulation.py:108-120 | batch k begins at request k times the batch size |
| `StaticBatching.MaximaAreMaxima` | scripts/scheduler_simulation.py:122-128 | the durations use the largest prompt and output of the batch |
| `StaticBatching.LongestRequestsSetTheDuration` | scripts/scheduler_simulation.py:122-131 | a batch takes its longest prompt's prefill, and its longest output's decode time once for each of its requests |
| `JpegScan.ScanJpeg` | scripts/week4_cloud/run_bagel_workload_manifest.py:55-82 | on every byte string the loop terminates and finds what the recursive scan finds |
| `JpegScan.ImageDimensions` | scripts/week4_cloud/run_bagel_workload_manifest.py:41-84 | the three formats, from at most 65536 bytes |
| `JpegScan.MarkerStands` | scripts/week4_cloud/run_bagel_workload_manifest.py:61-65 | T.81 B.1.1.2: the marker loop reads a marker if and only if it stands there behind fill bytes |
| `JpegScan.SizedExactlyWhen` | scripts/week4_cloud/run_bagel_workload_manifest.py:55-82 | a file that begins with SOI gets a size if and only if stray bytes, SOI/EOI markers and non-frame segments lead to a frame segment, and then that segment's |
| `JpegScan.FrameHeaderRoundTrip` | scripts/week4_cloud/run_bagel_workload_manifest.py:55-82 | T.81 B.1.1.4, B.2.2: SOI, any segments with lengths and fill bytes, a frame header in the first 65536 bytes: the header's width and height |
| `JpegScan.OtherBareMarkersHideTheFrame` | scripts/week4_cloud/run_bagel_workload_manifest.py:66-73 | behind any items, a frame header after TEM or RSTn is missed in a file whose head is no longer than the length misread, though it is found without the marker |
| `ImageHeaders.FrameMarkersOfT81` | scripts/week4_cloud/run_bagel_workload_manifest.py:73-76 | T.81 table B.1: the thirteen SOF markers, progressive and lossless included |
| `ImageHeaders.PngRoundTrip` | scripts/week4_cloud/run_bagel_workload_manifest.py:45-46 | signature, IHDR, any width and height of 32 bits: that width and height, whatever follows |
| `ImageHeaders.WebpRoundTrip` | scripts/week4_cloud/run_bagel_workload_manifest.py:48-53 | RFC 9649, VP8X header with any canvas up to 2^24 each way: that canvas |
| `ImageHeaders.SizedFilesAreKnown` | scripts/week4_cloud/run_bagel_workload_manifest.py:41-84 | only files that open with one of the three signatures have a size |
| `Quantizer.KernelRow` | app/kernels/rmsnorm_int8.py:105-154 | the masked program stores the row's specified result and writes nothing else |
| `Quantizer.LaunchRows` | app/kernels/rmsnorm_int8.py:199-213 | after the launch row r, at r times the row length, holds its specified result, for every r |
| `Quantizer.BlocksComputeTheRow` | app/kernels/rmsnorm_int8.py:111-147 | the padded block gives what the unpadded row gives |
| `RmsNorm.NormalisedByTheRoot` | app/kernels/rmsnorm_int8.py:82-85 | with an exact `rsqrt`, a normalised value times the root of the mean square plus epsilon is the value times its weight |
| `RmsNorm.NormHasUnitMeanSquare` | app/kernels/rmsnorm_int8.py:82-85 | with weights of one, the normalised row's mean square is the row's over itself plus epsilon |
| `Quantizer.RoundIsNearest` | app/kernels/rmsnorm_int8.py:61-67 | nearest integer, ties away from zero |
| `Quantizer.BothFormsAreWithinHalfAStep` | app/kernels/rmsnorm_int8.py:92-100 | results lie in -127..127, nothing is clipped, and dequantised values are within half a scale step |
| `Quantizer.RequantisingIsStable` | app/kernels/rmsnorm_int8.py:216-227 | quantising dequantised values with their scale gives the same integers |
| `Quantizer.FusedEqualsReferenceExactlyWhen` | app/kernels/rmsnorm_int8.py:132-147 | kernel and reference agree if and only if the normalised row reaches 127e-8 |
| `Quantizer.QuantisedAlikeExactlyWhen` | app/kernels/rmsnorm_int8.py:132-147 | their integers agree if and only if it does or both are all zeros, that is, below 1e-8 / 254 |
| `Quantizer.ReferenceUsesWholeRange` | app/kernels/rmsnorm_int8.py:92-100 | the reference maps a row's largest magnitude to 127, unless it is below the floor |
| `Quantizer.SmallRowsDiffer` | app/kernels/rmsnorm_int8.py:132-147 | a row at the floor is 127 for the reference and 1 for the kernel |

## Left out

- Redis networking, connection pools, JSON and UUID generation: a command takes effect at once, is never reached, or loses
  its reply; payloads are opaque, tokens and job ids fresh.
- A command that Redis runs after the client has already given up on it: a command takes effect, if at all, before its
  caller goes on.
- Protocol errors on malformed stream or record data, and `cjson` decoding failures inside the finalise script: records in
  the model are always well formed.
- Entries that someone else deletes or trims from the stream, and other consumer groups: the service itself does neither.
- `_write_state`: it is never called.
- Two processes configured with the same consumer name: a name is one single-threaded worker.
- A Redis clock that is set back, and Redis losing data: the clock is monotone and the store durable.
- The fallback from XAUTOCLAIM to the legacy commands on an old server: both are modelled, the choice between them is not.
- Local breaker times are whole ticks, of which the source has fractions; the properties do not depend on the unit.
- RoutedBreaker.RedisCircuitBreaker.RecordResult: local and shared breaker read one clock, although a gateway's monotonic
  clock and Redis time differ; no property compares times across the two.
- Exceptions raised by callbacks, thread cancellation inside `execute` for the local breaker, metrics, logging and store
  events.
- Unknown state strings in the shared breaker's hash, and a change of settings between gateways.
- Percentiles, rounding of reported times to six digits, request generation and CSV output of the simulations.
- JobDrain.DrainsExactlyWhen: when what is ahead of the cursor leaves a remainder and nothing is undelivered, the drainable
  case is stated for a pause after the stall by which the worker's own claims are overdue again; for other pauses there is no
  count of calls, only `DrainsInTheEndExactlyWhen`.
- Quantizer.QuantisedAlikeExactlyWhen: rows that reach 126.5e-8 but not 127e-8 are left aside; there it depends on each
  value.
- ContinuousTheorems.StartsFollowArrivals: like the lemmas of `ContinuousTimes`, needs distinct ids, because start times are
  kept by id, and costs that are not negative.
- Floating point in the kernel, the accuracy of `rsqrt`, input validation and GPU scheduling: reals, an arbitrary function,
  rows one after another. A row has at least one column.
- HTTP routes, request schemas, backends, routing and metrics: one branch each.
