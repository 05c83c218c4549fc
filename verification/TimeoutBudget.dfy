/** The default reclaim threshold (app/config.py:166-174) against the longest a message can take
    (app/resilience.py:255-324, app/job_worker.py:139-174).  One clock tick is one millisecond, the unit in which Redis
    counts idle time. */
module TimeoutBudget {
  import opened Options
  import JobQueue
  import H = History
  import P = JobQueueProtocol
  import Q = JobQueueTheorems
  import Preemption
  import LateMessage
  import C = Controller
  import Circuit = CircuitTypes
  import Local = LocalBreaker

  const SLACK_MS := 60_000
  const LEAST_RECLAIM_MS := 1_200_000

  /** `int()` of a float drops the fraction. */
  function Truncated(x: real): int { if x < 0.0 then -((-x).Floor) else x.Floor }

  function LargerOf(a: real, b: real): real { if a < b then b else a }

  /** What the formula allows for, before truncation, from the retry count and the two timeouts in seconds. */
  function Allowance(retries: int, primary: real, fallback: real): real {
    (retries + 2) as real * LargerOf(primary, fallback) * 1000.0 + SLACK_MS as real
  }

  /** `_DEFAULT_JOB_WORKER_RECLAIM_IDLE_MS` */
  function DefaultReclaimIdle(retries: int, primary: real, fallback: real): int {
    var computed := Truncated(Allowance(retries, primary, fallback));
    if LEAST_RECLAIM_MS < computed then computed else LEAST_RECLAIM_MS
  }

  /** The same for timeouts of whole milliseconds. */
  function DefaultInMs(p: C.Policy, primaryMs: nat, fallbackMs: nat): nat {
    DefaultReclaimIdle(p.retries, primaryMs as real / 1000.0, fallbackMs as real / 1000.0)
  }

  // ----- how long one call of the controller takes

  /** The longest call: every primary call runs into its timeout, every sleep is slept, and so does the fallback. */
  function WorstCall(p: C.Policy, primaryMs: nat, fallbackMs: nat): nat {
    (p.retries + 1) * primaryMs + p.retries * p.backoff + fallbackMs
  }

  function CallTime(
      l: Local.LocalState, cfg: Circuit.Settings, now: int, p: C.Policy, primary: nat -> C.Attempt,
      fallback: Option<C.Attempt>): int
  {
    C.Execute(l, cfg, now, p, primary, fallback).now - now
  }

  /** Each backend call respects its timeout. */
  ghost predicate WithinTimeouts(
      p: C.Policy, primary: nat -> C.Attempt, fallback: Option<C.Attempt>, primaryMs: nat, fallbackMs: nat)
  {
    && (forall k :: 1 <= k <= p.retries + 1 ==> primary(k).duration <= primaryMs)
    && (fallback.Some? ==> fallback.value.duration <= fallbackMs)
  }

  lemma {:induction false} TimeSpentBound(p: C.Policy, primary: nat -> C.Attempt, k: nat, primaryMs: nat)
    requires forall j :: 1 <= j <= k ==> primary(j).duration <= primaryMs
    ensures C.TimeSpent(p, primary, k) <= k * primaryMs + (if k == 0 then 0 else (k - 1) * p.backoff)
  {
    if k > 0 {
      TimeSpentBound(p, primary, k - 1, primaryMs);
      OneMore(k - 1, primaryMs);
      if k > 1 {
        OneMore(k - 2, p.backoff);
      }
    }
  }

  lemma OneMore(k: nat, x: nat)
    ensures (k + 1) * x == k * x + x
  {
  }

  lemma ScaleUp(a: nat, b: nat, x: nat)
    requires a <= b
    ensures a * x <= b * x
  {
    assert b * x - a * x == (b - a) * x;
  }

  /** No call of `execute` takes longer than that. */
  lemma CallTimeIsBounded(
    l: Local.LocalState, cfg: Circuit.Settings, now: int, p: C.Policy, primary: nat -> C.Attempt,
      fallback: Option<C.Attempt>,
    primaryMs: nat, fallbackMs: nat)
    requires WithinTimeouts(p, primary, fallback, primaryMs, fallbackMs)
    ensures 0 <= CallTime(l, cfg, now, p, primary, fallback) <= WorstCall(p, primaryMs, fallbackMs)
  {
    C.AttemptsIsLeast(p, primary, 1);
    var n := C.Attempts(p, primary, 1);
    TimeSpentBound(p, primary, n, primaryMs);
    ScaleUp(n, p.retries + 1, primaryMs);
    ScaleUp(n - 1, p.retries, p.backoff);
  }

  /** And some call of every granted kind does take that long, so the bound is the exact worst case. */
  lemma WorstCallHappens(
    l: Local.LocalState, cfg: Circuit.Settings, now: int, p: C.Policy, primary: nat -> C.Attempt, fallback: C.Attempt,
    primaryMs: nat, fallbackMs: nat)
    requires C.Granted(l, cfg, now)
    requires forall k :: primary(k) == C.Attempt(primaryMs, C.Threw(C.Error(true, true, "timed out")))
    requires fallback.duration == fallbackMs
    ensures CallTime(l, cfg, now, p, primary, Some(fallback)) == WorstCall(p, primaryMs, fallbackMs)
  {
    C.AttemptsIsLeast(p, primary, 1);
    assert C.Attempts(p, primary, 1) == p.retries + 1;
    TimeSpentAtWorst(p, primary, p.retries + 1, primaryMs);
  }

  lemma {:induction false} TimeSpentAtWorst(p: C.Policy, primary: nat -> C.Attempt, k: nat, primaryMs: nat)
    requires forall j :: primary(j).duration == primaryMs
    ensures C.TimeSpent(p, primary, k) == k * primaryMs + (if k == 0 then 0 else (k - 1) * p.backoff)
  {
    if k > 0 {
      TimeSpentAtWorst(p, primary, k - 1, primaryMs);
      OneMore(k - 1, primaryMs);
      if k > 1 {
        OneMore(k - 2, p.backoff);
      }
    }
  }

  // ----- the threshold

  lemma FloorKeepsOrder(n: int, x: real)
    requires n as real <= x
    ensures n <= x.Floor
  {
  }

  lemma WorstBackendTimeFits(retries: nat, primary: real, fallback: real, primaryMs: nat, fallbackMs: nat)
    requires primaryMs as real <= primary * 1000.0 && fallbackMs as real <= fallback * 1000.0
    ensures ((retries + 1) * primaryMs + fallbackMs) as real <= (retries + 2) as real * LargerOf(primary,
      fallback) * 1000.0
  {
    var larger := LargerOf(primary, fallback);
    var ms := if primaryMs < fallbackMs then fallbackMs else primaryMs;
    assert ms as real <= larger * 1000.0;
    ScaleUp(primaryMs, ms, retries + 1);
    assert (retries + 1) * primaryMs <= (retries + 1) * ms;
    OneMore(retries + 1, ms);
    ScaleReal(retries + 2, ms, larger * 1000.0);
    assert (retries + 2) as real * (larger * 1000.0) == (retries + 2) as real * larger * 1000.0;
  }

  lemma ScaleReal(n: nat, a: nat, b: real)
    requires a as real <= b
    ensures (n * a) as real <= n as real * b
  {
    assert n as real * b - n as real * a as real == n as real * (b - a as real);
    assert (n * a) as real == n as real * a as real;
  }

  /** One message's worst case stays below the default threshold when backoffs and overhead stay below 60 seconds. */
  lemma DefaultCoversOneMessage(p: C.Policy, primary: real, fallback: real, primaryMs: nat, fallbackMs: nat,
      overhead: nat)
    requires primaryMs as real <= primary * 1000.0 && fallbackMs as real <= fallback * 1000.0
    requires p.retries * p.backoff + overhead < SLACK_MS
    ensures WorstCall(p, primaryMs, fallbackMs) + overhead < DefaultReclaimIdle(p.retries, primary, fallback)
  {
    WorstBackendTimeFits(p.retries, primary, fallback, primaryMs, fallbackMs);
    var backend := (p.retries + 1) * primaryMs + fallbackMs;
    var allowance := Allowance(p.retries, primary, fallback);
    assert 0 <= (p.retries + 1) * primaryMs;
    FloorKeepsOrder(backend + SLACK_MS, allowance);
  }

  /** Counted in fractions of a millisecond the claim is not quite true: truncation can give away what is left below one
      millisecond.  Every time below the allowance is below the threshold exactly when the allowance is a whole number
      of milliseconds, or so small that the fixed minimum decides. */
  lemma DefaultCoversAllowanceExactlyWhen(retries: nat, primary: real, fallback: real)
    requires 0.0 < primary && 0.0 < fallback
    ensures var allowance := Allowance(retries, primary, fallback);
      (forall elapsed: real :: 0.0 <= elapsed < allowance ==>
        elapsed.Floor < DefaultReclaimIdle(retries, primary, fallback))
      <==> allowance.Floor as real == allowance || allowance <= LEAST_RECLAIM_MS as real
  {
    var allowance := Allowance(retries, primary, fallback);
    assert 0.0 <= (retries + 2) as real * LargerOf(primary, fallback);
    assert 0.0 < allowance;
    if allowance.Floor as real != allowance && LEAST_RECLAIM_MS as real < allowance {
      var late := allowance.Floor as real;
      assert 0.0 <= late < allowance && late.Floor == allowance.Floor;
      FloorKeepsOrder(LEAST_RECLAIM_MS, allowance);
      assert DefaultReclaimIdle(retries, primary, fallback) == allowance.Floor;
    }
  }

  /** It fails, for one, for no retries and timeouts of 600.00025 seconds: half a millisecond of the allowance is lost,
      and with it every time in that half. */
  lemma TruncationLosesHalfAMillisecond(elapsed: real)
    requires 1_260_000.0 <= elapsed < 1_260_000.5
    ensures Allowance(0, 600.00025, 600.00025) == 1_260_000.5
    ensures elapsed < Allowance(0, 600.00025, 600.00025) && elapsed.Floor == DefaultReclaimIdle(0, 600.00025, 600.00025)
  {
    assert Allowance(0, 600.00025, 600.00025) == 1_260_000.5;
  }

  // ----- together: the first message of a batch

  /** The first message of a batch, from the hand-out to the final update: the time that passed is one call of `execute`
      and some overhead. */
  ghost predicate OneCall(
    y: P.System, z: P.System, id: JobQueue.StreamId,
    l: Local.LocalState, cfg: Circuit.Settings, now: int, p: C.Policy, primary: nat -> C.Attempt,
      fallback: Option<C.Attempt>, overhead: nat)
  {
    && id in y.store.pending
    && z.store.clock - y.store.pending[id].deliveredAt <= CallTime(l, cfg, now, p, primary, fallback) + overhead
  }

  /** A healthy worker is not pre-empted on it.  In any run of any number of workers, all using the default threshold or
      more: when the worker was handed the entry, spent one call of the controller on it and less than 60 seconds on
      backoffs and overhead, and its backend calls respected their timeouts, its result is committed, unless the record
      has expired. */
  lemma FirstMessageIsCommitted(
    ttl: nat, steps: seq<P.Step>, more: seq<P.Step>, token: JobQueue.Token, outcome: JobQueue.Outcome, stamp: nat,
    l: Local.LocalState, cfg: Circuit.Settings, now: int, p: C.Policy, primary: nat -> C.Attempt,
      fallback: Option<C.Attempt>,
    overhead: nat, primaryTimeout: real, fallbackTimeout: real, primaryMs: nat, fallbackMs: nat)
    requires primaryMs as real <= primaryTimeout * 1000.0 && fallbackMs as real <= fallbackTimeout * 1000.0
    requires WithinTimeouts(p, primary, fallback, primaryMs, fallbackMs)
    requires p.retries * p.backoff + overhead < SLACK_MS
    requires forall i :: 0 <= i < |steps| ==>
      Q.Patient(steps[i], DefaultReclaimIdle(p.retries, primaryTimeout, fallbackTimeout))
    requires forall i :: 0 <= i < |more| ==>
      Q.Patient(more[i], DefaultReclaimIdle(p.retries, primaryTimeout, fallbackTimeout))
    requires var y, z := Q.Reached(ttl, steps), P.Run(Q.Reached(ttl, steps), more);
      && P.GrantOf(z.log, token).Some?
      && var g := P.GrantOf(z.log, token).value;
      && P.PhaseOf(z, g.worker).Ready? && P.LastGrant(z.log, g.id) == Some(g) && P.Final(z.log, g.id).None?
      && JobQueue.Owns(y.store, g.worker, g.id)
      && OneCall(y, z, g.id, l, cfg, now, p, primary, fallback, overhead)
      && g.id in z.accepted && JobQueue.Get(z.store, z.accepted[g.id].job).Some?
    ensures var z := P.Run(Q.Reached(ttl, steps), more);
      var g := P.GrantOf(z.log, token).value;
      P.Run(z, [P.FinalGet(g.worker, token, outcome, stamp), P.FinalScript(g.worker)]).log
      == H.Then(z.log, P.Commit(g.id, token, outcome, stamp, JobQueue.Finished(g.record, g.worker, outcome, stamp)))
  {
    CallTimeIsBounded(l, cfg, now, p, primary, fallback, primaryMs, fallbackMs);
    DefaultCoversOneMessage(p, primaryTimeout, fallbackTimeout, primaryMs, fallbackMs, overhead);
    Preemption.PromptWorkerCommits(ttl, steps, more, DefaultReclaimIdle(p.retries, primaryTimeout, fallbackTimeout),
      token, outcome, stamp);
  }

  // ----- the later messages

  lemma ThresholdInMs(retries: nat, primaryMs: nat, fallbackMs: nat)
    ensures var larger := if primaryMs < fallbackMs then fallbackMs else primaryMs;
      DefaultReclaimIdle(retries, primaryMs as real / 1000.0, fallbackMs as real / 1000.0)
      == (if LEAST_RECLAIM_MS < (retries + 2) * larger + SLACK_MS then (retries + 2) * larger + SLACK_MS
        else LEAST_RECLAIM_MS)
  {
    var larger := if primaryMs < fallbackMs then fallbackMs else primaryMs;
    var seconds := LargerOf(primaryMs as real / 1000.0, fallbackMs as real / 1000.0);
    assert seconds * 1000.0 == larger as real;
    var n: nat := retries + 2;
    assert n as real * seconds * 1000.0 == n as real * (seconds * 1000.0);
    WholeProduct(n, larger);
    assert Allowance(retries, primaryMs as real / 1000.0, fallbackMs as real / 1000.0)
      == (n * larger + SLACK_MS) as real;
  }

  lemma WholeProduct(a: nat, b: nat)
    ensures a as real * b as real == (a * b) as real
    ensures 0 <= a * b
  {
  }

  /** What the two timeouts of a call leave of the retries + 2 longest ones that the formula allows for. */
  function Spare(p: C.Policy, primaryMs: nat, fallbackMs: nat): int {
    (p.retries + 2) * (if primaryMs < fallbackMs then fallbackMs
      else primaryMs) - ((p.retries + 1) * primaryMs + fallbackMs)
  }

  lemma SpareIsNotNegative(p: C.Policy, primaryMs: nat, fallbackMs: nat)
    ensures 0 <= Spare(p, primaryMs, fallbackMs)
  {
    var larger := if primaryMs < fallbackMs then fallbackMs else primaryMs;
    ScaleUp(primaryMs, larger, p.retries + 1);
    assert (p.retries + 1) * primaryMs <= (p.retries + 1) * larger;
    OneMore(p.retries + 1, larger);
  }

  lemma Distribute(i: int, a: int, b: int, c: int)
    ensures i * (a + b + c) == (i - 1) * (a + c) + i * b + (a + c)
  {
    assert i * (a + b + c) == i * (a + c) + i * b;
    assert (i - 1) * (a + c) == i * (a + c) - (a + c);
  }

  /** The messages of a batch are handed out together and processed one after another, so the i-th is done after i worst
      cases.  For every policy and every pair of timeouts these fit under the default threshold exactly when the other i
      - 1 messages' backend calls and all backoffs fit into the 60 seconds of slack and what unequal timeouts spare, or
      when everything together stays below the fixed minimum. */
  lemma MessageIsCoveredExactlyWhen(p: C.Policy, primaryMs: nat, fallbackMs: nat, i: nat)
    requires 1 <= i
    ensures 0 <= Spare(p, primaryMs, fallbackMs)
    ensures i * WorstCall(p, primaryMs, fallbackMs) < DefaultReclaimIdle(p.retries, primaryMs as real / 1000.0,
      fallbackMs as real / 1000.0)
      <==> (i - 1) * ((p.retries + 1) * primaryMs + fallbackMs) + i * (p.retries * p.backoff)
             < SLACK_MS + Spare(p, primaryMs, fallbackMs)
           || i * WorstCall(p, primaryMs, fallbackMs) < LEAST_RECLAIM_MS
  {
    SpareIsNotNegative(p, primaryMs, fallbackMs);
    ThresholdInMs(p.retries, primaryMs, fallbackMs);
    Distribute(i, (p.retries + 1) * primaryMs, p.retries * p.backoff, fallbackMs);
  }

  /** With the shipped defaults (one retry, 300 seconds, 0.2 seconds of backoff) the threshold covers the first message
      only, although a batch holds ten. */
  lemma DefaultsCoverOneMessageOfABatch(i: nat)
    requires 1 <= i
    ensures i * WorstCall(C.Policy(1, 200, None), 300_000, 300_000) < DefaultReclaimIdle(1, 300.0, 300.0) <==> i == 1
  {
    assert Allowance(1, 300.0, 300.0) == 960_000.0;
    assert WorstCall(C.Policy(1, 200, None), 300_000, 300_000) == 900_200;
  }

  /** Where i worst cases reach the default threshold, a run loses the i-th message.  The worker is handed a batch of i
      entries at time 0, every call of the controller takes its worst case and every backend call in it respects its
      timeout (`WorstCallHappens`); the messages before are finished in time, and at i worst cases another worker, as
      patient as the default asks, takes the i-th entry.  The result of the i-th call is thrown away. */
  lemma MessageIsLost(
      ttl: nat, p: C.Policy, primaryMs: nat, fallbackMs: nat, i: nat, w: JobQueue.Worker, v: JobQueue.Worker,
      outcome: JobQueue.Outcome, stamp: nat)
    returns (before: seq<P.Step>, steps: seq<P.Step>)
    requires w != v && 1 <= i
    requires DefaultInMs(p, primaryMs, fallbackMs) <= i * WorstCall(p, primaryMs, fallbackMs)
    ensures var worst := WorstCall(p, primaryMs, fallbackMs);
      var theta := DefaultInMs(p, primaryMs, fallbackMs);
      && steps == before + [P.Tick(worst)] + [P.Reclaim(v, theta, i, 1)]
      && (forall k :: 0 <= k < |steps| ==> Q.Patient(steps[k], theta))
      && LateMessage.LastInHand(Q.Reached(ttl, before), w, v, i, (i - 1) * worst, worst <= ttl)
    ensures var y := Q.Reached(ttl, steps);
      var token := JobQueue.Token(i);
      && y.store.clock == i * WorstCall(p, primaryMs, fallbackMs)
      && P.GrantOf(y.log, token) == P.GrantOf(Q.Reached(ttl, before).log, token)
      && JobQueue.Owns(y.store, v, i)
      && P.Run(y, [P.FinalGet(w, token, outcome, stamp), P.FinalScript(w)]).log == y.log
  {
    before, steps := LateMessage.LastMessageIsTaken(
      ttl, i, WorstCall(p, primaryMs, fallbackMs), DefaultInMs(p, primaryMs, fallbackMs), w, v, outcome, stamp);
  }

  // ----- a message that is in time

  /** One call of the controller, with the breaker and the clock it finds. */
  datatype Call = Call(
    local: Local.LocalState, cfg: Circuit.Settings, now: int, primary: nat -> C.Attempt, fallback: Option<C.Attempt>)

  function TotalTime(p: C.Policy, calls: seq<Call>): int {
    if calls == [] then 0
    else
      var c := calls[|calls| - 1];
      TotalTime(p, calls[..|calls| - 1]) + CallTime(c.local, c.cfg, c.now, p, c.primary, c.fallback)
  }

  ghost predicate AllWithinTimeouts(p: C.Policy, calls: seq<Call>, primaryMs: nat, fallbackMs: nat) {
    forall k :: 0 <= k < |calls| ==> WithinTimeouts(p, calls[k].primary, calls[k].fallback, primaryMs, fallbackMs)
  }

  lemma {:induction false} TotalTimeIsBounded(p: C.Policy, calls: seq<Call>, primaryMs: nat, fallbackMs: nat)
    requires AllWithinTimeouts(p, calls, primaryMs, fallbackMs)
    ensures 0 <= TotalTime(p, calls) <= |calls| * WorstCall(p, primaryMs, fallbackMs)
    decreases |calls|
  {
    if calls != [] {
      var c := calls[|calls| - 1];
      TotalTimeIsBounded(p, calls[..|calls| - 1], primaryMs, fallbackMs);
      CallTimeIsBounded(c.local, c.cfg, c.now, p, c.primary, c.fallback, primaryMs, fallbackMs);
      OneMore(|calls| - 1, WorstCall(p, primaryMs, fallbackMs));
    }
  }

  /** The i-th message of a batch is safe when i worst cases and the overhead stay below the default threshold.  In any
      run of any number of workers, all using the default threshold or more: when the worker was handed the entry, and
      since then made i calls of the controller, this message's the last, whose backend calls respected their timeouts,
      its result is committed, unless the record has expired. */
  lemma MessageIsCommitted(
      ttl: nat, steps: seq<P.Step>, more: seq<P.Step>, token: JobQueue.Token, outcome: JobQueue.Outcome, stamp: nat,
      p: C.Policy, calls: seq<Call>, overhead: nat, primaryMs: nat, fallbackMs: nat)
    requires AllWithinTimeouts(p, calls, primaryMs, fallbackMs)
    requires |calls| * WorstCall(p, primaryMs, fallbackMs) + overhead < DefaultInMs(p, primaryMs, fallbackMs)
    requires forall k :: 0 <= k < |steps| ==> Q.Patient(steps[k], DefaultInMs(p, primaryMs, fallbackMs))
    requires forall k :: 0 <= k < |more| ==> Q.Patient(more[k], DefaultInMs(p, primaryMs, fallbackMs))
    requires var y, z := Q.Reached(ttl, steps), P.Run(Q.Reached(ttl, steps), more);
      && P.GrantOf(z.log, token).Some?
      && var g := P.GrantOf(z.log, token).value;
      && P.PhaseOf(z, g.worker).Ready? && P.LastGrant(z.log, g.id) == Some(g) && P.Final(z.log, g.id).None?
      && JobQueue.Owns(y.store, g.worker, g.id)
      && z.store.clock - y.store.pending[g.id].deliveredAt <= TotalTime(p, calls) + overhead
      && g.id in z.accepted && JobQueue.Get(z.store, z.accepted[g.id].job).Some?
    ensures var z := P.Run(Q.Reached(ttl, steps), more);
      var g := P.GrantOf(z.log, token).value;
      P.Run(z, [P.FinalGet(g.worker, token, outcome, stamp), P.FinalScript(g.worker)]).log
      == H.Then(z.log, P.Commit(g.id, token, outcome, stamp, JobQueue.Finished(g.record, g.worker, outcome, stamp)))
  {
    TotalTimeIsBounded(p, calls, primaryMs, fallbackMs);
    Preemption.PromptWorkerCommits(ttl, steps, more, DefaultInMs(p, primaryMs, fallbackMs), token, outcome, stamp);
  }
}
