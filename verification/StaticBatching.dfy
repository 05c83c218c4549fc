/** The static batching simulation (scripts/scheduler_simulation.py:74-157), with exact times.

    The docstring says a batch starts when the GPU is free and a request has arrived; the code waits until the batch is
    full or no request is left, and that is what is modelled.  The last section says when the two agree. */
module StaticBatching {
  import opened Requests

  datatype Costs = Costs(batch: int, prefill: real, decode: real)
  datatype Result = Result(request: Request, start: real, finish: real)

  /** `max()` of an empty batch is an exception. */
  datatype Outcome = Metrics(results: seq<Result>, busy: real, idle: real) | EmptyBatch

  // ----- specification: consecutive chunks

  function ChunkEnd(rs: seq<Request>, batch: int, index: nat): nat
    requires index < |rs| && 1 <= batch
  {
    if index + batch < |rs| then index + batch else |rs|
  }

  function MaxPrompt(rs: seq<Request>): int
    requires rs != []
  {
    if |rs| == 1 then rs[0].prompt else MaxInt(MaxPrompt(rs[..|rs| - 1]), rs[|rs| - 1].prompt)
  }

  function MaxOutput(rs: seq<Request>): int
    requires rs != []
  {
    if |rs| == 1 then rs[0].output else MaxInt(MaxOutput(rs[..|rs| - 1]), rs[|rs| - 1].output)
  }

  function Duration(chunk: seq<Request>, c: Costs): real
    requires chunk != []
  {
    MaxPrompt(chunk) as real * c.prefill + MaxOutput(chunk) as real * c.decode * (|chunk| as real)
  }

  /** How the requests are run: the batch size, and how long a batch takes. */
  datatype Plan = Plan(batch: int, duration: seq<Request> -> real)

  function PlanOf(c: Costs): Plan {
    Plan(c.batch, (chunk: seq<Request>) => if chunk == [] then 0.0 else Duration(chunk, c))
  }

  function Later(a: real, b: real): real { if a < b then b else a }

  /** A chunk starts when the GPU is free and its last request has arrived. */
  function ChunkStart(rs: seq<Request>, batch: int, index: nat, now: real): real
    requires index < |rs| && 1 <= batch
  {
    Later(now, rs[ChunkEnd(rs, batch, index) - 1].arrival)
  }

  function ChunkFinish(rs: seq<Request>, plan: Plan, index: nat, now: real): real
    requires index < |rs| && 1 <= plan.batch
  {
    ChunkStart(rs, plan.batch, index, now) + plan.duration(rs[index..ChunkEnd(rs, plan.batch, index)])
  }

  function Stamped(chunk: seq<Request>, start: real, finish: real): seq<Result> {
    if chunk == [] then [] else [Result(chunk[0], start, finish)] + Stamped(chunk[1..], start, finish)
  }

  /** The results from `index` on, when the GPU is free at `now`. */
  function Batches(rs: seq<Request>, plan: Plan, index: nat, now: real): seq<Result>
    requires index <= |rs| && 1 <= plan.batch
    decreases |rs| - index
  {
    if index == |rs| then []
    else
      var end := ChunkEnd(rs, plan.batch, index);
      var finish := ChunkFinish(rs, plan, index, now);
      Stamped(rs[index..end], ChunkStart(rs, plan.batch, index, now), finish) + Batches(rs, plan, end, finish)
  }

  function BusyFrom(rs: seq<Request>, plan: Plan, index: nat): real
    requires index <= |rs| && 1 <= plan.batch
    decreases |rs| - index
  {
    if index == |rs| then 0.0
    else plan.duration(rs[index..ChunkEnd(rs, plan.batch, index)]) + BusyFrom(rs, plan, ChunkEnd(rs, plan.batch, index))
  }

  function IdleFrom(rs: seq<Request>, plan: Plan, index: nat, now: real): real
    requires index <= |rs| && 1 <= plan.batch
    decreases |rs| - index
  {
    if index == |rs| then 0.0
    else (ChunkStart(rs, plan.batch, index, now) - now) + IdleFrom(rs, plan, ChunkEnd(rs, plan.batch, index),
      ChunkFinish(rs, plan, index, now))
  }

  function Makespan(rs: seq<Request>, plan: Plan, index: nat, now: real): real
    requires index <= |rs| && 1 <= plan.batch
    decreases |rs| - index
  {
    if index == |rs| then now
      else Makespan(rs, plan, ChunkEnd(rs, plan.batch, index), ChunkFinish(rs, plan, index, now))
  }

  // ----- the program

  method MaxPromptOf(chunk: seq<Request>) returns (m: int)
    requires chunk != []
    ensures m == MaxPrompt(chunk)
  {
    m := chunk[0].prompt;
    assert chunk[..1][0] == chunk[0];
    for i := 1 to |chunk|
      invariant m == MaxPrompt(chunk[..i])
    {
      assert chunk[..i + 1][..i] == chunk[..i];
      m := MaxInt(m, chunk[i].prompt);
    }
    assert chunk[..|chunk|] == chunk;
  }

  method MaxOutputOf(chunk: seq<Request>) returns (m: int)
    requires chunk != []
    ensures m == MaxOutput(chunk)
  {
    m := chunk[0].output;
    assert chunk[..1][0] == chunk[0];
    for i := 1 to |chunk|
      invariant m == MaxOutput(chunk[..i])
    {
      assert chunk[..i + 1][..i] == chunk[..i];
      m := MaxInt(m, chunk[i].output);
    }
    assert chunk[..|chunk|] == chunk;
  }

  /** Collect one batch: first what has arrived, then, waiting, what is still to come. */
  method CollectBatch(rs: seq<Request>, batch: int, index: nat, now: real) returns (end: nat, start: real, idle: real)
    requires Sorted(rs) && index < |rs| && 1 <= batch
    ensures end == ChunkEnd(rs, batch, index)
    ensures start == ChunkStart(rs, batch, index, now)
    ensures idle == start - now
  {
    start, idle := now, 0.0;
    if start < rs[index].arrival {
      idle := rs[index].arrival - start;
      start := rs[index].arrival;
    }
    end := index;
    while end < |rs| && rs[end].arrival <= start && end - index < batch
      invariant index <= end <= ChunkEnd(rs, batch, index)
      invariant end == index || rs[end - 1].arrival <= start
    {
      end := end + 1;
    }
    while end < |rs| && end - index < batch
      invariant index < end <= ChunkEnd(rs, batch, index)
      invariant start == Later(now, rs[end - 1].arrival) && idle == start - now
    {
      if start < rs[end].arrival {
        idle := idle + (rs[end].arrival - start);
        start := rs[end].arrival;
      }
      end := end + 1;
    }
  }

  method BatchDuration(chunk: seq<Request>, c: Costs) returns (duration: real)
    requires chunk != []
    ensures duration == Duration(chunk, c)
  {
    var maxPrompt := MaxPromptOf(chunk);
    var maxOutput := MaxOutputOf(chunk);
    duration := maxPrompt as real * c.prefill + maxOutput as real * c.decode * (|chunk| as real);
  }

  /** One round of the loop, added to what the rounds before it produced. */
  lemma RoundExtends(rs: seq<Request>, plan: Plan, index: nat, now: real, results: seq<Result>)
    requires index < |rs| && 1 <= plan.batch
    ensures var end, start, finish := ChunkEnd(rs, plan.batch, index), ChunkStart(rs, plan.batch, index, now),
      ChunkFinish(rs, plan, index, now);
      && results + Batches(rs, plan, index, now)
        == results + Stamped(rs[index..end], start, finish) + Batches(rs, plan, end, finish)
      && IdleFrom(rs, plan, index, now) == (start - now) + IdleFrom(rs, plan, end, finish)
      && BusyFrom(rs, plan, index) == (finish - start) + BusyFrom(rs, plan, end)
  {
  }

  /** The plan times batches as the costs say. */
  ghost predicate Follows(plan: Plan, c: Costs) {
    plan.batch == c.batch
    && forall chunk: seq<Request> {:trigger Duration(chunk, c)} :: chunk != [] ==>
      plan.duration(chunk) == Duration(chunk, c)
  }

  method RunBatch(rs: seq<Request>, c: Costs, index: nat, now: real, ghost plan: Plan)
    returns (end: nat, start: real, idle: real, duration: real)
    requires Sorted(rs) && index < |rs| && 1 <= c.batch && Follows(plan, c)
    ensures end == ChunkEnd(rs, plan.batch, index)
    ensures start == ChunkStart(rs, plan.batch, index, now)
    ensures idle == start - now
    ensures start + duration == ChunkFinish(rs, plan, index, now)
  {
    end, start, idle := CollectBatch(rs, c.batch, index, now);
    duration := BatchDuration(rs[index..end], c);
  }

  method RunBatches(rs: seq<Request>, c: Costs, ghost plan: Plan) returns (results: seq<Result>, busy: real, idle: real)
    requires Sorted(rs) && 1 <= c.batch && Follows(plan, c)
    ensures results == Batches(rs, plan, 0, 0.0) && busy == BusyFrom(rs, plan, 0) && idle == IdleFrom(rs, plan, 0, 0.0)
  {
    results, busy, idle := [], 0.0, 0.0;
    var index: nat, now := 0, 0.0;
    assert results + Batches(rs, plan, 0, 0.0) == Batches(rs, plan, 0, 0.0);
    while index < |rs|
      invariant index <= |rs|
      invariant Batches(rs, plan, 0, 0.0) == results + Batches(rs, plan, index, now)
      invariant BusyFrom(rs, plan, 0) == busy + BusyFrom(rs, plan, index)
      invariant IdleFrom(rs, plan, 0, 0.0) == idle + IdleFrom(rs, plan, index, now)
      decreases |rs| - index
    {
      RoundExtends(rs, plan, index, now, results);
      var end, start, waited, duration := RunBatch(rs, c, index, now, plan);
      results := results + Stamped(rs[index..end], start, start + duration);
      busy := busy + duration;
      idle := idle + waited;
      index, now := end, start + duration;
    }
  }

  method SimulateStaticBatching(requests: seq<Request>, c: Costs) returns (outcome: Outcome)
    ensures var rs := SortByArrival(requests);
      var plan := PlanOf(c);
      outcome == if requests == [] then Metrics([], 0.0, 0.0)
                 else if c.batch < 1 then EmptyBatch
                 else Metrics(Batches(rs, plan, 0, 0.0), BusyFrom(rs, plan, 0), IdleFrom(rs, plan, 0, 0.0))
  {
    var rs := SortByArrival(requests);
    SortIsSorted(requests);
    assert rs == [] <==> requests == [] by { assert |multiset(rs)| == |multiset(requests)|; }
    if rs == [] {
      return Metrics([], 0.0, 0.0);
    }
    if c.batch < 1 {
      return EmptyBatch;
    }
    var results, busy, idle := RunBatches(rs, c, PlanOf(c));
    return Metrics(results, busy, idle);
  }

  // ----- what it computes

  /** The two maxima are what `max` gives: an upper bound that some request of the batch reaches. */
  lemma {:induction false} MaximaAreMaxima(chunk: seq<Request>)
    requires chunk != []
    ensures forall i :: 0 <= i < |chunk| ==> chunk[i].prompt <= MaxPrompt(chunk) && chunk[i].output <= MaxOutput(chunk)
    ensures exists i :: 0 <= i < |chunk| && chunk[i].prompt == MaxPrompt(chunk)
    ensures exists i :: 0 <= i < |chunk| && chunk[i].output == MaxOutput(chunk)
    decreases |chunk|
  {
    if |chunk| > 1 {
      var t := chunk[..|chunk| - 1];
      MaximaAreMaxima(t);
      var i :| 0 <= i < |t| && t[i].prompt == MaxPrompt(t);
      var j :| 0 <= j < |t| && t[j].output == MaxOutput(t);
      assert chunk[i].prompt == t[i].prompt && chunk[j].output == t[j].output;
      var last := chunk[|chunk| - 1];
      assert last.prompt == MaxPrompt(chunk) || chunk[i].prompt == MaxPrompt(chunk);
      assert last.output == MaxOutput(chunk) || chunk[j].output == MaxOutput(chunk);
    } else {
      assert chunk[0].prompt == MaxPrompt(chunk) && chunk[0].output == MaxOutput(chunk);
    }
  }

  /** A batch takes as long as the longest prompt takes to prefill, and then the longest output to decode for the whole
      batch, padded. */
  lemma LongestRequestsSetTheDuration(chunk: seq<Request>, c: Costs) returns (i: nat, j: nat)
    requires chunk != []
    ensures i < |chunk| && j < |chunk|
    ensures forall k :: 0 <= k < |chunk| ==> chunk[k].prompt <= chunk[i].prompt && chunk[k].output <= chunk[j].output
    ensures Duration(chunk, c)
         == chunk[i].prompt as real * c.prefill + |chunk| as real * (chunk[j].output as real * c.decode)
  {
    MaximaAreMaxima(chunk);
    i :| 0 <= i < |chunk| && chunk[i].prompt == MaxPrompt(chunk);
    j :| 0 <= j < |chunk| && chunk[j].output == MaxOutput(chunk);
  }

  /** Busy plus idle time is the moment the last batch finishes. */
  lemma {:induction false} BusyPlusIdleIsMakespan(rs: seq<Request>, plan: Plan, index: nat, now: real)
    requires index <= |rs| && 1 <= plan.batch
    ensures now + BusyFrom(rs, plan, index) + IdleFrom(rs, plan, index, now) == Makespan(rs, plan, index, now)
    decreases |rs| - index
  {
    if index < |rs| {
      BusyPlusIdleIsMakespan(rs, plan, ChunkEnd(rs, plan.batch, index), ChunkFinish(rs, plan, index, now));
    }
  }

  lemma {:induction false} StampedAt(chunk: seq<Request>, start: real, finish: real)
    ensures |Stamped(chunk, start, finish)| == |chunk|
    ensures forall i :: 0 <= i < |chunk| ==> Stamped(chunk, start, finish)[i] == Result(chunk[i], start, finish)
  {
    if chunk != [] {
      StampedAt(chunk[1..], start, finish);
    }
  }

  lemma {:induction false} ResultsListRequests(rs: seq<Request>, plan: Plan, index: nat, now: real)
    requires index <= |rs| && 1 <= plan.batch
    ensures |Batches(rs, plan, index, now)| == |rs| - index
    ensures forall i :: 0 <= i < |rs| - index ==> Batches(rs, plan, index, now)[i].request == rs[index + i]
    decreases |rs| - index
  {
    if index < |rs| {
      var end, finish := ChunkEnd(rs, plan.batch, index), ChunkFinish(rs, plan, index, now);
      StampedAt(rs[index..end], ChunkStart(rs, plan.batch, index, now), finish);
      ResultsListRequests(rs, plan, end, finish);
    }
  }

  /** Where batch k begins. */
  function Head(plan: Plan, k: nat): nat
    requires 1 <= plan.batch
  {
    if k == 0 then 0 else Head(plan, k - 1) + plan.batch
  }

  lemma {:induction false} HeadsAreMultiples(plan: Plan, k: nat)
    requires 1 <= plan.batch
    ensures Head(plan, k) == k * plan.batch
  {
    if k > 0 {
      HeadsAreMultiples(plan, k - 1);
    }
  }

  /** When batch k can begin at the earliest: the end of the batch before it. */
  function Free(rs: seq<Request>, plan: Plan, k: nat): real
    requires 1 <= plan.batch && Head(plan, k) < |rs|
  {
    if k == 0 then 0.0 else ChunkFinish(rs, plan, Head(plan, k - 1), Free(rs, plan, k - 1))
  }

  lemma HeadBatch(rs: seq<Request>, plan: Plan, index: nat, now: real)
    requires index < |rs| && 1 <= plan.batch
    ensures var results, end := Batches(rs, plan, index, now), ChunkEnd(rs, plan.batch, index);
      && |results| >= end - index
      && (forall i :: 0 <= i < end - index ==>
            results[i] == Result(rs[index + i], ChunkStart(rs, plan.batch, index, now),
              ChunkFinish(rs, plan, index, now)))
      && results[end - index..] == Batches(rs, plan, end, ChunkFinish(rs, plan, index, now))
  {
    StampedAt(rs[index..ChunkEnd(rs, plan.batch, index)], ChunkStart(rs, plan.batch, index, now),
      ChunkFinish(rs, plan, index, now));
  }

  lemma DropTwice<T>(s: seq<T>, i: nat, j: nat)
    requires i + j <= |s|
    ensures s[i..][j..] == s[i + j..]
  {
  }

  lemma NextBatch(rs: seq<Request>, plan: Plan, index: nat, now: real, all: seq<Result>)
    requires 1 <= plan.batch && index + plan.batch < |rs| && |all| == |rs|
    requires all[index..] == Batches(rs, plan, index, now)
    ensures all[index + plan.batch..] == Batches(rs, plan, index + plan.batch, ChunkFinish(rs, plan, index, now))
  {
    HeadBatch(rs, plan, index, now);
    DropTwice(all, index, plan.batch);
  }

  lemma {:induction false} ResultsFromBatch(rs: seq<Request>, plan: Plan, k: nat, all: seq<Result>)
    requires 1 <= plan.batch && Head(plan, k) < |rs| && |all| == |rs| && all == Batches(rs, plan, 0, 0.0)
    ensures all[Head(plan, k)..] == Batches(rs, plan, Head(plan, k), Free(rs, plan, k))
    decreases k
  {
    if k > 0 {
      var index, now, head, free := Head(plan, k - 1), Free(rs, plan, k - 1), Head(plan, k), Free(rs, plan, k);
      ResultsFromBatch(rs, plan, k - 1, all);
      NextBatch(rs, plan, index, now, all);
      assert free == ChunkFinish(rs, plan, index, now);
      assert head == index + plan.batch;
      assert all[head..] == Batches(rs, plan, head, free);
    } else {
      assert Head(plan, k) == 0 && Free(rs, plan, k) == 0.0;
      assert all[0..] == all;
    }
  }

  /** Batches are consecutive chunks of `c.batch` requests in arrival order (the last may be short).  Every request of a
      batch is stamped with the same times: it starts when the batch before has finished and the batch's last request
      has arrived, and finishes the batch's duration later. */
  lemma BatchKIsStamped(rs: seq<Request>, plan: Plan, k: nat, i: nat)
    requires 1 <= plan.batch && Head(plan, k) <= i < |rs| && i < Head(plan, k) + plan.batch
    ensures |Batches(rs, plan, 0, 0.0)| == |rs|
    ensures Batches(rs, plan, 0, 0.0)[i]
      == Result(rs[i], ChunkStart(rs, plan.batch, Head(plan, k), Free(rs, plan, k)),
        ChunkFinish(rs, plan, Head(plan, k), Free(rs, plan, k)))
  {
    var index := Head(plan, k);
    ResultsListRequests(rs, plan, 0, 0.0);
    ResultsFromBatch(rs, plan, k, Batches(rs, plan, 0, 0.0));
    HeadBatch(rs, plan, index, Free(rs, plan, k));
    assert Batches(rs, plan, 0, 0.0)[i] == Batches(rs, plan, 0, 0.0)[index..][i - index];
  }

  /** finish(k) = max(finish(k - 1), arrival of the last request of batch k) + duration(k), read off the results. */
  lemma FinishFollowsTheBatchBefore(rs: seq<Request>, plan: Plan, k: nat, i: nat, before: nat)
    requires 1 <= plan.batch && Head(plan, k + 1) <= i < |rs| && i < Head(plan, k + 1) + plan.batch
    requires Head(plan, k) <= before < Head(plan, k + 1)
    ensures |Batches(rs, plan, 0, 0.0)| == |rs|
    ensures var all, end := Batches(rs, plan, 0, 0.0), ChunkEnd(rs, plan.batch, Head(plan, k + 1));
      && all[i].start == Later(all[before].finish, rs[end - 1].arrival)
      && all[i].finish == all[i].start + plan.duration(rs[Head(plan, k + 1)..end])
  {
    BatchKIsStamped(rs, plan, k, before);
    BatchKIsStamped(rs, plan, k + 1, i);
  }

  /** And no request starts before it has arrived. */
  lemma StartsAfterArrival(rs: seq<Request>, plan: Plan, k: nat, i: nat)
    requires Sorted(rs) && 1 <= plan.batch && Head(plan, k) <= i < |rs| && i < Head(plan, k) + plan.batch
    ensures |Batches(rs, plan, 0, 0.0)| == |rs| && rs[i].arrival <= Batches(rs, plan, 0, 0.0)[i].start
  {
    BatchKIsStamped(rs, plan, k, i);
    assert i <= ChunkEnd(rs, plan.batch, Head(plan, k)) - 1;
  }

  // ----- the documented rule

  /** The docstring's rule for the start of a batch: the GPU is free and a request has arrived. */
  function DocumentedStart(rs: seq<Request>, index: nat, now: real): real
    requires index < |rs|
  {
    Later(now, rs[index].arrival)
  }

  /** The code follows it exactly when the whole batch has arrived by then. */
  lemma StartsAsDocumentedExactlyWhen(rs: seq<Request>, batch: int, index: nat, now: real)
    requires Sorted(rs) && index < |rs| && 1 <= batch
    ensures ChunkStart(rs, batch, index, now) == DocumentedStart(rs, index, now)
      <==> rs[ChunkEnd(rs, batch, index) - 1].arrival <= DocumentedStart(rs, index, now)
    ensures DocumentedStart(rs, index, now) <= ChunkStart(rs, batch, index, now)
  {
    assert index <= ChunkEnd(rs, batch, index) - 1;
  }

  /** In the results: the requests of batch k start as documented exactly when the last of them had arrived when the
      batch before had finished and the first had arrived, and otherwise later. */
  lemma ResultStartsAsDocumentedExactlyWhen(rs: seq<Request>, plan: Plan, k: nat, i: nat)
    requires Sorted(rs) && 1 <= plan.batch && Head(plan, k) <= i < |rs| && i < Head(plan, k) + plan.batch
    ensures |Batches(rs, plan, 0, 0.0)| == |rs|
    ensures var documented := DocumentedStart(rs, Head(plan, k), Free(rs, plan, k));
      var start := Batches(rs, plan, 0, 0.0)[i].start;
      && documented <= start
      && (start == documented <==> rs[ChunkEnd(rs, plan.batch, Head(plan, k)) - 1].arrival <= documented)
  {
    BatchKIsStamped(rs, plan, k, i);
    StartsAsDocumentedExactlyWhen(rs, plan.batch, Head(plan, k), Free(rs, plan, k));
  }

  /** It fails, for one, for two requests that arrive at 0 and at 10 with a batch size of 2: by the rule the first
      starts at 0, in the code it starts at 10. */
  lemma FirstRequestWaitsForTheSecond(rs: seq<Request>, plan: Plan)
    requires |rs| == 2 && rs[0].arrival == 0.0 && rs[1].arrival == 10.0 && plan.batch == 2
    ensures DocumentedStart(rs, 0, 0.0) == 0.0
    ensures |Batches(rs, plan, 0, 0.0)| == 2 && Batches(rs, plan, 0, 0.0)[0].start == 10.0
  {
    BatchKIsStamped(rs, plan, 0, 0);
  }
}
