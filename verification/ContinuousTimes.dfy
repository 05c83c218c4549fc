/** When a request of the continuous batching simulation starts and how long it takes
    (scripts/scheduler_simulation.py:190-257), for sensible costs and distinct ids. */
module ContinuousTimes {
  import opened Requests
  import opened ContinuousBatching
  import opened ContinuousTheorems

  /** So many decode steps with nobody else active. */
  function Alone(c: Costs, n: nat): real {
    if n == 0 then 0.0 else Alone(c, n - 1) + StepTime(c, 1)
  }

  lemma {:induction false} AloneIsProduct(c: Costs, n: nat)
    ensures Alone(c, n) == n as real * StepTime(c, 1)
  {
    if n > 0 {
      AloneIsProduct(c, n - 1);
      assert n as real * StepTime(c, 1) == (n - 1) as real * StepTime(c, 1) + StepTime(c, 1);
    }
  }

  lemma StepIsNoShorterThanAlone(c: Costs, n: nat)
    requires 0.0 <= c.stepPerRequest && 1 <= n
    ensures StepTime(c, 1) <= StepTime(c, n)
  {
    assert c.stepPerRequest * (n as real) == c.stepPerRequest * ((n - 1) as real) + c.stepPerRequest;
    assert 0.0 <= c.stepPerRequest * ((n - 1) as real);
  }

  /** The first waiting request leaves the list: its start is the clock at that moment, which is busy plus idle time,
      before its prefill is added to either; nobody else's start changes. */
  lemma StartIsTheClock(rs: seq<Request>, c: Costs, s: Sim)
    requires TimeInv(c, s) && s.pending <= |rs| && s.waiting != []
    ensures var t, r := StartOne(rs, c, s), s.waiting[0];
      && t.starts == s.starts[r.id := s.busy + s.idle]
      && t.now == s.now + PrefillTime(r, c) && t.busy + t.idle == s.busy + s.idle + PrefillTime(r, c)
      && t.started == s.started + [r] && t.active == s.active + [Active(r, r.output, s.steps)]
      && t.peak == MaxInt(s.peak, |t.active|)
      && t.completed == s.completed && t.gaps == s.gaps && t.steps == s.steps
  {
    StartMoves(rs, c, s);
    var r := s.waiting[0];
    AdmitKeeps(rs, s.(waiting := s.waiting[1..], starts := s.starts[r.id := s.now],
                      now := s.now + PrefillTime(r, c), busy := s.busy + PrefillTime(r, c)));
  }

  // ----- where completed and remaining requests come from

  lemma {:induction false} CompletionFrom(active: seq<Active>, starts: map<int, real>, now: real, steps: nat, i: nat)
    returns (j: nat)
    requires StartsKnown(active, starts) && i < |Completions(active, starts, now, steps)|
    ensures j < |active|
    ensures Completions(active, starts, now, steps)[i]
         == Result(active[j].request, starts[active[j].request.id], now, active[j].born, steps)
    decreases active
  {
    if Stepped(active[0]).remaining <= 0 {
      if i == 0 {
        j := 0;
      } else {
        j := CompletionFrom(active[1..], starts, now, steps, i - 1);
        j := j + 1;
      }
    } else {
      j := CompletionFrom(active[1..], starts, now, steps, i);
      j := j + 1;
    }
  }

  lemma {:induction false} RemainingFrom(active: seq<Active>, i: nat) returns (j: nat)
    requires i < |StillActive(active)|
    ensures j < |active| && StillActive(active)[i] == Stepped(active[j])
    decreases active
  {
    if Stepped(active[0]).remaining <= 0 {
      j := RemainingFrom(active[1..], i);
      j := j + 1;
    } else if i == 0 {
      j := 0;
    } else {
      j := RemainingFrom(active[1..], i - 1);
      j := j + 1;
    }
  }

  // ----- how long a request takes

  predicate ActiveTook(c: Costs, s: Sim, a: Active) {
    && a.born <= s.steps && a.request.id in s.starts
    && s.starts[a.request.id] + PrefillTime(a.request, c) + Alone(c, s.steps - a.born) <= s.now
  }

  predicate ResultTook(c: Costs, r: Result) {
    r.born <= r.died && r.start + PrefillTime(r.request, c) + Alone(c, r.died - r.born) <= r.finish
  }

  predicate TookInv(c: Costs, s: Sim) {
    && (forall i :: 0 <= i < |s.active| ==> ActiveTook(c, s, s.active[i]))
    && (forall i :: 0 <= i < |s.completed| ==> ResultTook(c, s.completed[i]))
  }

  lemma StartKeepsTook(rs: seq<Request>, c: Costs, s: Sim)
    requires Sensible(rs, c) && DistinctIds(rs) && OrderInv(rs, c, s) && TimeInv(c, s) && TookInv(c, s)
    requires s.waiting != [] && |s.active| < c.maxActive
    ensures TookInv(c, StartOne(rs, c, s))
  {
    var t, r, n := StartOne(rs, c, s), s.waiting[0], |s.started|;
    StartIsTheClock(rs, c, s);
    assert r == rs[n];
    PrefillNotNegative(rs, c, n);
    forall i | 0 <= i < |t.active| ensures ActiveTook(c, t, t.active[i]) {
      if i < |s.active| {
        assert ActiveTook(c, s, s.active[i]);
        assert RequestsOf(s.active)[i] == s.active[i].request;
        var j := StartedIndex(rs, c, s, s.active[i].request);
        assert rs[j].id != rs[n].id;
      }
    }
  }

  lemma DecodeKeepsTook(rs: seq<Request>, c: Costs, s: Sim)
    requires Sensible(rs, c) && StartsKnown(s.active, s.starts) && s.active != [] && TookInv(c, s)
    ensures TookInv(c, Decode(c, s))
  {
    var t := Decode(c, s);
    StepIsNoShorterThanAlone(c, |s.active|);
    forall i | 0 <= i < |t.active| ensures ActiveTook(c, t, t.active[i]) {
      var j := RemainingFrom(s.active, i);
      assert ActiveTook(c, s, s.active[j]);
    }
    forall i | 0 <= i < |t.completed| ensures ResultTook(c, t.completed[i]) {
      if i < |s.completed| {
        assert ResultTook(c, s.completed[i]);
      } else {
        var j := CompletionFrom(s.active, s.starts, t.now, t.steps, i - |s.completed|);
        assert ActiveTook(c, s, s.active[j]);
      }
    }
  }

  // ----- starts are a prefill apart

  /** Each started request was through with its prefill by now, and before the next one started. */
  predicate PrefilledInv(rs: seq<Request>, c: Costs, s: Sim) {
    && |s.started| <= |rs|
    && (forall i :: 0 <= i < |s.started| ==>
          rs[i].id in s.starts && s.starts[rs[i].id] + PrefillTime(rs[i], c) <= s.now)
    && (forall i, j :: 0 <= i < j < |s.started| && rs[i].id in s.starts && rs[j].id in s.starts ==>
          s.starts[rs[i].id] + PrefillTime(rs[i], c) <= s.starts[rs[j].id])
  }

  lemma StartKeepsPrefilled(rs: seq<Request>, c: Costs, s: Sim)
    requires Sensible(rs, c) && DistinctIds(rs) && OrderInv(rs, c, s) && TimeInv(c, s) && PrefilledInv(rs, c, s)
    requires s.waiting != [] && |s.active| < c.maxActive
    ensures PrefilledInv(rs, c, StartOne(rs, c, s))
  {
    var t, r, n := StartOne(rs, c, s), s.waiting[0], |s.started|;
    StartIsTheClock(rs, c, s);
    assert r == rs[n];
    PrefillNotNegative(rs, c, n);
    forall i | 0 <= i < n ensures t.starts[rs[i].id] == s.starts[rs[i].id] {
      assert rs[i].id != rs[n].id;
    }
  }

  // ----- a gap ends with a start

  /** The request whose arrival ends the gap has started at that very moment. */
  predicate EndedBy(rs: seq<Request>, s: Sim, g: Gap, i: nat) {
    i < |s.started| <= |rs| && rs[i].arrival == g.until && rs[i].id in s.starts && s.starts[rs[i].id] == g.until
  }

  /** Or it is just about to. */
  predicate AboutToEnd(rs: seq<Request>, s: Sim, g: Gap) {
    |s.started| < |rs| && rs[|s.started|].arrival == g.until == s.now && s.active == []
  }

  ghost predicate GapEndInv(rs: seq<Request>, s: Sim) {
    forall k :: 0 <= k < |s.gaps| ==>
      AboutToEnd(rs, s, s.gaps[k]) || exists i: nat :: EndedBy(rs, s, s.gaps[k], i)
  }

  lemma StartKeepsGapEnds(rs: seq<Request>, c: Costs, s: Sim)
    requires Sensible(rs, c) && DistinctIds(rs) && OrderInv(rs, c, s) && TimeInv(c, s) && GapEndInv(rs, s)
    requires s.waiting != [] && |s.active| < c.maxActive
    ensures GapEndInv(rs, StartOne(rs, c, s))
  {
    var t, r, n := StartOne(rs, c, s), s.waiting[0], |s.started|;
    StartIsTheClock(rs, c, s);
    assert r == rs[n];
    forall k | 0 <= k < |t.gaps| ensures exists i: nat :: EndedBy(rs, t, t.gaps[k], i) {
      if AboutToEnd(rs, s, s.gaps[k]) {
        assert EndedBy(rs, t, t.gaps[k], n);
      } else {
        var i: nat :| EndedBy(rs, s, s.gaps[k], i);
        assert rs[i].id != rs[n].id;
        assert EndedBy(rs, t, t.gaps[k], i);
      }
    }
  }

  lemma JumpKeepsGapEnds(rs: seq<Request>, c: Costs, s: Sim)
    requires 1 <= c.maxActive && OrderInv(rs, c, s) && Idling(rs, c, s) && GapEndInv(rs, s)
    ensures GapEndInv(rs, Jump(rs, s))
  {
    var t := Jump(rs, s);
    assert |s.started| == s.pending;
    forall k | 0 <= k < |t.gaps| ensures AboutToEnd(rs, t, t.gaps[k]) || exists i: nat :: EndedBy(rs, t, t.gaps[k], i) {
      if k < |s.gaps| {
        assert !AboutToEnd(rs, s, s.gaps[k]);
        var i: nat :| EndedBy(rs, s, s.gaps[k], i);
        assert EndedBy(rs, t, t.gaps[k], i);
      }
    }
  }

  /** Steps that start nothing and jump nowhere leave every finished gap finished. */
  lemma OthersKeepGapEnds(rs: seq<Request>, s: Sim, t: Sim)
    requires GapEndInv(rs, s) && t.gaps == s.gaps && t.started == s.started && t.starts == s.starts
    requires s.active != [] || (t.active == [] && t.now == s.now)
    ensures GapEndInv(rs, t)
  {
    forall k | 0 <= k < |t.gaps| ensures AboutToEnd(rs, t, t.gaps[k]) || exists i: nat :: EndedBy(rs, t, t.gaps[k], i) {
      if !AboutToEnd(rs, s, s.gaps[k]) {
        var i: nat :| EndedBy(rs, s, s.gaps[k], i);
        assert EndedBy(rs, t, t.gaps[k], i);
      }
    }
  }

  // ----- together

  ghost predicate Timed(rs: seq<Request>, c: Costs, s: Sim) {
    && Starting(rs, c, s) && TimeInv(c, s)
    && TookInv(c, s) && PrefilledInv(rs, c, s) && GapEndInv(rs, s)
  }

  lemma AdmitKeepsTook(rs: seq<Request>, c: Costs, s: Sim)
    requires TookInv(c, s) && Sane(rs, s)
    ensures TookInv(c, Admit(rs, s))
  {
    var t := Admit(rs, s);
    AdmitKeeps(rs, s);
    forall i | 0 <= i < |t.active| ensures ActiveTook(c, t, t.active[i]) {
      assert ActiveTook(c, s, s.active[i]);
    }
  }

  lemma AdmitKeepsTimed(rs: seq<Request>, c: Costs, s: Sim)
    requires Timed(rs, c, s) && Sane(rs, s)
    ensures Timed(rs, c, Admit(rs, s))
  {
    var t := Admit(rs, s);
    assert Starting(rs, c, t) by { AdmitKeepsStarting(rs, c, s); }
    assert TookInv(c, t) by { AdmitKeepsTook(rs, c, s); }
    AdmitKeeps(rs, s);
    assert TimeInv(c, t);
    assert PrefilledInv(rs, c, t);
    assert GapEndInv(rs, t) by { OthersKeepGapEnds(rs, s, t); }
  }

  lemma StartKeepsTimed(rs: seq<Request>, c: Costs, s: Sim)
    requires Sensible(rs, c) && DistinctIds(rs) && Timed(rs, c, s) && Sane(rs, s)
    requires s.waiting != [] && |s.active| < c.maxActive
    ensures Timed(rs, c, StartOne(rs, c, s))
  {
    var t := StartOne(rs, c, s);
    assert Starting(rs, c, t) by { StartKeepsStarting(rs, c, s); }
    assert TimeInv(c, t) by { StartKeepsTime(rs, c, s); }
    assert TookInv(c, t) by { StartKeepsTook(rs, c, s); }
    assert PrefilledInv(rs, c, t) by { StartKeepsPrefilled(rs, c, s); }
    assert GapEndInv(rs, t) by { StartKeepsGapEnds(rs, c, s); }
  }

  lemma JumpKeepsTimed(rs: seq<Request>, c: Costs, s: Sim)
    requires Sensible(rs, c) && Timed(rs, c, s) && Idling(rs, c, s)
    ensures Timed(rs, c, Jump(rs, s))
  {
    assert Starting(rs, c, Jump(rs, s)) by { JumpKeepsStarting(rs, c, s); }
    assert TimeInv(c, Jump(rs, s)) by { JumpKeepsTime(rs, c, s); }
    assert GapEndInv(rs, Jump(rs, s)) by { JumpKeepsGapEnds(rs, c, s); }
  }

  lemma DecodeKeepsTimed(rs: seq<Request>, c: Costs, s: Sim)
    requires Sensible(rs, c) && Timed(rs, c, s) && Sane(rs, s) && s.active != []
    ensures Timed(rs, c, Decode(c, s))
  {
    var t := Decode(c, s);
    assert Starting(rs, c, t) by { DecodeKeepsStarting(rs, c, s); }
    assert TimeInv(c, t) by { DecodeKeepsTime(c, s); }
    assert TookInv(c, t) by { DecodeKeepsTook(rs, c, s); }
    assert GapEndInv(rs, t) by { OthersKeepGapEnds(rs, s, t); }
    StepNotNegative(c, |s.active|);
  }

  lemma TimedAlways(rs: seq<Request>, c: Costs)
    requires Sensible(rs, c) && DistinctIds(rs)
    ensures Timed(rs, c, Simulate(rs, c, INITIAL))
  {
    var P := (s: Sim) => Timed(rs, c, s);
    forall s | P(s) && Sane(rs, s) ensures P(Admit(rs, s)) { AdmitKeepsTimed(rs, c, s); }
    forall s | P(s) && Sane(rs, s) && s.waiting != [] && |s.active| < c.maxActive ensures P(StartOne(rs, c, s)) {
      StartKeepsTimed(rs, c, s);
    }
    forall s | P(s) && Idling(rs, c, s) ensures P(Jump(rs, s)) { JumpKeepsTimed(rs, c, s); }
    forall s | P(s) && Sane(rs, s) && s.active != [] ensures P(Decode(c, s)) { DecodeKeepsTimed(rs, c, s); }
    SimulateInduction(P, rs, c, INITIAL);
  }

  lemma EveryResultTook(rs: seq<Request>, c: Costs, i: nat)
    requires Sensible(rs, c) && DistinctIds(rs) && i < |Simulate(rs, c, INITIAL).completed|
    ensures ResultTook(c, Simulate(rs, c, INITIAL).completed[i])
  {
    TimedAlways(rs, c);
  }

  lemma TookAtLeast(c: Costs, r: Result)
    requires ResultTook(c, r) && r.died - r.born == MaxInt(1, r.request.output)
    ensures r.finish - r.start >= PrefillTime(r.request, c) + MaxInt(1, r.request.output) as real * StepTime(c, 1)
  {
    var n: nat := r.died - r.born;
    AloneIsProduct(c, n);
    assert MaxInt(1, r.request.output) as real == n as real;
  }

  /** Between its start and its finish a request has its prefill and a decode step for each token, at least one, and a
      step is never shorter than for one request alone. */
  lemma RequestsTakeTheirTime(requests: seq<Request>, c: Costs, i: nat)
    requires Sensible(SortByArrival(requests), c) && DistinctIds(SortByArrival(requests))
    requires i < |Simulate(SortByArrival(requests), c, INITIAL).completed|
    ensures var r := Simulate(SortByArrival(requests), c, INITIAL).completed[i];
      r.finish - r.start >= PrefillTime(r.request, c) + MaxInt(1, r.request.output) as real * StepTime(c, 1)
  {
    var t := Simulate(SortByArrival(requests), c, INITIAL);
    EveryRequestRunsItsSteps(requests, c, i);
    EveryResultTook(SortByArrival(requests), c, i);
    TookAtLeast(c, t.completed[i]);
  }

  /** A request starts no sooner than every earlier one in arrival order is through with its prefill. */
  lemma StartsArePrefillsApart(requests: seq<Request>, c: Costs, i: nat, j: nat, a: nat, b: nat)
    requires Sensible(SortByArrival(requests), c) && DistinctIds(SortByArrival(requests))
    requires var rs, completed := SortByArrival(requests), Simulate(SortByArrival(requests), c, INITIAL).completed;
      && i < |completed| && j < |completed|
      && a < b < |rs| && completed[i].request == rs[a] && completed[j].request == rs[b]
    ensures var completed := Simulate(SortByArrival(requests), c, INITIAL).completed;
      completed[i].start + PrefillTime(completed[i].request, c) <= completed[j].start
  {
    var rs := SortByArrival(requests);
    var t := Simulate(rs, c, INITIAL);
    TimedAlways(rs, c);
    EveryRequestCompletesOnce(requests, c);
  }

  /** The arrival that ends an idle gap is a start: that request waits for nothing. */
  lemma GapsEndWithAStart(requests: seq<Request>, c: Costs, k: nat)
    requires Sensible(SortByArrival(requests), c) && DistinctIds(SortByArrival(requests))
    requires k < |Simulate(SortByArrival(requests), c, INITIAL).gaps|
    ensures var t := Simulate(SortByArrival(requests), c, INITIAL);
      exists i :: 0 <= i < |t.completed| && t.completed[i].start == t.completed[i].request.arrival == t.gaps[k].until
  {
    var rs := SortByArrival(requests);
    var t := Simulate(rs, c, INITIAL);
    TimedAlways(rs, c);
    EveryRequestCompletesOnce(requests, c);
    var m: nat :| EndedBy(rs, t, t.gaps[k], m);
    var i := CompletedIndex(requests, t.completed, rs[m]);
    assert t.completed[i].start == t.starts[rs[m].id];
  }

  lemma CompletedIndex(requests: seq<Request>, completed: seq<Result>, r: Request) returns (i: nat)
    requires multiset(Served(completed)) == multiset(requests) && r in SortByArrival(requests)
    ensures i < |completed| && completed[i].request == r
  {
    SortIsSorted(requests);
    assert r in multiset(SortByArrival(requests));
    assert r in multiset(Served(completed));
    i :| 0 <= i < |Served(completed)| && Served(completed)[i] == r;
  }
}
