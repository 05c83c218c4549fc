/** What the continuous batching simulation computes, for every list of requests. */
module ContinuousTheorems {
  import opened Requests
  import opened ContinuousBatching

  // ----- the induction principle for the whole simulation

  /** The states in which the simulation jumps to the next arrival. */
  predicate Idling(rs: seq<Request>, c: Costs, s: Sim) {
    && Sane(rs, s) && s.active == [] && s.pending < |rs| && s.now < rs[s.pending].arrival
    && (s.waiting == [] || c.maxActive <= 0)
  }

  ghost predicate Inductive(P: Sim -> bool, rs: seq<Request>, c: Costs) {
    && (forall s :: P(s) && Sane(rs, s) ==> P(Admit(rs, s)))
    && (forall s :: P(s) && Sane(rs, s) && s.waiting != [] && |s.active| < c.maxActive ==> P(StartOne(rs, c, s)))
    && (forall s :: P(s) && Idling(rs, c, s) ==> P(Jump(rs, s)))
    && (forall s :: P(s) && Sane(rs, s) && s.active != [] ==> P(Decode(c, s)))
  }

  lemma {:induction false} FillInduction(P: Sim -> bool, rs: seq<Request>, c: Costs, s: Sim)
    requires Inductive(P, rs, c) && P(s) && Sane(rs, s)
    ensures P(Fill(rs, c, s))
    decreases c.maxActive - |s.active|
  {
    if s.waiting != [] && |s.active| < c.maxActive {
      StartOneKeepsWork(rs, c, s);
      FillInduction(P, rs, c, StartOne(rs, c, s));
    }
  }

  lemma RoundInduction(P: Sim -> bool, rs: seq<Request>, c: Costs, s: Sim)
    requires Inductive(P, rs, c) && P(s) && Sane(rs, s)
    ensures P(Ready(rs, c, s))
    ensures !Stuck(rs, Ready(rs, c, s)) ==> P(Round(rs, c, s))
  {
    AdmitKeeps(rs, s);
    assert P(Admit(rs, s));
    FillInduction(P, rs, c, Admit(rs, s));
    ReadyKeeps(rs, c, s);
  }

  /** What admitting, starting, jumping and decoding all keep holds when the simulation ends. */
  lemma {:induction false} SimulateInduction(P: Sim -> bool, rs: seq<Request>, c: Costs, s: Sim)
    requires Inductive(P, rs, c) && P(s) && Sane(rs, s)
    ensures P(Simulate(rs, c, s))
    decreases Work(rs, s), |rs| - s.pending, IdleFlag(rs, s)
  {
    if |s.completed| < |rs| {
      SimulateUnfolds(rs, c, s);
      RoundInduction(P, rs, c, s);
      if !Stuck(rs, Ready(rs, c, s)) {
        SimulateInduction(P, rs, c, Round(rs, c, s));
      }
    }
  }

  /** One pass of the outer loop; at the end nothing happens any more. */
  function OnePass(rs: seq<Request>, c: Costs, s: Sim): (t: Sim)
    requires Sane(rs, s)
    ensures Sane(rs, t)
  {
    ReadyKeeps(rs, c, s);
    if |rs| <= |s.completed| then s
    else if Stuck(rs, Ready(rs, c, s)) then Ready(rs, c, s)
    else
      RoundDecreases(rs, c, s);
      Round(rs, c, s)
  }

  /** The simulation after `n` passes. */
  function Passes(rs: seq<Request>, c: Costs, n: nat): (s: Sim)
    ensures Sane(rs, s)
  {
    if n == 0 then INITIAL else OnePass(rs, c, Passes(rs, c, n - 1))
  }

  lemma PassInduction(P: Sim -> bool, rs: seq<Request>, c: Costs, s: Sim)
    requires Inductive(P, rs, c) && P(s) && Sane(rs, s)
    ensures P(OnePass(rs, c, s))
  {
    RoundInduction(P, rs, c, s);
  }

  lemma {:induction false} PassesIterate(P: Sim -> bool, rs: seq<Request>, c: Costs, n: nat)
    requires P(INITIAL) && forall s :: P(s) && Sane(rs, s) ==> P(OnePass(rs, c, s))
    ensures P(Passes(rs, c, n))
  {
    if n > 0 {
      var s := Passes(rs, c, n - 1);
      assert P(s) by { PassesIterate(P, rs, c, n - 1); }
      OneMorePass(P, rs, c, s);
    }
  }

  lemma OneMorePass(P: Sim -> bool, rs: seq<Request>, c: Costs, s: Sim)
    requires P(s) && Sane(rs, s) && forall t :: P(t) && Sane(rs, t) ==> P(OnePass(rs, c, t))
    ensures P(OnePass(rs, c, s))
  {
  }

  /** The same induction, for every moment between two passes. */
  lemma PassesInduction(P: Sim -> bool, rs: seq<Request>, c: Costs, n: nat)
    requires Inductive(P, rs, c) && P(INITIAL)
    ensures P(Passes(rs, c, n))
  {
    forall s | P(s) && Sane(rs, s) ensures P(OnePass(rs, c, s)) {
      PassInduction(P, rs, c, s);
    }
    PassesIterate(P, rs, c, n);
  }

  // ----- order and conservation of requests

  function RequestsOf(active: seq<Active>): seq<Request> {
    seq(|active|, i requires 0 <= i < |active| => active[i].request)
  }

  function Served(completed: seq<Result>): seq<Request> {
    seq(|completed|, i requires 0 <= i < |completed| => completed[i].request)
  }

  /** Requests start in arrival order; each started one is active or completed, and only once. */
  predicate OrderInv(rs: seq<Request>, c: Costs, s: Sim) {
    && |s.started| <= s.pending <= |rs|
    && s.started == rs[..|s.started|] && s.waiting == rs[|s.started|..s.pending]
    && multiset(s.started) == multiset(RequestsOf(s.active)) + multiset(Served(s.completed))
    && |s.started| == |s.active| + |s.completed|
    && (0 <= c.maxActive ==> s.peak <= c.maxActive && |s.active| <= c.maxActive)
  }

  lemma OneMoreServed(r: Request, all: seq<Request>, still: seq<Request>, done: seq<Request>)
    requires multiset(all) == multiset(still) + multiset(done)
    ensures multiset([r] + all) == multiset([r] + still) + multiset(done)
    ensures multiset([r] + all) == multiset(still) + multiset([r] + done)
  {
  }

  lemma {:induction false} DecodeConserves(active: seq<Active>, starts: map<int, real>, now: real, steps: nat)
    requires StartsKnown(active, starts)
    ensures var done := Completions(active, starts, now, steps);
      && multiset(RequestsOf(active)) == multiset(RequestsOf(StillActive(active))) + multiset(Served(done))
      && |active| == |StillActive(active)| + |done|
    decreases active
  {
    if active != [] {
      var tail := active[1..];
      DecodeConserves(tail, starts, now, steps);
      DecodeUnfolds(active, starts, now, steps);
      OneMoreServed(active[0].request, RequestsOf(tail), RequestsOf(StillActive(tail)),
        Served(Completions(tail, starts, now, steps)));
    }
  }

  /** In a decode step the first active request either stays or is served. */
  lemma DecodeUnfolds(active: seq<Active>, starts: map<int, real>, now: real, steps: nat)
    requires active != [] && StartsKnown(active, starts)
    ensures var r, tail := active[0].request, active[1..];
      var still, done := RequestsOf(StillActive(tail)), Served(Completions(tail, starts, now, steps));
      && RequestsOf(active) == [r] + RequestsOf(tail)
      && (Stepped(active[0]).remaining <= 0 ==>
            && RequestsOf(StillActive(active)) == still
            && Served(Completions(active, starts, now, steps)) == [r] + done)
      && (Stepped(active[0]).remaining > 0 ==>
            && RequestsOf(StillActive(active)) == [r] + still
            && Served(Completions(active, starts, now, steps)) == done)
  {
    var r, tail := active[0].request, active[1..];
    if Stepped(active[0]).remaining <= 0 {
      var x := Result(r, starts[r.id], now, active[0].born, steps);
      assert Completions(active, starts, now, steps) == [x] + Completions(tail, starts, now, steps);
      ServedSplits([x], Completions(tail, starts, now, steps));
    } else {
      assert StillActive(active) == [Stepped(active[0])] + StillActive(tail);
      RequestsOfSplits([Stepped(active[0])], StillActive(tail));
    }
  }

  lemma ServedSplits(a: seq<Result>, b: seq<Result>)
    ensures Served(a + b) == Served(a) + Served(b)
  {
  }

  lemma RequestsOfSplits(a: seq<Active>, b: seq<Active>)
    ensures RequestsOf(a + b) == RequestsOf(a) + RequestsOf(b)
  {
  }

  lemma AdmitKeepsOrder(rs: seq<Request>, c: Costs, s: Sim)
    requires OrderInv(rs, c, s)
    ensures OrderInv(rs, c, Admit(rs, s))
  {
    AdmitKeeps(rs, s);
    var t := Admit(rs, s);
    assert rs[|s.started|..s.pending] + rs[s.pending..t.pending] == rs[|s.started|..t.pending];
  }

  /** The first waiting request is the next one in arrival order; what waits after it is started is what follows. */
  lemma NextInOrder(rs: seq<Request>, n: nat, pending: nat, later: nat)
    requires n < pending <= later <= |rs|
    ensures rs[..n] + [rs[n]] == rs[..n + 1]
    ensures rs[n..pending][1..] + rs[pending..later] == rs[n + 1..later]
  {
  }

  lemma StartedIsActive(started: seq<Request>, active: seq<Active>, served: seq<Request>, a: Active)
    requires multiset(started) == multiset(RequestsOf(active)) + multiset(served)
    ensures multiset(started + [a.request]) == multiset(RequestsOf(active + [a])) + multiset(served)
  {
    RequestsOfSplits(active, [a]);
    assert RequestsOf([a]) == [a.request];
  }

  lemma StartKeepsOrder(rs: seq<Request>, c: Costs, s: Sim)
    requires OrderInv(rs, c, s) && s.waiting != [] && |s.active| < c.maxActive
    ensures OrderInv(rs, c, StartOne(rs, c, s))
  {
    var r := s.waiting[0];
    var u := s.(waiting := s.waiting[1..], starts := s.starts[r.id := s.now],
                now := s.now + PrefillTime(r, c), busy := s.busy + PrefillTime(r, c));
    AdmitKeeps(rs, u);
    NextInOrder(rs, |s.started|, s.pending, Admit(rs, u).pending);
    StartedIsActive(s.started, s.active, Served(s.completed), Active(r, r.output, s.steps));
  }

  lemma DecodeKeepsOrder(rs: seq<Request>, c: Costs, s: Sim)
    requires OrderInv(rs, c, s) && StartsKnown(s.active, s.starts)
    ensures OrderInv(rs, c, Decode(c, s))
  {
    var done := Completions(s.active, s.starts, s.now + StepTime(c, |s.active|), s.steps + 1);
    DecodeConserves(s.active, s.starts, s.now + StepTime(c, |s.active|), s.steps + 1);
    ServedUnion(s.completed, done);
    var t := Decode(c, s);
    assert t.completed == s.completed + done && t.active == StillActive(s.active);
    assert t.started == s.started && t.waiting == s.waiting && t.pending == s.pending && t.peak == s.peak;
  }

  lemma ServedUnion(a: seq<Result>, b: seq<Result>)
    ensures multiset(Served(a + b)) == multiset(Served(a)) + multiset(Served(b))
  {
    ServedSplits(a, b);
  }

  lemma OrderAlways(rs: seq<Request>, c: Costs)
    ensures OrderInv(rs, c, Simulate(rs, c, INITIAL))
  {
    var P := (s: Sim) => OrderInv(rs, c, s);
    forall s | P(s) && Sane(rs, s) ensures P(Admit(rs, s)) { AdmitKeepsOrder(rs, c, s); }
    forall s | P(s) && Sane(rs, s) && s.waiting != [] && |s.active| < c.maxActive ensures P(StartOne(rs, c, s)) {
      StartKeepsOrder(rs, c, s);
    }
    forall s | P(s) && Sane(rs, s) && s.active != [] ensures P(Decode(c, s)) { DecodeKeepsOrder(rs, c, s); }
    SimulateInduction(P, rs, c, INITIAL);
  }

  // ----- the break

  lemma {:induction false} EndsDone(rs: seq<Request>, c: Costs, s: Sim)
    requires Sane(rs, s) && OrderInv(rs, c, s)
    ensures var t := Simulate(rs, c, s);
      |rs| <= |t.completed| || (Stuck(rs, t) && (t.waiting == [] || c.maxActive <= 0))
    decreases Work(rs, s), |rs| - s.pending, IdleFlag(rs, s)
  {
    if |s.completed| < |rs| {
      SimulateUnfolds(rs, c, s);
      ReadyKeeps(rs, c, s);
      if !Stuck(rs, Ready(rs, c, s)) {
        RoundKeepsOrder(rs, c, s);
        EndsDone(rs, c, Round(rs, c, s));
      }
    }
  }

  lemma RoundKeepsOrder(rs: seq<Request>, c: Costs, s: Sim)
    requires Sane(rs, s) && OrderInv(rs, c, s) && !Stuck(rs, Ready(rs, c, s))
    ensures OrderInv(rs, c, Round(rs, c, s))
  {
    var P := (x: Sim) => OrderInv(rs, c, x);
    forall x | P(x) && Sane(rs, x) ensures P(Admit(rs, x)) { AdmitKeepsOrder(rs, c, x); }
    forall x | P(x) && Sane(rs, x) && x.waiting != [] && |x.active| < c.maxActive ensures P(StartOne(rs, c, x)) {
      StartKeepsOrder(rs, c, x);
    }
    forall x | P(x) && Sane(rs, x) && x.active != [] ensures P(Decode(c, x)) { DecodeKeepsOrder(rs, c, x); }
    RoundInduction(P, rs, c, s);
  }

  /** Nothing ever becomes active when the cap is not positive. */
  lemma NoCapNoService(rs: seq<Request>, c: Costs)
    requires c.maxActive <= 0
    ensures Simulate(rs, c, INITIAL).completed == []
  {
    var P := (s: Sim) => s.active == [] && s.completed == [];
    forall s | P(s) && Sane(rs, s) ensures P(Admit(rs, s)) { AdmitKeeps(rs, s); }
    SimulateInduction(P, rs, c, INITIAL);
  }

  /** With room for at least one request, every request is completed exactly once, in a run that starts them in arrival
      order and never has more than the cap active; without room none is, and the loop ends by its break. */
  lemma EveryRequestCompletesOnce(requests: seq<Request>, c: Costs)
    ensures var t := Simulate(SortByArrival(requests), c, INITIAL);
      if 1 <= c.maxActive || requests == [] then
        && multiset(Served(t.completed)) == multiset(requests)
        && |t.completed| == |requests|
        && t.started == SortByArrival(requests)
        && (1 <= c.maxActive ==> t.peak <= c.maxActive)
      else t.completed == []
  {
    var rs := SortByArrival(requests);
    var t := Simulate(rs, c, INITIAL);
    SortIsSorted(requests);
    assert |rs| == |requests| by { assert |multiset(rs)| == |multiset(requests)|; }
    OrderAlways(rs, c);
    EndsDone(rs, c, INITIAL);
    if 1 <= c.maxActive || requests == [] {
      assert |t.started| == |rs|;
      assert rs[..|rs|] == rs && RequestsOf([]) == [];
      assert t.active == [];
    } else {
      NoCapNoService(rs, c);
    }
  }

  // ----- tokens and decode steps

  /** Decode steps the active requests have taken part in, together. */
  function Ages(active: seq<Active>, steps: nat): int {
    if active == [] then 0 else steps - active[0].born + Ages(active[1..], steps)
  }

  function NeedServed(completed: seq<Result>): nat {
    if completed == [] then 0 else Need(completed[0].request) + NeedServed(completed[1..])
  }

  predicate InStep(a: Active, steps: nat) {
    && a.born <= steps
    && a.remaining == a.request.output - (steps - a.born)
    && (a.born < steps ==> 0 < a.remaining)
  }

  predicate RanFully(r: Result, steps: nat) {
    r.died <= steps && r.died - r.born == Need(r.request)
  }

  predicate TokenInv(c: Costs, s: Sim) {
    && (forall i :: 0 <= i < |s.active| ==> InStep(s.active[i], s.steps))
    && (forall i :: 0 <= i < |s.completed| ==> RanFully(s.completed[i], s.steps))
    && s.occupancy == Ages(s.active, s.steps) + NeedServed(s.completed)
  }

  lemma {:induction false} AgesSplit(a: seq<Active>, b: seq<Active>, steps: nat)
    ensures Ages(a + b, steps) == Ages(a, steps) + Ages(b, steps)
    decreases a
  {
    if a == [] {
      assert a + b == b;
    } else {
      assert (a + b)[1..] == a[1..] + b;
      AgesSplit(a[1..], b, steps);
    }
  }

  lemma {:induction false} NeedServedSplit(a: seq<Result>, b: seq<Result>)
    ensures NeedServed(a + b) == NeedServed(a) + NeedServed(b)
    decreases a
  {
    if a == [] {
      assert a + b == b;
    } else {
      assert (a + b)[1..] == a[1..] + b;
      NeedServedSplit(a[1..], b);
    }
  }

  /** In one decode step every active request ages by one; those that leave have taken exactly the steps they need. */
  lemma {:induction false} DecodeTokens(active: seq<Active>, starts: map<int, real>, now: real, steps: nat)
    requires StartsKnown(active, starts) && forall i :: 0 <= i < |active| ==> InStep(active[i], steps)
    ensures var done := Completions(active, starts, now, steps + 1);
      && Ages(active, steps) + |active| == Ages(StillActive(active), steps + 1) + NeedServed(done)
      && (forall i :: 0 <= i < |StillActive(active)| ==> InStep(StillActive(active)[i], steps + 1))
      && (forall i :: 0 <= i < |done| ==> RanFully(done[i], steps + 1))
    decreases active
  {
    if active != [] {
      assert InStep(active[0], steps);
      DecodeTokens(active[1..], starts, now, steps);
      var a := Stepped(active[0]);
      var still, done := StillActive(active[1..]), Completions(active[1..], starts, now, steps + 1);
      if a.remaining <= 0 {
        assert ([Result(a.request, starts[a.request.id], now, a.born, steps + 1)] + done)[1..] == done;
      } else {
        assert ([a] + still)[1..] == still;
      }
    }
  }

  lemma StartKeepsTokens(rs: seq<Request>, c: Costs, s: Sim)
    requires TokenInv(c, s) && Sane(rs, s) && s.waiting != []
    ensures TokenInv(c, StartOne(rs, c, s))
  {
    var r := s.waiting[0];
    AdmitKeeps(rs, s.(waiting := s.waiting[1..], starts := s.starts[r.id := s.now],
                      now := s.now + PrefillTime(r, c), busy := s.busy + PrefillTime(r, c)));
    var one := Active(r, r.output, s.steps);
    AgesSplit(s.active, [one], s.steps);
    assert InStep(one, s.steps) && Ages([one], s.steps) == 0;
  }

  lemma DecodeKeepsTokens(c: Costs, s: Sim)
    requires TokenInv(c, s) && StartsKnown(s.active, s.starts)
    ensures TokenInv(c, Decode(c, s))
  {
    var now := s.now + StepTime(c, |s.active|);
    DecodeTokens(s.active, s.starts, now, s.steps);
    NeedServedSplit(s.completed, Completions(s.active, s.starts, now, s.steps + 1));
    var t := Decode(c, s);
    forall i | 0 <= i < |t.completed| ensures RanFully(t.completed[i], t.steps) {
      if i < |s.completed| {
        assert t.completed[i] == s.completed[i] && RanFully(s.completed[i], s.steps);
      }
    }
  }

  lemma TokensAlways(rs: seq<Request>, c: Costs)
    ensures TokenInv(c, Simulate(rs, c, INITIAL))
  {
    var P := (s: Sim) => TokenInv(c, s);
    forall s | P(s) && Sane(rs, s) ensures P(Admit(rs, s)) { AdmitKeeps(rs, s); }
    forall s | P(s) && Sane(rs, s) && s.waiting != [] && |s.active| < c.maxActive ensures P(StartOne(rs, c, s)) {
      StartKeepsTokens(rs, c, s);
    }
    forall s | P(s) && Sane(rs, s) && s.active != [] ensures P(Decode(c, s)) { DecodeKeepsTokens(c, s); }
    SimulateInduction(P, rs, c, INITIAL);
  }

  // ----- how many steps

  /** Every step serves at least one request and at most the cap. */
  predicate StepsInv(c: Costs, s: Sim) {
    s.steps <= s.occupancy <= c.maxActive * s.steps && |s.active| <= c.maxActive
  }

  lemma StepsAlways(rs: seq<Request>, c: Costs)
    requires 0 <= c.maxActive
    ensures StepsInv(c, Simulate(rs, c, INITIAL))
  {
    var P := (s: Sim) => StepsInv(c, s);
    forall s | P(s) && Sane(rs, s) ensures P(Admit(rs, s)) { AdmitKeeps(rs, s); }
    forall s | P(s) && Sane(rs, s) && s.waiting != [] && |s.active| < c.maxActive ensures P(StartOne(rs, c, s)) {
      StartKeepsSteps(rs, c, s);
    }
    forall s | P(s) && Sane(rs, s) && s.active != [] ensures P(Decode(c, s)) { DecodeKeepsSteps(c, s); }
    SimulateInduction(P, rs, c, INITIAL);
  }

  lemma StartKeepsSteps(rs: seq<Request>, c: Costs, s: Sim)
    requires StepsInv(c, s) && s.pending <= |rs| && s.waiting != [] && |s.active| < c.maxActive
    ensures StepsInv(c, StartOne(rs, c, s))
  {
    var r := s.waiting[0];
    AdmitKeeps(rs, s.(waiting := s.waiting[1..], starts := s.starts[r.id := s.now],
                      now := s.now + PrefillTime(r, c), busy := s.busy + PrefillTime(r, c)));
  }

  lemma {:induction false} StillShorter(active: seq<Active>)
    ensures |StillActive(active)| <= |active|
    decreases active
  {
    if active != [] {
      StillShorter(active[1..]);
    }
  }

  lemma DecodeKeepsSteps(c: Costs, s: Sim)
    requires StepsInv(c, s) && StartsKnown(s.active, s.starts) && s.active != []
    ensures StepsInv(c, Decode(c, s))
  {
    StillShorter(s.active);
    assert c.maxActive * (s.steps + 1) == c.maxActive * s.steps + c.maxActive;
  }

  // ----- time

  function Prompts(rs: seq<Request>): int {
    if rs == [] then 0 else Prompts(rs[..|rs| - 1]) + rs[|rs| - 1].prompt
  }

  /** The time spent on so many prompt tokens, decode steps and tokens. */
  function BusyFor(prompts: int, steps: nat, tokens: nat, c: Costs): real {
    prompts as real * c.prefill + c.stepBase * (steps as real) + c.stepPerRequest * (tokens as real)
  }

  function GapTimes(gaps: seq<Gap>): real {
    if gaps == [] then 0.0 else GapTimes(gaps[..|gaps| - 1]) + (gaps[|gaps| - 1].until - gaps[|gaps| - 1].from)
  }

  /** The clock is busy time plus idle time; busy time is the prefills started and the decode steps taken. */
  predicate TimeInv(c: Costs, s: Sim) {
    && s.now == s.busy + s.idle
    && s.idle == GapTimes(s.gaps)
    && s.busy == BusyFor(Prompts(s.started), s.steps, s.occupancy, c)
  }

  lemma BusyForMore(prompts: int, steps: nat, tokens: nat, p: int, n: nat, c: Costs)
    ensures BusyFor(prompts + p, steps, tokens, c) == BusyFor(prompts, steps, tokens, c) + p as real * c.prefill
    ensures BusyFor(prompts, steps + 1, tokens + n, c) == BusyFor(prompts, steps, tokens, c) + StepTime(c, n)
  {
    assert (prompts + p) as real == prompts as real + p as real;
    assert (prompts as real + p as real) * c.prefill == prompts as real * c.prefill + p as real * c.prefill;
    assert (steps + 1) as real == steps as real + 1.0;
    assert (tokens + n) as real == tokens as real + n as real;
  }

  /** What starting one request does to the clock and to the counts it is made of. */
  lemma StartMoves(rs: seq<Request>, c: Costs, s: Sim)
    requires s.pending <= |rs| && s.waiting != []
    ensures var t, r := StartOne(rs, c, s), s.waiting[0];
      && t.now == s.now + PrefillTime(r, c) && t.busy == s.busy + PrefillTime(r, c)
      && t.idle == s.idle && t.gaps == s.gaps && t.steps == s.steps && t.occupancy == s.occupancy
      && t.started == s.started + [r]
  {
    var r := s.waiting[0];
    AdmitKeeps(rs, s.(waiting := s.waiting[1..], starts := s.starts[r.id := s.now],
                      now := s.now + PrefillTime(r, c), busy := s.busy + PrefillTime(r, c)));
  }

  lemma BusyForOneStarted(started: seq<Request>, r: Request, steps: nat, tokens: nat, c: Costs)
    ensures BusyFor(Prompts(started + [r]), steps, tokens, c)
      == BusyFor(Prompts(started), steps, tokens, c) + PrefillTime(r, c)
  {
    assert (started + [r])[..|started|] == started;
    BusyForMore(Prompts(started), steps, tokens, r.prompt, 0, c);
  }

  lemma StartKeepsTime(rs: seq<Request>, c: Costs, s: Sim)
    requires TimeInv(c, s) && s.pending <= |rs| && s.waiting != []
    ensures TimeInv(c, StartOne(rs, c, s))
  {
    StartMoves(rs, c, s);
    BusyForOneStarted(s.started, s.waiting[0], s.steps, s.occupancy, c);
  }

  lemma JumpKeepsTime(rs: seq<Request>, c: Costs, s: Sim)
    requires TimeInv(c, s) && s.pending < |rs|
    ensures TimeInv(c, Jump(rs, s))
  {
    var gap := Gap(s.now, rs[s.pending].arrival);
    assert (s.gaps + [gap])[..|s.gaps|] == s.gaps;
  }

  lemma DecodeKeepsTime(c: Costs, s: Sim)
    requires TimeInv(c, s) && StartsKnown(s.active, s.starts)
    ensures TimeInv(c, Decode(c, s))
  {
    BusyForMore(Prompts(s.started), s.steps, s.occupancy, 0, |s.active|, c);
  }

  lemma TimeIsInductive(P: Sim -> bool, rs: seq<Request>, c: Costs)
    requires forall s :: P(s) <==> TimeInv(c, s)
    ensures Inductive(P, rs, c)
  {
    forall s | P(s) && Sane(rs, s) ensures P(Admit(rs, s)) { AdmitKeeps(rs, s); }
    forall s | P(s) && Sane(rs, s) && s.waiting != [] && |s.active| < c.maxActive ensures P(StartOne(rs, c, s)) {
      StartKeepsTime(rs, c, s);
    }
    forall s | P(s) && Idling(rs, c, s) ensures P(Jump(rs, s)) { JumpKeepsTime(rs, c, s); }
    forall s | P(s) && Sane(rs, s) && s.active != [] ensures P(Decode(c, s)) { DecodeKeepsTime(c, s); }
  }

  lemma TimeAlways(rs: seq<Request>, c: Costs)
    ensures TimeInv(c, Simulate(rs, c, INITIAL))
  {
    var P := (s: Sim) => TimeInv(c, s);
    TimeIsInductive(P, rs, c);
    SimulateInduction(P, rs, c, INITIAL);
  }

  /** After every pass of the outer loop the clock shows busy plus idle time, idle time is the gaps so far, and busy
      time is the prefill of the requests started so far and the decode steps taken so far. */
  lemma ClockAddsUpThroughout(requests: seq<Request>, c: Costs, n: nat)
    ensures var s := Passes(SortByArrival(requests), c, n);
      && s.now == s.busy + s.idle && s.idle == GapTimes(s.gaps)
      && s.busy == BusyFor(Prompts(s.started), s.steps, s.occupancy, c)
  {
    var P := (s: Sim) => TimeInv(c, s);
    TimeIsInductive(P, SortByArrival(requests), c);
    PassesInduction(P, SortByArrival(requests), c, n);
  }

  // ----- the time identity

  /** A sum over a list depends on the list only as a multiset. */
  lemma {:induction false} PromptsOfPermutation(a: seq<Request>, b: seq<Request>)
    requires multiset(a) == multiset(b)
    ensures Prompts(a) == Prompts(b)
    decreases a
  {
    if a == [] {
      EmptyMultiset(b);
    } else {
      var last := a[|a| - 1];
      assert a == a[..|a| - 1] + [last];
      var i := IndexIn(b, last);
      var rest := b[..i] + b[i + 1..];
      assert b == b[..i] + [last] + b[i + 1..];
      assert multiset(rest) == multiset(b) - multiset{last} == multiset(a[..|a| - 1]);
      PromptsOfPermutation(a[..|a| - 1], rest);
      PromptsSplit(b[..i], b[i + 1..]);
      PromptsSplit(b[..i] + [last], b[i + 1..]);
      assert (b[..i] + [last])[..i] == b[..i];
    }
  }

  lemma EmptyMultiset<T>(b: seq<T>)
    requires multiset(b) == multiset{}
    ensures b == []
  {
    assert |multiset(b)| == |b|;
  }

  lemma IndexIn(b: seq<Request>, x: Request) returns (i: nat)
    requires x in multiset(b)
    ensures i < |b| && b[i] == x
  {
    i :| 0 <= i < |b| && b[i] == x;
  }

  lemma {:induction false} PromptsSplit(a: seq<Request>, b: seq<Request>)
    ensures Prompts(a + b) == Prompts(a) + Prompts(b)
    decreases b
  {
    if b == [] {
      assert a + b == a;
    } else {
      assert (a + b)[..|a + b| - 1] == a + b[..|b| - 1];
      PromptsSplit(a, b[..|b| - 1]);
    }
  }

  lemma {:induction false} NeedOfPermutation(a: seq<Request>, b: seq<Request>)
    requires multiset(a) == multiset(b)
    ensures NeedOf(a) == NeedOf(b)
    decreases a
  {
    if a == [] {
      EmptyMultiset(b);
    } else {
      assert a == [a[0]] + a[1..];
      var i := IndexIn(b, a[0]);
      var rest := b[..i] + b[i + 1..];
      assert b == b[..i] + ([a[0]] + b[i + 1..]);
      assert multiset(rest) == multiset(b) - multiset{a[0]} == multiset(a[1..]);
      NeedOfPermutation(a[1..], rest);
      NeedOfSplits(b[..i], b[i + 1..]);
      NeedOfSplits(b[..i], [a[0]] + b[i + 1..]);
      assert ([a[0]] + b[i + 1..])[1..] == b[i + 1..];
    }
  }

  lemma {:induction false} NeedServedIsNeedOf(completed: seq<Result>)
    ensures NeedServed(completed) == NeedOf(Served(completed))
    decreases completed
  {
    if completed != [] {
      NeedServedIsNeedOf(completed[1..]);
      assert Served(completed)[1..] == Served(completed[1..]);
    }
  }

  lemma AllTokensServed(requests: seq<Request>, c: Costs)
    requires 1 <= c.maxActive
    ensures var t := Simulate(SortByArrival(requests), c, INITIAL);
      t.occupancy == NeedOf(requests)
  {
    var rs := SortByArrival(requests);
    var t := Simulate(rs, c, INITIAL);
    EveryRequestCompletesOnce(requests, c);
    OrderAlways(rs, c);
    SortIsSorted(requests);
    assert |rs| == |requests| by { assert |multiset(rs)| == |multiset(requests)|; }
    TokensAlways(rs, c);
    NeedServedIsNeedOf(t.completed);
    NeedOfPermutation(Served(t.completed), requests);
  }

  /** Every completed request took part in exactly as many decode steps as it has tokens to produce, at least one. */
  lemma EveryRequestRunsItsSteps(requests: seq<Request>, c: Costs, i: nat)
    requires i < |Simulate(SortByArrival(requests), c, INITIAL).completed|
    ensures var r := Simulate(SortByArrival(requests), c, INITIAL).completed[i];
      r.died - r.born == MaxInt(1, r.request.output)
  {
    var t := Simulate(SortByArrival(requests), c, INITIAL);
    TokensAlways(SortByArrival(requests), c);
    assert RanFully(t.completed[i], t.steps);
  }

  /** At the end busy time is exactly the prompts' prefill, the fixed cost of S decode steps, and the per-request cost
      of every token; and the clock shows busy plus idle time. */
  lemma BusyTimeIdentity(requests: seq<Request>, c: Costs)
    requires 1 <= c.maxActive
    ensures var t := Simulate(SortByArrival(requests), c, INITIAL);
      && t.busy == BusyFor(Prompts(requests), t.steps, NeedOf(requests), c)
      && t.now == t.busy + t.idle && t.idle == GapTimes(t.gaps)
  {
    EveryRequestCompletesOnce(requests, c);
    AllTokensServed(requests, c);
    SortIsSorted(requests);
    PromptsOfPermutation(SortByArrival(requests), requests);
    TimeAlways(SortByArrival(requests), c);
  }

  /** The number of decode steps lies between the tokens divided by the cap and the tokens. */
  lemma DecodeStepsAreBounded(requests: seq<Request>, c: Costs)
    requires 1 <= c.maxActive
    ensures var t := Simulate(SortByArrival(requests), c, INITIAL);
      t.steps <= NeedOf(requests) <= c.maxActive * t.steps
  {
    AllTokensServed(requests, c);
    StepsAlways(SortByArrival(requests), c);
  }

  // ----- times of single requests

  /** What the simulation is meant for: costs and prompt lengths that are not negative, and room for one request. */
  ghost predicate Sensible(rs: seq<Request>, c: Costs) {
    && 1 <= c.maxActive && 0.0 <= c.prefill && 0.0 <= c.stepBase && 0.0 <= c.stepPerRequest
    && Sorted(rs) && forall i :: 0 <= i < |rs| ==> 0 <= rs[i].prompt
  }

  ghost predicate DistinctIds(rs: seq<Request>) {
    forall i, j :: 0 <= i < j < |rs| ==> rs[i].id != rs[j].id
  }

  /** The k-th request, once started, started no earlier than it arrived and no earlier than those before it. */
  predicate StartInv(rs: seq<Request>, s: Sim) {
    && |s.started| <= s.pending <= |rs|
    && (forall i :: 0 <= i < s.pending ==> rs[i].arrival <= s.now)
    && (forall i :: 0 <= i < |s.started| ==> rs[i].id in s.starts && rs[i].arrival <= s.starts[rs[i].id] <= s.now)
  }

  predicate StartOrder(rs: seq<Request>, s: Sim) {
    forall i, j :: 0 <= i < j < |s.started| <= |rs| && rs[i].id in s.starts && rs[j].id in s.starts ==>
      s.starts[rs[i].id] <= s.starts[rs[j].id]
  }

  lemma PrefillNotNegative(rs: seq<Request>, c: Costs, i: nat)
    requires Sensible(rs, c) && i < |rs|
    ensures 0.0 <= PrefillTime(rs[i], c)
  {
  }

  lemma StepNotNegative(c: Costs, n: nat)
    requires 0.0 <= c.stepBase && 0.0 <= c.stepPerRequest
    ensures 0.0 <= StepTime(c, n)
  {
  }

  /** A result was served in a gap's absence: it had finished when the gap began, or arrived when the gap was over. */
  predicate Apart(g: Gap, r: Result) {
    r.finish <= g.from || g.until <= r.request.arrival
  }

  /** In every gap everything that had arrived was already finished. */
  predicate GapInv(rs: seq<Request>, s: Sim) {
    && |s.started| <= s.pending <= |rs|
    && (forall k :: 0 <= k < |s.gaps| ==> s.gaps[k].from < s.gaps[k].until <= s.now)
    && (forall i :: 0 <= i < |s.completed| ==> s.completed[i].finish <= s.now)
    && (forall k, i :: 0 <= k < |s.gaps| && 0 <= i < |s.completed| ==> Apart(s.gaps[k], s.completed[i]))
    && (forall k, i :: 0 <= k < |s.gaps| && 0 <= i < |s.active| ==> s.gaps[k].until <= s.active[i].request.arrival)
    && (forall k, i :: 0 <= k < |s.gaps| && |s.started| <= i < |rs| ==> s.gaps[k].until <= rs[i].arrival)
  }

  lemma StartKeepsStarts(rs: seq<Request>, c: Costs, s: Sim)
    requires Sensible(rs, c) && OrderInv(rs, c, s) && StartInv(rs, s) && s.waiting != [] && |s.active| < c.maxActive
    ensures StartInv(rs, StartOne(rs, c, s))
  {
    var r := s.waiting[0];
    var n := |s.started|;
    assert r == rs[n];
    PrefillNotNegative(rs, c, n);
    AdmitKeeps(rs, s.(waiting := s.waiting[1..], starts := s.starts[r.id := s.now],
                      now := s.now + PrefillTime(r, c), busy := s.busy + PrefillTime(r, c)));
  }

  lemma StartKeepsStartOrder(rs: seq<Request>, c: Costs, s: Sim)
    requires Sensible(rs, c) && DistinctIds(rs) && OrderInv(rs, c, s) && StartInv(rs, s) && StartOrder(rs, s)
    requires s.waiting != [] && |s.active| < c.maxActive
    ensures StartOrder(rs, StartOne(rs, c, s))
  {
    var r := s.waiting[0];
    var n := |s.started|;
    assert r == rs[n];
    AdmitKeeps(rs, s.(waiting := s.waiting[1..], starts := s.starts[r.id := s.now],
                      now := s.now + PrefillTime(r, c), busy := s.busy + PrefillTime(r, c)));
    var t := StartOne(rs, c, s);
    forall i, j | 0 <= i < j < |t.started| <= |rs| && rs[i].id in t.starts && rs[j].id in t.starts
      ensures t.starts[rs[i].id] <= t.starts[rs[j].id]
    {
      assert rs[i].id != rs[j].id && (j < n ==> rs[j].id != rs[n].id) && rs[i].id != rs[n].id;
    }
  }

  lemma {:induction false} CompletionTimes(active: seq<Active>, starts: map<int, real>, now: real, steps: nat, i: nat)
    requires StartsKnown(active, starts) && i < |Completions(active, starts, now, steps)|
    ensures var r := Completions(active, starts, now, steps)[i];
      && r.finish == now && r.request.id in starts && r.start == starts[r.request.id]
      && r.request in RequestsOf(active)
    decreases active
  {
    var rest := Completions(active[1..], starts, now, steps);
    assert RequestsOf(active) == [active[0].request] + RequestsOf(active[1..]);
    if Stepped(active[0]).remaining <= 0 {
      if i > 0 {
        CompletionTimes(active[1..], starts, now, steps, i - 1);
      }
    } else {
      CompletionTimes(active[1..], starts, now, steps, i);
    }
  }

  lemma {:induction false} StillFrom(active: seq<Active>, i: nat)
    requires i < |StillActive(active)|
    ensures StillActive(active)[i].request in RequestsOf(active)
    decreases active
  {
    assert RequestsOf(active) == [active[0].request] + RequestsOf(active[1..]);
    if Stepped(active[0]).remaining <= 0 {
      StillFrom(active[1..], i);
    } else if i > 0 {
      StillFrom(active[1..], i - 1);
    }
  }

  // ----- idle gaps

  lemma StartKeepsGaps(rs: seq<Request>, c: Costs, s: Sim)
    requires Sensible(rs, c) && OrderInv(rs, c, s) && GapInv(rs, s) && s.waiting != [] && |s.active| < c.maxActive
    ensures GapInv(rs, StartOne(rs, c, s))
  {
    var r := s.waiting[0];
    assert r == rs[|s.started|];
    PrefillNotNegative(rs, c, |s.started|);
    AdmitKeeps(rs, s.(waiting := s.waiting[1..], starts := s.starts[r.id := s.now],
                      now := s.now + PrefillTime(r, c), busy := s.busy + PrefillTime(r, c)));
  }

  lemma JumpKeepsGaps(rs: seq<Request>, c: Costs, s: Sim)
    requires Sensible(rs, c) && OrderInv(rs, c, s) && GapInv(rs, s) && Idling(rs, c, s)
    ensures GapInv(rs, Jump(rs, s))
  {
    var t := Jump(rs, s);
    assert |s.started| == s.pending;
    var gap := Gap(s.now, rs[s.pending].arrival);
    assert t.gaps == s.gaps + [gap];
    forall k, i | 0 <= k < |t.gaps| && 0 <= i < |t.completed| ensures Apart(t.gaps[k], t.completed[i]) {
      if k < |s.gaps| {
        assert Apart(s.gaps[k], s.completed[i]);
      }
    }
  }

  lemma DecodeKeepsGaps(rs: seq<Request>, c: Costs, s: Sim)
    requires Sensible(rs, c) && GapInv(rs, s) && StartsKnown(s.active, s.starts)
    ensures GapInv(rs, Decode(c, s))
  {
    StepNotNegative(c, |s.active|);
    var t := Decode(c, s);
    var done := Completions(s.active, s.starts, t.now, t.steps);
    forall i | 0 <= i < |t.completed| ensures t.completed[i].finish <= t.now {
      if i >= |s.completed| {
        CompletionTimes(s.active, s.starts, t.now, t.steps, i - |s.completed|);
      }
    }
    forall k, i | 0 <= k < |t.gaps| && 0 <= i < |t.completed| ensures Apart(t.gaps[k], t.completed[i]) {
      if i < |s.completed| {
        assert Apart(s.gaps[k], s.completed[i]);
      } else {
        CompletionTimes(s.active, s.starts, t.now, t.steps, i - |s.completed|);
        ArrivedAfter(s, k, t.completed[i].request);
      }
    }
    forall k, i | 0 <= k < |t.gaps| && 0 <= i < |t.active| ensures t.gaps[k].until <= t.active[i].request.arrival {
      StillFrom(s.active, i);
      ArrivedAfter(s, k, t.active[i].request);
    }
  }

  lemma ArrivedAfter(s: Sim, k: nat, r: Request)
    requires k < |s.gaps| && r in RequestsOf(s.active)
    requires forall i :: 0 <= i < |s.active| ==> s.gaps[k].until <= s.active[i].request.arrival
    ensures s.gaps[k].until <= r.arrival
  {
    var i :| 0 <= i < |RequestsOf(s.active)| && RequestsOf(s.active)[i] == r;
  }

  lemma GapsAlways(rs: seq<Request>, c: Costs)
    requires Sensible(rs, c)
    ensures GapInv(rs, Simulate(rs, c, INITIAL))
  {
    var P := (s: Sim) => OrderInv(rs, c, s) && GapInv(rs, s);
    forall s | P(s) && Sane(rs, s) ensures P(Admit(rs, s)) { AdmitKeeps(rs, s); AdmitKeepsOrder(rs, c, s); }
    forall s | P(s) && Sane(rs, s) && s.waiting != [] && |s.active| < c.maxActive ensures P(StartOne(rs, c, s)) {
      StartKeepsOrder(rs, c, s);
      StartKeepsGaps(rs, c, s);
    }
    forall s | P(s) && Idling(rs, c, s) ensures P(Jump(rs, s)) { JumpKeepsGaps(rs, c, s); }
    forall s | P(s) && Sane(rs, s) && s.active != [] ensures P(Decode(c, s)) {
      DecodeKeepsOrder(rs, c, s);
      DecodeKeepsGaps(rs, c, s);
    }
    SimulateInduction(P, rs, c, INITIAL);
  }

  /** The GPU idles only while nothing is waiting or active: for each idle gap, every request had finished when the gap
      began or had not arrived before it ended. */
  lemma IdlesOnlyWhenNothingToDo(requests: seq<Request>, c: Costs, k: nat, i: nat)
    requires Sensible(SortByArrival(requests), c)
    requires var t := Simulate(SortByArrival(requests), c, INITIAL); k < |t.gaps| && i < |t.completed|
    ensures var t := Simulate(SortByArrival(requests), c, INITIAL);
      && t.gaps[k].from < t.gaps[k].until <= t.now
      && (t.completed[i].finish <= t.gaps[k].from || t.gaps[k].until <= t.completed[i].request.arrival)
  {
    var t := Simulate(SortByArrival(requests), c, INITIAL);
    GapsAlways(SortByArrival(requests), c);
    assert Apart(t.gaps[k], t.completed[i]);
  }

  // ----- start times

  /** Results are stamped with the start of their own request: ids are distinct, and a request starts once. */
  predicate StampInv(s: Sim) {
    && StartsKnown(s.active, s.starts)
    && (forall i :: 0 <= i < |s.completed| ==>
          && s.completed[i].request.id in s.starts && s.completed[i].start == s.starts[s.completed[i].request.id]
          && s.completed[i].start <= s.completed[i].finish <= s.now)
  }

  lemma StartedIndex(rs: seq<Request>, c: Costs, s: Sim, r: Request) returns (i: nat)
    requires OrderInv(rs, c, s) && (r in RequestsOf(s.active) || r in Served(s.completed))
    ensures i < |s.started| <= |rs| && rs[i] == r
  {
    assert r in multiset(RequestsOf(s.active)) + multiset(Served(s.completed));
    assert r in multiset(s.started);
    i :| 0 <= i < |s.started| && s.started[i] == r;
  }

  lemma StartKeepsStamps(rs: seq<Request>, c: Costs, s: Sim)
    requires Sensible(rs, c) && DistinctIds(rs) && OrderInv(rs, c, s) && StampInv(s)
    requires s.waiting != [] && |s.active| < c.maxActive
    ensures StampInv(StartOne(rs, c, s))
  {
    var r := s.waiting[0];
    var n := |s.started|;
    assert r == rs[n];
    PrefillNotNegative(rs, c, n);
    AdmitKeeps(rs, s.(waiting := s.waiting[1..], starts := s.starts[r.id := s.now],
                      now := s.now + PrefillTime(r, c), busy := s.busy + PrefillTime(r, c)));
    var t := StartOne(rs, c, s);
    forall i | 0 <= i < |t.completed|
      ensures t.completed[i].request.id in t.starts && t.completed[i].start == t.starts[t.completed[i].request.id]
      ensures t.completed[i].start <= t.completed[i].finish <= t.now
    {
      assert Served(s.completed)[i] == s.completed[i].request;
      var j := StartedIndex(rs, c, s, s.completed[i].request);
      assert rs[j].id != rs[n].id;
    }
  }

  lemma DecodeKeepsStamps(rs: seq<Request>, c: Costs, s: Sim)
    requires Sensible(rs, c) && OrderInv(rs, c, s) && StartInv(rs, s) && StampInv(s)
    ensures StampInv(Decode(c, s))
  {
    StepNotNegative(c, |s.active|);
    StillKnown(s.active, s.starts);
    var t := Decode(c, s);
    forall i | 0 <= i < |t.completed|
      ensures t.completed[i].request.id in t.starts && t.completed[i].start == t.starts[t.completed[i].request.id]
      ensures t.completed[i].start <= t.completed[i].finish <= t.now
    {
      if i >= |s.completed| {
        CompletionTimes(s.active, s.starts, t.now, t.steps, i - |s.completed|);
        var j := StartedIndex(rs, c, s, t.completed[i].request);
      }
    }
  }

  lemma JumpKeepsStarts(rs: seq<Request>, c: Costs, s: Sim)
    requires StartInv(rs, s) && Idling(rs, c, s)
    ensures StartInv(rs, Jump(rs, s))
  {
  }

  lemma DecodeKeepsStarts(rs: seq<Request>, c: Costs, s: Sim)
    requires Sensible(rs, c) && StartInv(rs, s) && StartsKnown(s.active, s.starts)
    ensures StartInv(rs, Decode(c, s))
  {
    StepNotNegative(c, |s.active|);
  }

  predicate Starting(rs: seq<Request>, c: Costs, s: Sim) {
    OrderInv(rs, c, s) && StartInv(rs, s) && StartOrder(rs, s) && StampInv(s)
  }

  lemma AdmitKeepsStarting(rs: seq<Request>, c: Costs, s: Sim)
    requires Starting(rs, c, s) && Sane(rs, s)
    ensures Starting(rs, c, Admit(rs, s))
  {
    assert OrderInv(rs, c, Admit(rs, s)) by { AdmitKeepsOrder(rs, c, s); }
    AdmitKeeps(rs, s);
  }

  lemma StartKeepsStarting(rs: seq<Request>, c: Costs, s: Sim)
    requires Sensible(rs, c) && DistinctIds(rs) && Starting(rs, c, s) && s.waiting != [] && |s.active| < c.maxActive
    requires Sane(rs, s)
    ensures Starting(rs, c, StartOne(rs, c, s))
  {
    var t := StartOne(rs, c, s);
    assert OrderInv(rs, c, t) by { StartKeepsOrder(rs, c, s); }
    assert StartInv(rs, t) by { StartKeepsStarts(rs, c, s); }
    assert StartOrder(rs, t) by { StartKeepsStartOrder(rs, c, s); }
    assert StampInv(t) by { StartKeepsStamps(rs, c, s); }
  }

  lemma JumpKeepsStarting(rs: seq<Request>, c: Costs, s: Sim)
    requires Starting(rs, c, s) && Idling(rs, c, s)
    ensures Starting(rs, c, Jump(rs, s))
  {
    JumpKeepsStarts(rs, c, s);
  }

  lemma DecodeKeepsStarting(rs: seq<Request>, c: Costs, s: Sim)
    requires Sensible(rs, c) && Starting(rs, c, s)
    ensures Starting(rs, c, Decode(c, s))
  {
    assert OrderInv(rs, c, Decode(c, s)) by { DecodeKeepsOrder(rs, c, s); }
    assert StartInv(rs, Decode(c, s)) by { DecodeKeepsStarts(rs, c, s); }
    assert StampInv(Decode(c, s)) by { DecodeKeepsStamps(rs, c, s); }
  }

  lemma StartsAlways(rs: seq<Request>, c: Costs)
    requires Sensible(rs, c) && DistinctIds(rs)
    ensures Starting(rs, c, Simulate(rs, c, INITIAL))
  {
    var P := (s: Sim) => Starting(rs, c, s);
    forall s | P(s) && Sane(rs, s) ensures P(Admit(rs, s)) { AdmitKeepsStarting(rs, c, s); }
    forall s | P(s) && Sane(rs, s) && s.waiting != [] && |s.active| < c.maxActive ensures P(StartOne(rs, c, s)) {
      StartKeepsStarting(rs, c, s);
    }
    forall s | P(s) && Idling(rs, c, s) ensures P(Jump(rs, s)) { JumpKeepsStarting(rs, c, s); }
    forall s | P(s) && Sane(rs, s) && s.active != [] ensures P(Decode(c, s)) { DecodeKeepsStarting(rs, c, s); }
    SimulateInduction(P, rs, c, INITIAL);
  }

  /** With distinct ids no request starts before it arrives, or after it finishes, or after one that arrived later. */
  lemma StartsFollowArrivals(requests: seq<Request>, c: Costs, i: nat, j: nat)
    requires Sensible(SortByArrival(requests), c) && DistinctIds(SortByArrival(requests))
    requires i < |Simulate(SortByArrival(requests), c, INITIAL).completed|
    requires j < |Simulate(SortByArrival(requests), c, INITIAL).completed|
    ensures var completed := Simulate(SortByArrival(requests), c, INITIAL).completed;
      && completed[i].request.arrival <= completed[i].start
      && completed[i].start <= completed[i].finish <= Simulate(SortByArrival(requests), c, INITIAL).now
      && (completed[i].request.arrival < completed[j].request.arrival ==> completed[i].start <= completed[j].start)
  {
    var rs := SortByArrival(requests);
    var t := Simulate(rs, c, INITIAL);
    StartsAlways(rs, c);
    assert Served(t.completed)[i] == t.completed[i].request && Served(t.completed)[j] == t.completed[j].request;
    var x := StartedIndex(rs, c, t, t.completed[i].request);
    var y := StartedIndex(rs, c, t, t.completed[j].request);
  }

  // ----- the end of the clock

  predicate EndInv(rs: seq<Request>, s: Sim) {
    s.active == [] && s.waiting == [] && s.pending == |rs| && s.completed != [] ==>
      s.completed[|s.completed| - 1].finish == s.now
  }

  lemma DecodeKeepsEnd(rs: seq<Request>, c: Costs, s: Sim)
    requires StartsKnown(s.active, s.starts) && s.active != []
    ensures EndInv(rs, Decode(c, s))
  {
    var t := Decode(c, s);
    var done := Completions(s.active, s.starts, t.now, t.steps);
    if t.active == [] {
      DecodeConserves(s.active, s.starts, t.now, t.steps);
      assert done != [];
      CompletionTimes(s.active, s.starts, t.now, t.steps, |done| - 1);
    }
  }

  /** The simulation ends with the finish of its last request, so busy plus idle time is the makespan. */
  lemma MakespanIsBusyPlusIdle(requests: seq<Request>, c: Costs)
    requires 1 <= c.maxActive && requests != []
    ensures var t := Simulate(SortByArrival(requests), c, INITIAL);
      && t.completed != []
      && t.completed[|t.completed| - 1].finish == t.busy + t.idle
  {
    var rs := SortByArrival(requests);
    var t := Simulate(rs, c, INITIAL);
    assert |rs| == |requests| by {
      SortIsSorted(requests);
      assert |multiset(rs)| == |multiset(requests)|;
    }
    assert |t.completed| == |rs| && t.started == rs by { EveryRequestCompletesOnce(requests, c); }
    assert t.active == [] && t.waiting == [] && t.pending == |rs| by { OrderAlways(rs, c); }
    assert t.now == t.busy + t.idle by { TimeAlways(rs, c); }
    EndAlways(rs, c);
  }

  lemma EndAlways(rs: seq<Request>, c: Costs)
    ensures EndInv(rs, Simulate(rs, c, INITIAL))
  {
    var P := (s: Sim) => EndInv(rs, s);
    forall s | P(s) && Sane(rs, s) ensures P(Admit(rs, s)) { AdmitKeeps(rs, s); }
    forall s | P(s) && Sane(rs, s) && s.waiting != [] && |s.active| < c.maxActive ensures P(StartOne(rs, c, s)) {
      StartOneKeepsWork(rs, c, s);
    }
    forall s | P(s) && Sane(rs, s) && s.active != [] ensures P(Decode(c, s)) { DecodeKeepsEnd(rs, c, s); }
    SimulateInduction(P, rs, c, INITIAL);
  }
}
