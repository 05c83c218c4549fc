/** The continuous batching simulation (scripts/scheduler_simulation.py:160-265), with exact times.

    `Sim` holds the loop's variables.  Its last five fields, and the step numbers in `Active` and `Result`, are
    bookkeeping the simulation never reads: they count decode steps, and list how large the active set grew, what was
    started and when the GPU idled. */
module ContinuousBatching {
  import opened Requests

  datatype Costs = Costs(maxActive: int, prefill: real, stepBase: real, stepPerRequest: real)

  datatype Active = Active(request: Request, remaining: int, born: nat)
  datatype Result = Result(request: Request, start: real, finish: real, born: nat, died: nat)
  datatype Gap = Gap(from: real, until: real)

  datatype Sim = Sim(
    pending: nat, waiting: seq<Request>, active: seq<Active>, completed: seq<Result>,
    now: real, busy: real, idle: real, starts: map<int, real>,
    steps: nat, occupancy: nat, peak: nat, started: seq<Request>, gaps: seq<Gap>)

  const INITIAL := Sim(0, [], [], [], 0.0, 0.0, 0.0, map[], 0, 0, 0, [], [])

  // ----- specification, loop by loop

  /** Everything that has arrived joins the waiting list. */
  function Admit(rs: seq<Request>, s: Sim): Sim
    requires s.pending <= |rs|
    decreases |rs| - s.pending
  {
    if s.pending < |rs| && rs[s.pending].arrival <= s.now
    then Admit(rs, s.(waiting := s.waiting + [rs[s.pending]], pending := s.pending + 1))
    else s
  }

  lemma {:induction false} AdmitKeeps(rs: seq<Request>, s: Sim)
    requires s.pending <= |rs|
    ensures var t := Admit(rs, s);
      && s.pending <= t.pending <= |rs|
      && t == s.(pending := t.pending, waiting := s.waiting + rs[s.pending..t.pending])
      && (t.pending < |rs| ==> s.now < rs[t.pending].arrival)
      && (forall i :: s.pending <= i < t.pending ==> rs[i].arrival <= s.now)
    decreases |rs| - s.pending
  {
    if s.pending < |rs| && rs[s.pending].arrival <= s.now {
      var u := s.(waiting := s.waiting + [rs[s.pending]], pending := s.pending + 1);
      AdmitKeeps(rs, u);
      var t := Admit(rs, u);
      assert [rs[s.pending]] + rs[s.pending + 1..t.pending] == rs[s.pending..t.pending];
    } else {
      assert s.waiting + rs[s.pending..s.pending] == s.waiting;
    }
  }

  function PrefillTime(r: Request, c: Costs): real {
    r.prompt as real * c.prefill
  }

  /** The first waiting request starts: prefill, arrivals meanwhile, then it is active. */
  function StartOne(rs: seq<Request>, c: Costs, s: Sim): Sim
    requires s.pending <= |rs| && s.waiting != []
  {
    var r := s.waiting[0];
    var prefill := PrefillTime(r, c);
    var t := Admit(rs, s.(waiting := s.waiting[1..], starts := s.starts[r.id := s.now],
                          now := s.now + prefill, busy := s.busy + prefill));
    t.(active := t.active + [Active(r, r.output, s.steps)], started := t.started + [r],
       peak := MaxInt(t.peak, |t.active| + 1))
  }

  function Fill(rs: seq<Request>, c: Costs, s: Sim): Sim
    requires s.pending <= |rs|
    decreases c.maxActive - |s.active|
  {
    if s.waiting != [] && |s.active| < c.maxActive
    then
      AdmitKeeps(rs, s.(waiting := s.waiting[1..], starts := s.starts[s.waiting[0].id := s.now],
                        now := s.now + PrefillTime(s.waiting[0], c), busy := s.busy + PrefillTime(s.waiting[0], c)));
      Fill(rs, c, StartOne(rs, c, s))
    else s
  }

  function Stepped(a: Active): Active {
    a.(remaining := a.remaining - 1)
  }

  function StillActive(active: seq<Active>): seq<Active> {
    if active == [] then []
    else if Stepped(active[0]).remaining <= 0 then StillActive(active[1..])
    else [Stepped(active[0])] + StillActive(active[1..])
  }

  predicate StartsKnown(active: seq<Active>, starts: map<int, real>) {
    forall i :: 0 <= i < |active| ==> active[i].request.id in starts
  }

  function Completions(active: seq<Active>, starts: map<int, real>, now: real, steps: nat): seq<Result>
    requires StartsKnown(active, starts)
  {
    if active == [] then []
    else
      var a := active[0];
      var rest := Completions(active[1..], starts, now, steps);
      if Stepped(a).remaining <= 0
      then [Result(a.request, starts[a.request.id], now, a.born, steps)] + rest
      else rest
  }

  function StepTime(c: Costs, n: nat): real {
    c.stepBase + c.stepPerRequest * (n as real)
  }

  /** One decode step for all active requests. */
  function Decode(c: Costs, s: Sim): Sim
    requires StartsKnown(s.active, s.starts)
  {
    var time := StepTime(c, |s.active|);
    s.(now := s.now + time, busy := s.busy + time,
       completed := s.completed + Completions(s.active, s.starts, s.now + time, s.steps + 1),
       active := StillActive(s.active),
       steps := s.steps + 1, occupancy := s.occupancy + |s.active|)
  }

  /** Nothing to run: the clock jumps to the next arrival. */
  function Jump(rs: seq<Request>, s: Sim): Sim
    requires s.pending < |rs|
  {
    var next := rs[s.pending].arrival;
    if s.now < next
    then s.(idle := s.idle + (next - s.now), now := next, gaps := s.gaps + [Gap(s.now, next)])
    else s
  }

  // ----- why it ends

  function Need(r: Request): nat { MaxInt(1, r.output) }

  function NeedOf(rs: seq<Request>): nat {
    if rs == [] then 0 else Need(rs[0]) + NeedOf(rs[1..])
  }

  function LeftOf(active: seq<Active>): nat {
    if active == [] then 0 else MaxInt(1, active[0].remaining) + LeftOf(active[1..])
  }

  lemma {:induction false} NeedOfSplits(a: seq<Request>, b: seq<Request>)
    ensures NeedOf(a + b) == NeedOf(a) + NeedOf(b)
    decreases a
  {
    if a == [] {
      assert a + b == b;
    } else {
      assert (a + b)[0] == a[0] && (a + b)[1..] == a[1..] + b;
      NeedOfSplits(a[1..], b);
    }
  }

  lemma {:induction false} LeftOfSplits(a: seq<Active>, b: seq<Active>)
    ensures LeftOf(a + b) == LeftOf(a) + LeftOf(b)
    decreases a
  {
    if a == [] {
      assert a + b == b;
    } else {
      assert (a + b)[0] == a[0] && (a + b)[1..] == a[1..] + b;
      LeftOfSplits(a[1..], b);
    }
  }

  /** A decode step uses up at least one token for every active request. */
  lemma {:induction false} StepUsesTokens(active: seq<Active>)
    ensures LeftOf(StillActive(active)) + |active| <= LeftOf(active)
    decreases active
  {
    if active != [] {
      StepUsesTokens(active[1..]);
      var tail := StillActive(active[1..]);
      if Stepped(active[0]).remaining > 0 {
        assert ([Stepped(active[0])] + tail)[1..] == tail;
      }
    }
  }

  /** Decode tokens still to be produced, for requests in any stage. */
  function Work(rs: seq<Request>, s: Sim): nat
    requires s.pending <= |rs|
  {
    NeedOf(s.waiting) + NeedOf(rs[s.pending..]) + LeftOf(s.active)
  }

  function IdleFlag(rs: seq<Request>, s: Sim): nat
    requires s.pending <= |rs|
  {
    if s.pending < |rs| && s.now < rs[s.pending].arrival then 1 else 0
  }

  lemma AdmitKeepsWork(rs: seq<Request>, s: Sim)
    requires s.pending <= |rs|
    ensures Admit(rs, s).pending <= |rs| && Work(rs, Admit(rs, s)) == Work(rs, s)
  {
    AdmitKeeps(rs, s);
    var t := Admit(rs, s);
    NeedOfSplits(s.waiting, rs[s.pending..t.pending]);
    assert rs[s.pending..] == rs[s.pending..t.pending] + rs[t.pending..];
    NeedOfSplits(rs[s.pending..t.pending], rs[t.pending..]);
  }

  lemma StartOneKeepsWork(rs: seq<Request>, c: Costs, s: Sim)
    requires s.pending <= |rs| && s.waiting != []
    ensures var t := StartOne(rs, c, s);
      && s.pending <= t.pending <= |rs| && Work(rs, t) == Work(rs, s)
      && |t.active| == |s.active| + 1 && t.completed == s.completed
      && (t.pending < |rs| ==> t.now < rs[t.pending].arrival)
      && (StartsKnown(s.active, s.starts) ==> StartsKnown(t.active, t.starts))
  {
    var r := s.waiting[0];
    var u := s.(waiting := s.waiting[1..], starts := s.starts[r.id := s.now],
                now := s.now + PrefillTime(r, c), busy := s.busy + PrefillTime(r, c));
    AdmitKeeps(rs, u);
    AdmitKeepsWork(rs, u);
    LeftOfSplits(s.active, [Active(r, r.output, s.steps)]);
    assert s.waiting == [r] + s.waiting[1..];
  }

  lemma {:induction false} FillKeepsWork(rs: seq<Request>, c: Costs, s: Sim)
    requires s.pending <= |rs| && StartsKnown(s.active, s.starts)
    requires s.pending < |rs| ==> s.now < rs[s.pending].arrival
    ensures var t := Fill(rs, c, s);
      && s.pending <= t.pending <= |rs| && Work(rs, t) == Work(rs, s) && StartsKnown(t.active, t.starts)
      && t.completed == s.completed
      && (t.pending < |rs| ==> t.now < rs[t.pending].arrival)
      && (t.waiting == [] || c.maxActive <= |t.active|)
      && (t == s || (t.active != [] && s.waiting != []))
    decreases c.maxActive - |s.active|
  {
    if s.waiting != [] && |s.active| < c.maxActive {
      StartOneKeepsWork(rs, c, s);
      FillKeepsWork(rs, c, StartOne(rs, c, s));
    }
  }

  /** What one pass of the outer loop does before it looks at the active set. */
  function Ready(rs: seq<Request>, c: Costs, s: Sim): Sim
    requires s.pending <= |rs|
  {
    AdmitKeeps(rs, s);
    Fill(rs, c, Admit(rs, s))
  }

  predicate Stuck(rs: seq<Request>, s: Sim) {
    s.active == [] && |rs| <= s.pending
  }

  predicate Sane(rs: seq<Request>, s: Sim) {
    s.pending <= |rs| && StartsKnown(s.active, s.starts)
  }

  lemma ReadyKeeps(rs: seq<Request>, c: Costs, s: Sim)
    requires Sane(rs, s)
    ensures var t := Ready(rs, c, s);
      && Sane(rs, t) && s.pending <= t.pending && Work(rs, t) == Work(rs, s)
      && t.completed == s.completed
      && (t.waiting == [] || c.maxActive <= |t.active|)
      && (t.pending < |rs| ==> t.now < rs[t.pending].arrival)
      && (t.active == [] && t.pending == s.pending ==> t == s)
  {
    AdmitKeeps(rs, s);
    AdmitKeepsWork(rs, s);
    FillKeepsWork(rs, c, Admit(rs, s));
    assert rs[s.pending..s.pending] == [] && s.waiting + [] == s.waiting;
  }

  /** One pass of the outer loop that does not break. */
  function Round(rs: seq<Request>, c: Costs, s: Sim): Sim
    requires Sane(rs, s) && !Stuck(rs, Ready(rs, c, s))
  {
    ReadyKeeps(rs, c, s);
    var t := Ready(rs, c, s);
    if t.active == [] then Jump(rs, t) else Decode(c, t)
  }

  lemma StillKnown(active: seq<Active>, starts: map<int, real>)
    requires StartsKnown(active, starts)
    ensures StartsKnown(StillActive(active), starts)
    decreases active
  {
    if active != [] {
      StillKnown(active[1..], starts);
    }
  }

  lemma RoundDecreases(rs: seq<Request>, c: Costs, s: Sim)
    requires Sane(rs, s) && !Stuck(rs, Ready(rs, c, s))
    ensures var t := Round(rs, c, s);
      && Sane(rs, t)
      && (Work(rs, t) < Work(rs, s)
          || (Work(rs, t) == Work(rs, s) && t.pending > s.pending)
          || (Work(rs, t) == Work(rs, s) && t.pending == s.pending && IdleFlag(rs, t) < IdleFlag(rs, s)))
  {
    ReadyKeeps(rs, c, s);
    var m := Ready(rs, c, s);
    if m.active != [] {
      StepUsesTokens(m.active);
      StillKnown(m.active, m.starts);
    }
  }

  /** The outer loop.  It ends because each pass produces a token, or admits a request, or ends the wait for one. */
  function Simulate(rs: seq<Request>, c: Costs, s: Sim): Sim
    requires Sane(rs, s)
    decreases Work(rs, s), |rs| - s.pending, IdleFlag(rs, s)
  {
    if |rs| <= |s.completed| then s
    else
      ReadyKeeps(rs, c, s);
      if Stuck(rs, Ready(rs, c, s)) then Ready(rs, c, s)
      else
        RoundDecreases(rs, c, s);
        Simulate(rs, c, Round(rs, c, s))
  }

  // ----- the program

  method AdmitArrivals(
      rs: seq<Request>, pending: nat, waiting: seq<Request>, now: real, ghost s: Sim)
    returns (p: nat, w: seq<Request>)
    requires pending <= |rs| && s.pending == pending && s.waiting == waiting && s.now == now
    ensures p <= |rs| && Admit(rs, s) == s.(pending := p, waiting := w)
  {
    p, w := pending, waiting;
    while p < |rs| && rs[p].arrival <= now
      invariant p <= |rs|
      invariant Admit(rs, s) == Admit(rs, s.(pending := p, waiting := w))
      decreases |rs| - p
    {
      p, w := p + 1, w + [rs[p]];
    }
  }

  method DecodeActive(
      active: seq<Active>, starts: map<int, real>, now: real, steps: nat)
    returns (still: seq<Active>, done: seq<Result>)
    requires StartsKnown(active, starts)
    ensures still == StillActive(active) && done == Completions(active, starts, now, steps)
  {
    still, done := [], [];
    assert active[0..] == active && [] + StillActive(active) == StillActive(active);
    for i := 0 to |active|
      invariant StartsKnown(active[i..], starts)
      invariant StillActive(active) == still + StillActive(active[i..])
      invariant Completions(active, starts, now, steps) == done + Completions(active[i..], starts, now, steps)
    {
      assert active[i..][1..] == active[i + 1..];
      var item := Stepped(active[i]);
      if item.remaining <= 0 {
        done := done + [Result(item.request, starts[item.request.id], now, item.born, steps)];
      } else {
        still := still + [item];
      }
    }
  }

  method FillSlots(rs: seq<Request>, c: Costs, s: Sim) returns (t: Sim)
    requires s.pending <= |rs|
    ensures t == Fill(rs, c, s)
  {
    var pending: nat := s.pending;
    var waiting, active, now, busy, starts, started := s.waiting, s.active, s.now, s.busy, s.starts, s.started;
    var peak: nat := s.peak;
    while waiting != [] && |active| < c.maxActive
      invariant pending <= |rs|
      invariant Fill(rs, c, s)
             == Fill(rs, c, s.(pending := pending, waiting := waiting, active := active, now := now, busy := busy,
               starts := starts, started := started, peak := peak))
      decreases c.maxActive - |active|
    {
      ghost var before := s.(pending := pending, waiting := waiting, active := active, now := now, busy := busy,
        starts := starts, started := started, peak := peak);
      var request := waiting[0];
      waiting := waiting[1..];
      starts := starts[request.id := now];
      var prefill := PrefillTime(request, c);
      now := now + prefill;
      busy := busy + prefill;
      pending, waiting := AdmitArrivals(rs, pending, waiting, now,
        before.(waiting := waiting, starts := starts, now := now, busy := busy));
      active := active + [Active(request, request.output, s.steps)];
      started := started + [request];
      peak := MaxInt(peak, |active|);
      assert s.(pending := pending, waiting := waiting, active := active, now := now, busy := busy, starts := starts,
        started := started, peak := peak)
          == StartOne(rs, c, before);
    }
    t := s.(pending := pending, waiting := waiting, active := active, now := now, busy := busy, starts := starts,
      started := started, peak := peak);
  }

  /** The body of the outer loop; `more` is false when it breaks. */
  method Pass(rs: seq<Request>, c: Costs, s: Sim) returns (t: Sim, more: bool)
    requires Sane(rs, s)
    ensures more <==> !Stuck(rs, Ready(rs, c, s))
    ensures t == if more then Round(rs, c, s) else Ready(rs, c, s)
  {
    ReadyKeeps(rs, c, s);
    AdmitKeeps(rs, s);
    var pending, waiting := AdmitArrivals(rs, s.pending, s.waiting, s.now, s);
    t := FillSlots(rs, c, s.(pending := pending, waiting := waiting));
    if t.active == [] {
      if t.pending < |rs| {
        var next := rs[t.pending].arrival;
        if t.now < next {
          t := t.(idle := t.idle + (next - t.now), now := next, gaps := t.gaps + [Gap(t.now, next)]);
        }
        return t, true;
      }
      return t, false;
    }
    var time := StepTime(c, |t.active|);
    var still, done := DecodeActive(t.active, t.starts, t.now + time, t.steps + 1);
    t := t.(now := t.now + time, busy := t.busy + time, completed := t.completed + done, active := still,
            steps := t.steps + 1, occupancy := t.occupancy + |t.active|);
    more := true;
  }

  method SimulateContinuousBatching(
      requests: seq<Request>, c: Costs)
    returns (completed: seq<Result>, busy: real, idle: real)
    ensures var t := Simulate(SortByArrival(requests), c, INITIAL);
      completed == t.completed && busy == t.busy && idle == t.idle
  {
    var rs := SortByArrival(requests);
    var s := INITIAL;
    var more := true;
    while more && |s.completed| < |rs|
      invariant more ==> Sane(rs, s) && Simulate(rs, c, s) == Simulate(rs, c, INITIAL)
      invariant !more ==> s == Simulate(rs, c, INITIAL)
      decreases more, if s.pending <= |rs| then Work(rs, s) else 0, |rs| - s.pending,
        if s.pending <= |rs| then IdleFlag(rs, s) else 0
    {
      SimulateUnfolds(rs, c, s);
      s, more := Pass(rs, c, s);
    }
    completed, busy, idle := s.completed, s.busy, s.idle;
  }

  lemma SimulateUnfolds(rs: seq<Request>, c: Costs, s: Sim)
    requires Sane(rs, s) && |s.completed| < |rs|
    ensures Stuck(rs, Ready(rs, c, s)) ==> Simulate(rs, c, s) == Ready(rs, c, s)
    ensures !Stuck(rs, Ready(rs, c, s)) ==>
      var t := Round(rs, c, s);
      && Sane(rs, t) && Simulate(rs, c, s) == Simulate(rs, c, t)
      && (Work(rs, t) < Work(rs, s)
          || (Work(rs, t) == Work(rs, s) && t.pending > s.pending)
          || (Work(rs, t) == Work(rs, s) && t.pending == s.pending && IdleFlag(rs, t) < IdleFlag(rs, s)))
  {
    if !Stuck(rs, Ready(rs, c, s)) {
      RoundDecreases(rs, c, s);
    }
  }
}
