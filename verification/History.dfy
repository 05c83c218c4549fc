/** Histories of a running system, and times that keep their distance. */
module History {
  /** Events, newest last. */
  datatype Log<Event> = Start | Then(earlier: Log<Event>, event: Event)

  /** Each time is at least `gap` after the next older one; newest first. */
  predicate Spaced(times: seq<int>, gap: int) {
    |times| < 2 || (times[0] - times[1] >= gap && Spaced(times[1..], gap))
  }

  /** Then any two are. */
  lemma {:induction false} SpacedPairwise(times: seq<int>, gap: int, i: nat, j: nat)
    requires 0 <= gap && Spaced(times, gap) && i < j < |times|
    ensures times[i] - times[j] >= gap
    decreases j
  {
    if i > 0 {
      SpacedPairwise(times[1..], gap, i - 1, j - 1);
    } else if j > 1 {
      SpacedPairwise(times[1..], gap, 0, j - 1);
    }
  }

  lemma SpacedCons(at: int, times: seq<int>, gap: int)
    requires Spaced(times, gap) && (times != [] ==> at - times[0] >= gap)
    ensures Spaced([at] + times, gap)
  {
    assert ([at] + times)[1..] == times;
  }
}
