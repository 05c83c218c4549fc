/** Requests of the scheduler simulation (scripts/scheduler_simulation.py:9-27) and their order of arrival. */
module Requests {
  datatype Request = Request(id: int, arrival: real, prompt: int, output: int)

  function MaxInt(a: int, b: int): int { if a < b then b else a }

  predicate Sorted(rs: seq<Request>) {
    forall i, j :: 0 <= i < j < |rs| ==> rs[i].arrival <= rs[j].arrival
  }

  /** Stable insertion after everything that arrived no later. */
  function Insert(rs: seq<Request>, r: Request): seq<Request> {
    if rs == [] || rs[|rs| - 1].arrival <= r.arrival then rs + [r]
    else Insert(rs[..|rs| - 1], r) + [rs[|rs| - 1]]
  }

  /** `sorted(requests, key=arrival_time)` */
  function SortByArrival(rs: seq<Request>): seq<Request> {
    if rs == [] then [] else Insert(SortByArrival(rs[..|rs| - 1]), rs[|rs| - 1])
  }

  lemma {:induction false} InsertPermutes(rs: seq<Request>, r: Request)
    ensures multiset(Insert(rs, r)) == multiset(rs) + multiset{r}
    decreases rs
  {
    if rs != [] && r.arrival < rs[|rs| - 1].arrival {
      assert rs == rs[..|rs| - 1] + [rs[|rs| - 1]];
      InsertPermutes(rs[..|rs| - 1], r);
    }
  }

  lemma {:induction false} InsertSorts(rs: seq<Request>, r: Request)
    requires Sorted(rs)
    ensures Sorted(Insert(rs, r))
    decreases rs
  {
    if rs != [] && r.arrival < rs[|rs| - 1].arrival {
      var front, last := rs[..|rs| - 1], rs[|rs| - 1];
      InsertSorts(front, r);
      var inserted := Insert(front, r);
      forall i | 0 <= i < |inserted| ensures inserted[i].arrival <= last.arrival {
        InsertPermutes(front, r);
        assert inserted[i] in multiset(inserted);
        assert inserted[i] == r || inserted[i] in multiset(front);
      }
    }
  }

  /** Sorting by arrival gives a sorted permutation. */
  lemma {:induction false} SortIsSorted(rs: seq<Request>)
    ensures Sorted(SortByArrival(rs)) && multiset(SortByArrival(rs)) == multiset(rs)
    decreases rs
  {
    if rs != [] {
      var front, last := rs[..|rs| - 1], rs[|rs| - 1];
      assert rs == front + [last];
      SortIsSorted(front);
      InsertSorts(SortByArrival(front), last);
      InsertPermutes(SortByArrival(front), last);
    }
  }
}
