/** How far an XAUTOCLAIM gets, and that a worker that keeps reclaiming reaches every idle entry, however many busy ones
    are in the way (app/redis_stream_jobs.py:235-284, app/job_worker.py:81-88). */
module ReclaimSweep {
  import opened JobQueue

  /** The pending ids that a call walked over: from its start up to its new cursor, or to the end when that is 0. */
  function Walked(s: Store, start: StreamId, next: StreamId): set<StreamId> {
    set id | id in s.pending && start <= id <= s.lastId && (next == 0 || id < next)
  }

  /** A scan walks a prefix of its list, takes exactly the idle ids in it, and stops only at the end, after `count` of
      them, or after `attempts` steps. */
  lemma {:induction false} ScanWalks(s: Store, pel: seq<StreamId>, attempts: nat, count: nat, minIdle: nat)
    requires Ascending(pel)
    ensures var (ids, rest) := Scan(s, pel, attempts, count, minIdle);
      var n := |pel| - |rest|;
      && 0 <= n <= |pel| && rest == pel[n..] && n <= attempts && |ids| <= count
      && (forall id :: id in ids <==> id in pel[..n] && Claimable(s, id, minIdle))
      && (rest != [] ==> |ids| == count || n == attempts)
    decreases pel
  {
    if pel != [] && attempts != 0 && count != 0 {
      var chosen := Claimable(s, pel[0], minIdle);
      var left := if chosen then count - 1 else count;
      var (ids, rest) := Scan(s, pel[1..], attempts - 1, left, minIdle);
      ScanWalks(s, pel[1..], attempts - 1, left, minIdle);
      var n := |pel| - |rest|;
      assert pel[1..][..n - 1] == pel[..n][1..] && pel[..n][0] == pel[0];
    }
  }

  lemma {:induction false} CountsMembers(ids: seq<StreamId>, all: set<StreamId>)
    requires Ascending(ids) && forall id :: id in ids <==> id in all
    ensures |ids| == |all|
    decreases ids
  {
    if ids == [] {
      assert all == {};
    } else {
      assert ids[0] in ids;
      forall id ensures id in ids[1..] <==> id in all - {ids[0]} {
        assert id in ids <==> id == ids[0] || id in ids[1..];
      }
      CountsMembers(ids[1..], all - {ids[0]});
    }
  }

  lemma WalkedIsPrefix(s: Store, start: StreamId, pel: seq<StreamId>, n: nat)
    requires Ascending(pel) && n <= |pel| && (n < |pel| ==> 0 < pel[n])
    requires forall id :: id in pel <==> start <= id <= s.lastId && id in s.pending
    ensures var next := if n == |pel| then 0 else pel[n];
      && (forall id :: id in pel[..n] <==> id in Walked(s, start, next))
      && |Walked(s, start, next)| == n
  {
    var next := if n == |pel| then 0 else pel[n];
    forall id: StreamId ensures id in pel[..n] <==> id in Walked(s, start, next) {
      if id in pel {
        var i :| 0 <= i < |pel| && pel[i] == id;
        assert i < n ==> pel[..n][i] == id;
      }
      if id in pel[..n] {
        var i :| 0 <= i < n && pel[i] == id;
        assert pel[i] in pel;
      }
    }
    CountsMembers(pel[..n], Walked(s, start, next));
  }

  /** One XAUTOCLAIM, said without its scan.  Of the pending ids it walked over it takes exactly the idle ones, and no
      others.  It stops short of the end only at a pending id, and only after taking `count` ids or walking over ten
      times as many; it reports 0 exactly when it got to the end. */
  lemma AutoClaimWalks(s: Store, w: Worker, minIdle: nat, start: StreamId, count: nat)
    requires WellFormed(s)
    ensures var (t, next, ids) := AutoClaim(s, w, minIdle, start, count);
      var walked := Walked(s, start, next);
      && (forall id :: id in ids <==> id in walked && Claimable(s, id, minIdle))
      && (forall id :: id in ids ==> id in t.pending && t.pending[id] == Pending(w, s.clock))
      && (forall id :: id in s.pending && id !in ids ==> id in t.pending && t.pending[id] == s.pending[id])
      && t == s.(pending := t.pending) && t.pending.Keys == s.pending.Keys
      && (next != 0 ==>
            && next in s.pending && start + |walked| <= next
            && (|ids| == count || |walked| == 10 * count))
      && |ids| <= count && |walked| <= 10 * count
  {
    var pel := PendingFrom(s, start);
    PendingFromIsExact(s, start);
    ScanWalks(s, pel, 10 * count, count, minIdle);
    AutoClaimIsExact(s, w, minIdle, start, count);
    var (ids, rest) := Scan(s, pel, 10 * count, count, minIdle);
    var n := |pel| - |rest|;
    assert n < |pel| ==> pel[n] in pel;
    WalkedIsPrefix(s, start, pel, n);
    if n < |pel| {
      AscendingSteps(pel, n);
      assert n > 0 ==> pel[0] in pel;
    }
  }

  lemma {:induction false} AscendingSteps(pel: seq<StreamId>, n: nat)
    requires Ascending(pel) && n < |pel|
    ensures pel[0] + n <= pel[n]
  {
    if n > 0 {
      AscendingSteps(pel, n - 1);
      assert pel[n - 1] < pel[n];
    }
  }

  // ----- a worker that keeps reclaiming

  /** Some call of a worker that reclaims again and again, waiting in between and starting each time at the cursor of
      the call before, takes this entry. */
  predicate Reaches(s: Store, w: Worker, minIdle: nat, cursor: StreamId, count: nat, waits: seq<nat>, id: StreamId)
    decreases waits
  {
    waits != [] &&
    var (t, next, ids) := AutoClaim(s.(clock := s.clock + waits[0]), w, minIdle, cursor, count);
    id in ids || Reaches(t, w, minIdle, next, count, waits[1..], id)
  }

  lemma WaitKeeps(s: Store, ms: nat, minIdle: nat, id: StreamId)
    requires WellFormed(s) && Claimable(s, id, minIdle)
    ensures WellFormed(s.(clock := s.clock + ms)) && Claimable(s.(clock := s.clock + ms), id, minIdle)
  {
  }

  /** From a cursor that is not past an idle entry, it is taken within as many calls as there are ids in between. */
  lemma {:induction false} ReachesAhead(s: Store, w: Worker, minIdle: nat, cursor: StreamId, count: nat,
      waits: seq<nat>, id: StreamId)
    requires WellFormed(s) && 1 <= count && Claimable(s, id, minIdle)
    requires cursor <= id && id - cursor < |waits|
    ensures Reaches(s, w, minIdle, cursor, count, waits, id)
    decreases waits
  {
    var s1 := s.(clock := s.clock + waits[0]);
    WaitKeeps(s, waits[0], minIdle, id);
    AutoClaimWalks(s1, w, minIdle, cursor, count);
    var (t, next, ids) := AutoClaim(s1, w, minIdle, cursor, count);
    if id !in ids {
      CursorMoves(s1, minIdle, cursor, next, ids, count);
      ReachesAhead(t, w, minIdle, next, count, waits[1..], id);
    }
  }

  lemma CursorMoves(s: Store, minIdle: nat, cursor: StreamId, next: StreamId, ids: seq<StreamId>, count: nat)
    requires 1 <= count && next != 0 && cursor + |Walked(s, cursor, next)| <= next
    requires forall id :: id in ids ==> id in Walked(s, cursor, next)
    requires |ids| == count || |Walked(s, cursor, next)| == 10 * count
    ensures cursor < next
  {
    if |ids| == count {
      assert ids[0] in Walked(s, cursor, next);
    }
  }

  /** From any cursor it is taken before the worker has gone round twice: busy entries never hide an idle one. */
  lemma {:induction false} EveryIdleEntryIsReached(s: Store, w: Worker, minIdle: nat, cursor: StreamId, count: nat,
      waits: seq<nat>, id: StreamId)
    requires WellFormed(s) && 1 <= count && Claimable(s, id, minIdle)
    requires (if cursor <= id then 0 else if cursor <= s.lastId then s.lastId + 1 - cursor else 1) + id < |waits|
    ensures Reaches(s, w, minIdle, cursor, count, waits, id)
    decreases waits
  {
    if cursor <= id {
      ReachesAhead(s, w, minIdle, cursor, count, waits, id);
    } else {
      var s1 := s.(clock := s.clock + waits[0]);
      WaitKeeps(s, waits[0], minIdle, id);
      AutoClaimWalks(s1, w, minIdle, cursor, count);
      var (t, next, ids) := AutoClaim(s1, w, minIdle, cursor, count);
      if id !in ids {
        if next != 0 {
          CursorMoves(s1, minIdle, cursor, next, ids, count);
        }
        EveryIdleEntryIsReached(t, w, minIdle, next, count, waits[1..], id);
      }
    }
  }
}
