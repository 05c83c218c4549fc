/** When one healthy worker, repeating `process_once` undisturbed, empties the stream.

    It does not always: a call that reclaimed something, but fewer entries than a batch, reads new entries with
    BLOCK 0 (app/job_worker.py:95-105), which waits without limit.  With nothing new the call ends in a socket timeout
    before the reclaimed messages are processed.  `DrainsExactlyWhen` says for which states this happens: wherever the
    worker's reclaim cursor stands, and however many entries are pending before it, behind it, or undelivered. */
module JobDrain {
  import opened JobQueue
  import opened JobWorker
  import opened JobRound

  /** What surrounds one call: the time that passes before it, and what its messages bring. */
  datatype Env = Env(pause: nat, work: StreamId -> Work)

  function Pausing(s: Store, ms: nat): Store {
    s.(clock := s.clock + ms)
  }

  /** The worker's main loop: one call of `process_once` per environment, whatever the call returned. */
  function After(s: Store, cfg: Config, cursor: StreamId, envs: seq<Env>): (r: (Store, StreamId))
    requires WellFormed(s) && cfg.Valid()
    ensures WellFormed(r.0)
    decreases envs
  {
    if envs == [] then (s, cursor)
    else
      var (t, c, _) := Once(Pausing(s, envs[0].pause), cfg, cursor, envs[0].work);
      After(t, cfg, c, envs[1..])
  }

  ghost predicate AllBrisk(envs: seq<Env>, cfg: Config) {
    forall i :: 0 <= i < |envs| ==> Brisk(envs[i].work, cfg)
  }

  /** Everything pending is idle past the threshold. */
  ghost predicate Overdue(s: Store, cfg: Config) {
    forall id :: id in s.pending ==> Claimable(s, id, cfg.reclaimIdle)
  }

  /** Nobody else is at work and everything pending is overdue. */
  ghost predicate Quiet(s: Store, cfg: Config) {
    Calm(s) && Overdue(s, cfg)
  }

  /** The pending entries the worker's next reclaim starts with, and those it has already passed. */
  function Ahead(s: Store, cursor: StreamId): set<StreamId> {
    set id | id in s.pending && cursor <= id
  }

  function Behind(s: Store, cursor: StreamId): set<StreamId> {
    set id | id in s.pending && id < cursor
  }

  /** `n` entries fill whole batches. */
  predicate WholeBatches(n: nat, batch: nat)
    requires 0 < batch
    decreases n
  {
    n == 0 || (batch <= n && WholeBatches(n - batch, batch))
  }

  /** How many new entries the call reads that comes to the end of `ahead` pending ones. */
  function Room(ahead: nat, batch: nat): nat
    requires 0 < batch
  {
    if ahead < batch then batch - ahead else if ahead == batch then 0 else Room(ahead - batch, batch)
  }

  /** The state of the loop between two calls, as far as draining goes: how many pending entries are ahead of the
      cursor, how many behind it, and how many entries are undelivered. */
  datatype Load = Load(ahead: nat, behind: nat, unread: nat)

  function LoadOf(s: Store, cursor: StreamId): Load {
    Load(|Ahead(s, cursor)|, |Behind(s, cursor)|, |Unread(s)|)
  }

  /** The condition for draining.  With nothing undelivered, all pending entries make up whole batches; otherwise those
      behind the cursor do, or some entry is still undelivered when the worker comes back to them. */
  predicate Drainable(l: Load, batch: nat)
    requires 0 < batch
  {
    if l.unread == 0 then WholeBatches(l.ahead + l.behind, batch)
    else WholeBatches(l.behind, batch) || Room(l.ahead, batch) < l.unread
  }

  /** What is ahead of the cursor leaves a remainder, and nothing is undelivered to fill it up: the worker claims the
      remainder, gets stuck, and has to wait until it may claim it again. */
  predicate Stalls(l: Load, batch: nat)
    requires 0 < batch
  {
    l.unread == 0 && !WholeBatches(l.ahead, batch)
  }

  /** The one call that processes nothing although the stream can be drained: it stalls, or finds nothing ahead. */
  function Detours(l: Load, batch: nat): nat
    requires 0 < batch
  {
    if l.unread == 0 && l.behind != 0 && (l.ahead == 0 || Stalls(l, batch)) then 1 else 0
  }

  /** What was claimed before such a pause is overdue after it, when the claim ended in a socket timeout. */
  predicate Rests(env: Env, cfg: Config) {
    cfg.reclaimIdle <= env.pause + cfg.socketTimeout
  }

  /** How many calls process a whole batch before the worker comes to the end of `ahead` pending entries. */
  function CallsBefore(ahead: nat, batch: nat): nat
    requires 0 < batch
  {
    if ahead < batch then 0 else 1 + CallsBefore(ahead - batch, batch)
  }

  /** The pause after the call that stalls is long enough. */
  predicate RestsAfterStall(l: Load, envs: seq<Env>, cfg: Config)
    requires cfg.Valid()
  {
    var i := CallsBefore(l.ahead, cfg.batch) + 1;
    i < |envs| ==> Rests(envs[i], cfg)
  }

  lemma AtLeastOnce(b: int, k: int)
    requires 0 < b
    ensures k >= 1 ==> b * k >= b
    ensures k <= -1 ==> b * k <= -b
  {
    if k >= 1 {
      assert b * k == b * (k - 1) + b;
      assert b * (k - 1) >= 0;
    } else if k <= -1 {
      assert b * k == b * (k + 1) - b;
      assert b * (-(k + 1)) >= 0;
    }
  }

  lemma ModMinus(n: nat, b: nat)
    requires 0 < b <= n
    ensures (n - b) % b == n % b
  {
    var m := n - b;
    var k := n / b - 1 - m / b;
    assert n == b * (n / b) + n % b;
    assert m == b * (m / b) + m % b;
    assert b * k == b * (n / b) - b - b * (m / b);
    AtLeastOnce(b, k);
  }

  lemma {:induction false} WholeBatchesIsDivisibility(n: nat, batch: nat)
    requires 0 < batch
    ensures WholeBatches(n, batch) <==> n % batch == 0
    decreases n
  {
    if batch <= n {
      ModMinus(n, batch);
      WholeBatchesIsDivisibility(n - batch, batch);
    }
  }

  lemma {:induction false} RoomIsRemainder(ahead: nat, batch: nat)
    requires 0 < batch
    ensures Room(ahead, batch) == if ahead != 0 && ahead % batch == 0 then 0 else batch - ahead % batch
    decreases ahead
  {
    if batch < ahead {
      ModMinus(ahead, batch);
      RoomIsRemainder(ahead - batch, batch);
    }
  }

  // ----- sets of entries

  lemma CountMinus<T>(a: set<T>, b: set<T>)
    requires b <= a
    ensures |a - b| == |a| - |b|
  {
    assert a == (a - b) + b;
  }

  lemma Smaller(s: Store, t: Store, id: StreamId)
    requires t.stream.Keys <= s.stream.Keys && id in s.stream && id !in t.stream
    ensures |t.stream| < |s.stream|
  {
    CountMinus(s.stream.Keys, t.stream.Keys);
    assert id in s.stream.Keys - t.stream.Keys;
    assert |t.stream| == |t.stream.Keys| && |s.stream| == |s.stream.Keys|;
  }

  lemma AheadAndBehind(s: Store, cursor: StreamId)
    ensures |Ahead(s, cursor)| + |Behind(s, cursor)| == |s.pending|
    ensures Ahead(s, 0) == s.pending.Keys && Behind(s, 0) == {}
  {
    assert Ahead(s, cursor) + Behind(s, cursor) == s.pending.Keys;
  }

  lemma ListsAhead(s: Store, cursor: StreamId)
    requires WellFormed(s)
    ensures var p := PendingFrom(s, cursor);
      Ascending(p) && Elements(p) == Ahead(s, cursor) && |p| == |Ahead(s, cursor)|
  {
    PendingFromIsExact(s, cursor);
    AscendingCount(PendingFrom(s, cursor));
  }

  lemma PausingKeeps(s: Store, cursor: StreamId, ms: nat)
    ensures var s1 := Pausing(s, ms);
      && (Calm(s) ==> Calm(s1)) && Unread(s1) == Unread(s)
      && Ahead(s1, cursor) == Ahead(s, cursor) && Behind(s1, cursor) == Behind(s, cursor)
  {
  }

  lemma QuietWaits(s: Store, cfg: Config, ms: nat)
    requires Quiet(s, cfg)
    ensures Quiet(Pausing(s, ms), cfg)
  {
    PausingKeeps(s, 0, ms);
  }

  lemma SplitList(p: seq<StreamId>, n: nat)
    requires Ascending(p) && n <= |p|
    ensures Ascending(p[..n]) && Ascending(p[n..])
    ensures Elements(p[n..]) == Elements(p) - Elements(p[..n])
    ensures forall id :: id in p[n..] ==> p[n] <= id
  {
    assert p == p[..n] + p[n..];
  }

  // ----- one call on a quiet store

  /** When everything listed is idle, a scan simply takes the first `count`. */
  lemma {:induction false} ScanTakesPrefix(s: Store, pel: seq<StreamId>, attempts: nat, count: nat, minIdle: nat)
    requires count <= attempts && forall i :: 0 <= i < |pel| ==> Claimable(s, pel[i], minIdle)
    ensures var n := if count <= |pel| then count else |pel|;
      Scan(s, pel, attempts, count, minIdle) == (pel[..n], pel[n..])
    decreases pel
  {
    if pel != [] && count != 0 {
      assert Claimable(s, pel[0], minIdle);
      ScanTakesPrefix(s, pel[1..], attempts - 1, count - 1, minIdle);
      var n := if count <= |pel| then count else |pel|;
      assert [pel[0]] + pel[1..][..n - 1] == pel[..n];
    }
  }

  /** The reclaim of a quiet store takes the first batch of what is ahead of the cursor, or all of it. */
  lemma QuietReclaim(s: Store, cfg: Config, cursor: StreamId)
    requires cfg.Valid() && Quiet(s, cfg)
    ensures var p := PendingFrom(s, cursor);
      var n := if cfg.batch <= |p| then cfg.batch else |p|;
      var k := Take(s, cfg, cursor);
      k.reclaimed == p[..n] && k.cursor == (if p[n..] == [] then 0 else p[n])
  {
    var p := PendingFrom(s, cursor);
    PendingFromIsExact(s, cursor);
    forall i | 0 <= i < |p| ensures Claimable(s, p[i], cfg.reclaimIdle) {
      assert p[i] in p;
    }
    ScanTakesPrefix(s, p, 10 * cfg.batch, cfg.batch, cfg.reclaimIdle);
    AutoClaimIsExact(s, cfg.name, cfg.reclaimIdle, cursor, cfg.batch);
    TakeIs(s, cfg, cursor);
    var (_, next, ids) := AutoClaim(s, cfg.name, cfg.reclaimIdle, cursor, cfg.batch);
    ReclaimedKeeps(s, cfg, ids);
    TakeNewIs(Reclaimed(s, cfg, ids), cfg, next, ids);
  }

  lemma ProgressStaysOverdue(s: Store, t: Store, cfg: Config, taken: set<StreamId>)
    requires Overdue(s, cfg) && Progress(s, t, taken)
    ensures Overdue(t, cfg)
  {
  }

  /** A whole batch ahead: it is processed, and nothing else changes. */
  lemma FullRound(s: Store, cfg: Config, cursor: StreamId, work: StreamId -> Work)
    requires cfg.Valid() && Quiet(s, cfg) && Brisk(work, cfg) && cfg.batch <= |Ahead(s, cursor)|
    ensures var (t, next, _) := Once(s, cfg, cursor, work);
      var p := PendingFrom(s, cursor);
      && cfg.batch <= |p| && next == (if p[cfg.batch..] == [] then 0 else p[cfg.batch])
      && t.delivered == s.delivered && Progress(s, t, Elements(p[..cfg.batch])) && Quiet(t, cfg)
  {
    ListsAhead(s, cursor);
    QuietReclaim(s, cfg, cursor);
    TakeCounts(s, cfg, cursor);
    var k := Take(s, cfg, cursor);
    assert k.reclaimed + k.news == k.reclaimed;
    ReturnedRound(s, cfg, cursor, work);
    var t := Once(s, cfg, cursor, work).0;
    ReturnedStaysCalm(s, cfg, cursor, t);
    ProgressStaysOverdue(s, t, cfg, Elements(k.reclaimed));
  }

  lemma PendingTaken(s: Store, t: Store, taken: seq<StreamId>)
    requires forall id :: id in s.pending ==> id in s.stream && id <= s.delivered
    requires taken != [] && forall id :: id in taken ==> id in s.pending
    requires t.delivered == s.delivered && t.stream == s.stream - Elements(taken)
    ensures |t.stream| < |s.stream| && Unread(t) == Unread(s)
  {
    assert taken[0] in taken;
    Smaller(s, t, taken[0]);
    forall id: StreamId ensures id in Unread(t) <==> id in Unread(s) {
    }
  }

  lemma FullRoundStream(s: Store, t: Store, cursor: StreamId, batch: nat)
    requires WellFormed(s) && 0 < batch <= |PendingFrom(s, cursor)|
    requires forall id :: id in s.pending ==> id in s.stream && id <= s.delivered
    requires t.delivered == s.delivered && t.stream == s.stream - Elements(PendingFrom(s, cursor)[..batch])
    ensures |t.stream| < |s.stream| && Unread(t) == Unread(s)
  {
    var p := PendingFrom(s, cursor);
    PendingFromIsExact(s, cursor);
    forall id | id in p[..batch] ensures id in s.pending {
      assert id in p;
    }
    PendingTaken(s, t, p[..batch]);
  }

  lemma FullRoundPending(s: Store, t: Store, cursor: StreamId, p: seq<StreamId>, batch: nat)
    requires Ascending(p) && 0 < batch <= |p| && Elements(p) == Ahead(s, cursor)
    requires t.pending == s.pending - Elements(p[..batch])
    ensures batch == |p| ==> Ahead(t, 0) == Behind(s, cursor)
    ensures batch < |p| ==> |Ahead(t, p[batch])| == |p| - batch && Behind(t, p[batch]) == Behind(s, cursor)
  {
    assert t.pending.Keys == s.pending.Keys - Elements(p[..batch]);
    if batch == |p| {
      assert p[..batch] == p;
    } else {
      AheadOfNext(s, t, cursor, p, batch);
      AscendingCount(p[batch..]);
    }
  }

  lemma AheadOfNext(s: Store, t: Store, cursor: StreamId, p: seq<StreamId>, batch: nat)
    requires Ascending(p) && batch < |p| && Elements(p) == Ahead(s, cursor)
    requires t.pending.Keys == s.pending.Keys - Elements(p[..batch])
    ensures Ascending(p[batch..])
    ensures Ahead(t, p[batch]) == Elements(p[batch..]) && Behind(t, p[batch]) == Behind(s, cursor)
  {
    SplitList(p, batch);
    assert p[batch] in p && p[batch] in Elements(p);
    assert cursor <= p[batch];
    forall id: StreamId | id in Elements(p) ensures id in Elements(p[..batch]) <==> id < p[batch] {
      var i :| 0 <= i < |p| && p[i] == id;
      if i < batch {
        assert p[..batch][i] == id;
      } else {
        assert p[batch..][i - batch] == id;
      }
    }
    forall id: StreamId ensures id in Ahead(t, p[batch]) <==> id in Elements(p[batch..]) {
    }
    forall id: StreamId ensures id in Behind(t, p[batch]) <==> id in Behind(s, cursor) {
      assert id in Elements(p) <==> id in s.pending && cursor <= id;
    }
  }

  lemma FullRoundCounts(s: Store, t: Store, cursor: StreamId, next: StreamId, batch: nat)
    requires WellFormed(s) && 0 < batch <= |PendingFrom(s, cursor)|
    requires forall id :: id in s.pending ==> id in s.stream && id <= s.delivered
    requires var p := PendingFrom(s, cursor);
      && next == (if p[batch..] == [] then 0 else p[batch])
      && t.delivered == s.delivered && Progress(s, t, Elements(p[..batch]))
    ensures |t.stream| < |s.stream| && Unread(t) == Unread(s)
    ensures batch == |Ahead(s, cursor)| ==> next == 0 && Ahead(t, next) == Behind(s, cursor)
    ensures batch < |Ahead(s, cursor)| ==>
      |Ahead(t, next)| == |Ahead(s, cursor)| - batch && Behind(t, next) == Behind(s, cursor)
  {
    ListsAhead(s, cursor);
    FullRoundStream(s, t, cursor, batch);
    FullRoundPending(s, t, cursor, PendingFrom(s, cursor), batch);
  }

  /** Less than a batch ahead, and something new: both are processed, and the cursor starts over. */
  lemma PartialRound(s: Store, cfg: Config, cursor: StreamId, work: StreamId -> Work)
    requires cfg.Valid() && Quiet(s, cfg) && Brisk(work, cfg) && |Ahead(s, cursor)| < cfg.batch && Unread(s) != {}
    ensures var (t, next, _) := Once(s, cfg, cursor, work);
      var k := Take(s, cfg, cursor);
      && next == 0 && k.reclaimed == PendingFrom(s, cursor)
      && t.delivered == k.store.delivered && Progress(s, t, Elements(k.reclaimed + k.news)) && Quiet(t, cfg)
  {
    ListsAhead(s, cursor);
    QuietReclaim(s, cfg, cursor);
    var p := PendingFrom(s, cursor);
    assert p[..|p|] == p && p[|p|..] == [];
    TakeCounts(s, cfg, cursor);
    var k := Take(s, cfg, cursor);
    ReturnedRound(s, cfg, cursor, work);
    var t := Once(s, cfg, cursor, work).0;
    ReturnedStaysCalm(s, cfg, cursor, t);
    ProgressStaysOverdue(s, t, cfg, Elements(k.reclaimed + k.news));
  }

  lemma PartialRoundUnread(s: Store, cfg: Config, cursor: StreamId, t: Store)
    requires cfg.Valid() && Calm(s) && Unread(s) != {}
    requires var k := Take(s, cfg, cursor);
      && |k.reclaimed| < cfg.batch
      && t.delivered == k.store.delivered && Progress(s, t, Elements(k.reclaimed + k.news))
    ensures |t.stream| < |s.stream|
    ensures var room := cfg.batch - |Take(s, cfg, cursor).reclaimed|;
      |Unread(t)| == if |Unread(s)| <= room then 0 else |Unread(s)| - room
  {
    var k := Take(s, cfg, cursor);
    TakeCounts(s, cfg, cursor);
    forall id: StreamId ensures id in k.news <==> id in s.stream && s.delivered < id <= k.store.delivered {
      TakeReads(s, cfg, cursor, id);
    }
    NewsLeft(s, t, k);
  }

  lemma NewsLeft(s: Store, t: Store, k: Taken)
    requires Calm(s) && k.news != [] && Ascending(k.news) && forall id :: id in k.reclaimed ==> id in s.pending
    requires forall id: StreamId :: id in k.news <==> id in s.stream && s.delivered < id <= k.store.delivered
    requires s.delivered <= t.delivered == k.store.delivered && t.stream == s.stream - Elements(k.reclaimed + k.news)
    ensures |t.stream| < |s.stream| && |Unread(t)| == |Unread(s)| - |k.news|
  {
    assert k.news[0] in k.news;
    Smaller(s, t, k.news[0]);
    AscendingCount(k.news);
    UnreadLeft(s, t, k);
    CountMinus(Unread(s), Elements(k.news));
  }

  lemma UnreadLeft(s: Store, t: Store, k: Taken)
    requires Calm(s) && forall id :: id in k.reclaimed ==> id in s.pending
    requires forall id: StreamId :: id in k.news <==> id in s.stream && s.delivered < id <= k.store.delivered
    requires s.delivered <= t.delivered == k.store.delivered && t.stream == s.stream - Elements(k.reclaimed + k.news)
    ensures Unread(t) == Unread(s) - Elements(k.news) && Elements(k.news) <= Unread(s)
  {
    assert forall id :: id in k.reclaimed ==> id in s.stream && id <= s.delivered;
    forall id: StreamId ensures id in Unread(t) <==> id in Unread(s) && id !in k.news {
    }
  }

  lemma PartialRoundPending(s: Store, t: Store, k: Taken, cursor: StreamId)
    requires Calm(s) && Elements(k.reclaimed) == Ahead(s, cursor)
    requires forall id :: id in k.news ==> s.delivered < id
    requires t.pending == s.pending - Elements(k.reclaimed + k.news)
    ensures Ahead(t, 0) == Behind(s, cursor)
  {
    assert forall id :: id in s.pending ==> id in s.stream && id <= s.delivered;
    forall id: StreamId ensures id in Ahead(t, 0) <==> id in Behind(s, cursor) {
      assert id in k.reclaimed <==> id in Elements(k.reclaimed);
    }
  }

  lemma PartialRoundCounts(s: Store, cfg: Config, cursor: StreamId, t: Store)
    requires cfg.Valid() && Calm(s) && |Ahead(s, cursor)| < cfg.batch && Unread(s) != {}
    requires var k := Take(s, cfg, cursor);
      && k.reclaimed == PendingFrom(s, cursor)
      && t.delivered == k.store.delivered && Progress(s, t, Elements(k.reclaimed + k.news))
    ensures |t.stream| < |s.stream| && Ahead(t, 0) == Behind(s, cursor)
    ensures |Unread(t)| == (if |Unread(s)| <= cfg.batch - |Ahead(s, cursor)| then 0
                            else |Unread(s)| - (cfg.batch - |Ahead(s, cursor)|))
  {
    ListsAhead(s, cursor);
    PartialRoundUnread(s, cfg, cursor, t);
    forall id | id in Take(s, cfg, cursor).news ensures s.delivered < id {
      TakeReads(s, cfg, cursor, id);
    }
    PartialRoundPending(s, t, Take(s, cfg, cursor), cursor);
  }

  /** Whether the call that finds nothing comes back or not, it has processed nothing. */
  lemma IdleStore(s: Store, cfg: Config, cursor: StreamId, work: StreamId -> Work)
    requires cfg.Valid() && Calm(s) && Take(s, cfg, cursor).news == []
    requires Take(s, cfg, cursor).returned ==> Take(s, cfg, cursor).reclaimed == []
    ensures var (t, next, _) := Once(s, cfg, cursor, work);
      var k := Take(s, cfg, cursor);
      && t == k.store && next == k.cursor
      && t == s.(pending := s.pending + Handed(k.reclaimed, cfg.name, s.clock), clock := t.clock) && s.clock <= t.clock
      && (k.reclaimed != [] ==> t.clock == s.clock + cfg.socketTimeout)
  {
    TakeCounts(s, cfg, cursor);
    TakeStore(s, cfg, cursor);
    var k := Take(s, cfg, cursor);
    assert s.pending + Handed(k.reclaimed, cfg.name, s.clock) + Handed([], cfg.name, s.clock)
        == s.pending + Handed(k.reclaimed, cfg.name, s.clock);
  }

  lemma HandedAgain(s: Store, t: Store, cfg: Config, ids: seq<StreamId>)
    requires Quiet(s, cfg) && forall id :: id in ids ==> id in s.pending
    requires t == s.(pending := s.pending + Handed(ids, cfg.name, s.clock), clock := t.clock) && s.clock <= t.clock
    ensures Calm(t) && t.pending.Keys == s.pending.Keys && Unread(t) == Unread(s)
    requires ids != [] ==> t.clock == s.clock + cfg.socketTimeout
    ensures ids == [] ==> Quiet(t, cfg)
    ensures forall ms: nat :: cfg.reclaimIdle <= ms + cfg.socketTimeout ==> Quiet(Pausing(t, ms), cfg)
  {
    if ids == [] {
      assert t.pending == s.pending;
    }
  }

  /** Less than a batch ahead, and nothing new: nothing is processed, and the cursor starts over. */
  lemma IdleRound(s: Store, cfg: Config, cursor: StreamId, work: StreamId -> Work)
    requires cfg.Valid() && Quiet(s, cfg) && |Ahead(s, cursor)| < cfg.batch && Unread(s) == {}
    ensures var (t, next, _) := Once(s, cfg, cursor, work);
      && next == 0 && Calm(t)
      && t.stream == s.stream && t.jobs == s.jobs && t.pending.Keys == s.pending.Keys && Unread(t) == {}
      && (Ahead(s, cursor) == {} ==> Quiet(t, cfg))
      && (forall ms: nat :: cfg.reclaimIdle <= ms + cfg.socketTimeout ==> Quiet(Pausing(t, ms), cfg))
  {
    var p := PendingFrom(s, cursor);
    ListsAhead(s, cursor);
    QuietReclaim(s, cfg, cursor);
    assert p[..|p|] == p && p[|p|..] == [];
    TakeCounts(s, cfg, cursor);
    IdleStore(s, cfg, cursor, work);
    var t := Once(s, cfg, cursor, work).0;
    HandedAgain(s, t, cfg, p);
  }

  /** A call on a quiet store makes the stream smaller exactly when a whole batch is ahead of the cursor or something is
      undelivered.  Otherwise it leaves every entry and every record as it was, and the cursor starts over. */
  lemma OneRound(s: Store, cfg: Config, cursor: StreamId, work: StreamId -> Work)
    requires cfg.Valid() && Quiet(s, cfg) && Brisk(work, cfg)
    ensures var (t, next, _) := Once(s, cfg, cursor, work);
      && Calm(t)
      && (|t.stream| < |s.stream| <==> cfg.batch <= |Ahead(s, cursor)| || Unread(s) != {})
      && (|t.stream| < |s.stream| ==> Quiet(t, cfg))
      && (!(|t.stream| < |s.stream|) ==>
            t.stream == s.stream && t.jobs == s.jobs && t.pending.Keys == s.pending.Keys && next == 0)
  {
    var (t, next, _) := Once(s, cfg, cursor, work);
    if cfg.batch <= |Ahead(s, cursor)| {
      FullRound(s, cfg, cursor, work);
      FullRoundCounts(s, t, cursor, next, cfg.batch);
    } else if Unread(s) != {} {
      PartialRound(s, cfg, cursor, work);
      PartialRoundCounts(s, cfg, cursor, t);
    } else {
      IdleRound(s, cfg, cursor, work);
    }
  }

  // ----- a store that can be drained

  /** What one call makes of it. */
  function Lighter(l: Load, batch: nat): Load
    requires 0 < batch
  {
    if batch < l.ahead then Load(l.ahead - batch, l.behind, l.unread)
    else if batch == l.ahead then Load(l.behind, 0, l.unread)
    else if l.unread == 0 then Load(l.ahead + l.behind, 0, 0)
    else if l.unread <= batch - l.ahead then Load(l.behind, 0, 0)
    else Load(l.behind, 0, l.unread - (batch - l.ahead))
  }

  lemma LighterDrains(l: Load, batch: nat)
    requires 0 < batch
    ensures Drainable(Lighter(l, batch), batch) <==> Drainable(l, batch)
  {
  }

  lemma LighterDetours(l: Load, batch: nat)
    requires 0 < batch && Drainable(l, batch)
    ensures Detours(Lighter(l, batch), batch) == if l.ahead < batch && l.unread == 0 then 0 else Detours(l, batch)
    ensures Stalls(Lighter(l, batch), batch) ==> Stalls(l, batch)
    ensures l.ahead < batch && l.unread == 0 && (l.ahead != 0 || l.behind != 0) ==> Detours(l, batch) == 1
  {
    if batch <= l.ahead {
      assert WholeBatches(l.ahead, batch) <==> WholeBatches(l.ahead - batch, batch);
    }
  }

  lemma FullRoundLightens(s: Store, cfg: Config, cursor: StreamId, work: StreamId -> Work)
    requires cfg.Valid() && Quiet(s, cfg) && Brisk(work, cfg) && cfg.batch <= |Ahead(s, cursor)|
    ensures var (t, next, _) := Once(s, cfg, cursor, work);
      LoadOf(t, next) == Lighter(LoadOf(s, cursor), cfg.batch)
  {
    var (t, next, _) := Once(s, cfg, cursor, work);
    FullRound(s, cfg, cursor, work);
    FullRoundCounts(s, t, cursor, next, cfg.batch);
    AheadAndBehind(t, 0);
  }

  lemma PartialRoundLightens(s: Store, cfg: Config, cursor: StreamId, work: StreamId -> Work)
    requires cfg.Valid() && Quiet(s, cfg) && Brisk(work, cfg) && |Ahead(s, cursor)| < cfg.batch && Unread(s) != {}
    ensures var (t, next, _) := Once(s, cfg, cursor, work);
      LoadOf(t, next) == Lighter(LoadOf(s, cursor), cfg.batch)
  {
    var t := Once(s, cfg, cursor, work).0;
    PartialRound(s, cfg, cursor, work);
    PartialRoundCounts(s, cfg, cursor, t);
    AheadAndBehind(t, 0);
  }

  lemma IdleRoundLightens(s: Store, cfg: Config, cursor: StreamId, work: StreamId -> Work)
    requires cfg.Valid() && Quiet(s, cfg) && |Ahead(s, cursor)| < cfg.batch && Unread(s) == {}
    ensures var (t, next, _) := Once(s, cfg, cursor, work);
      LoadOf(t, next) == Lighter(LoadOf(s, cursor), cfg.batch)
  {
    var t := Once(s, cfg, cursor, work).0;
    IdleRound(s, cfg, cursor, work);
    AheadAndBehind(s, cursor);
    AheadAndBehind(t, 0);
    assert |t.pending.Keys| == |s.pending.Keys|;
  }

  lemma RoundLightens(s: Store, cfg: Config, cursor: StreamId, work: StreamId -> Work)
    requires cfg.Valid() && Quiet(s, cfg) && Brisk(work, cfg)
    ensures var (t, next, _) := Once(s, cfg, cursor, work);
      LoadOf(t, next) == Lighter(LoadOf(s, cursor), cfg.batch)
  {
    if cfg.batch <= |Ahead(s, cursor)| {
      FullRoundLightens(s, cfg, cursor, work);
    } else if Unread(s) != {} {
      PartialRoundLightens(s, cfg, cursor, work);
    } else {
      IdleRoundLightens(s, cfg, cursor, work);
    }
  }

  lemma EmptyLoad(s: Store, cursor: StreamId)
    requires Calm(s)
    ensures s.stream == map[] <==> LoadOf(s, cursor) == Load(0, 0, 0)
  {
    forall id | id in s.stream ensures id in Ahead(s, cursor) || id in Behind(s, cursor) || id in Unread(s) {
    }
  }

  // ----- a store that can be drained

  /** The store is quiet when the next call is made. */
  ghost predicate QuietThen(s: Store, cfg: Config, envs: seq<Env>) {
    Calm(s) && (envs != [] ==> Quiet(Pausing(s, envs[0].pause), cfg))
  }

  lemma StaysQuiet(t: Store, cfg: Config, envs: seq<Env>)
    requires Quiet(t, cfg)
    ensures QuietThen(t, cfg, envs)
  {
    if envs != [] {
      QuietWaits(t, cfg, envs[0].pause);
    }
  }

  /** After one call the next one finds a quiet store again, if the pause is long enough after a stall. */
  lemma RoundStaysQuiet(s: Store, cfg: Config, cursor: StreamId, env: Env, rest: seq<Env>)
    requires cfg.Valid() && Quiet(s, cfg) && Brisk(env.work, cfg)
    requires Stalls(LoadOf(s, cursor), cfg.batch) && |Ahead(s, cursor)| < cfg.batch && rest != [] ==>
      Rests(rest[0], cfg)
    ensures QuietThen(Once(s, cfg, cursor, env.work).0, cfg, rest)
  {
    var t := Once(s, cfg, cursor, env.work).0;
    OneRound(s, cfg, cursor, env.work);
    if |t.stream| < |s.stream| || Ahead(s, cursor) == {} {
      if !(|t.stream| < |s.stream|) {
        IdleRound(s, cfg, cursor, env.work);
      }
      StaysQuiet(t, cfg, rest);
    } else {
      IdleRound(s, cfg, cursor, env.work);
      assert Stalls(LoadOf(s, cursor), cfg.batch);
    }
  }

  lemma RoundProgress(s: Store, cfg: Config, cursor: StreamId, env: Env)
    requires cfg.Valid() && Quiet(s, cfg) && Brisk(env.work, cfg) && s.stream != map[]
    requires Drainable(LoadOf(s, cursor), cfg.batch)
    ensures var (t, next, _) := Once(s, cfg, cursor, env.work);
      && Drainable(LoadOf(t, next), cfg.batch)
      && (Stalls(LoadOf(t, next), cfg.batch) ==> Stalls(LoadOf(s, cursor), cfg.batch))
      && |t.stream| + Detours(LoadOf(t, next), cfg.batch) < |s.stream| + Detours(LoadOf(s, cursor), cfg.batch)
  {
    RoundLightens(s, cfg, cursor, env.work);
    LighterDrains(LoadOf(s, cursor), cfg.batch);
    LighterDetours(LoadOf(s, cursor), cfg.batch);
    OneRound(s, cfg, cursor, env.work);
    EmptyLoad(s, cursor);
  }

  lemma PausingLoad(s: Store, cursor: StreamId, ms: nat)
    ensures LoadOf(Pausing(s, ms), cursor) == LoadOf(s, cursor)
  {
    PausingKeeps(s, cursor, ms);
  }

  /** After one call the pause that must be long is one nearer. */
  lemma RestCarries(l: Load, envs: seq<Env>, cfg: Config)
    requires cfg.Valid() && envs != [] && (Stalls(l, cfg.batch) ==> RestsAfterStall(l, envs, cfg))
    ensures Stalls(l, cfg.batch) && l.ahead < cfg.batch && envs[1..] != [] ==> Rests(envs[1..][0], cfg)
    ensures cfg.batch < l.ahead && Stalls(l, cfg.batch) ==> RestsAfterStall(Lighter(l, cfg.batch), envs[1..], cfg)
    ensures l.ahead == cfg.batch ==> !Stalls(l, cfg.batch)
  {
    assert WholeBatches(0, cfg.batch) && (l.ahead == cfg.batch ==> WholeBatches(l.ahead, cfg.batch));
    if cfg.batch < l.ahead {
      var i := CallsBefore(l.ahead, cfg.batch) + 1;
      assert CallsBefore(l.ahead - cfg.batch, cfg.batch) + 1 == i - 1;
      if i < |envs| {
        assert envs[1..][i - 1] == envs[i];
      }
    }
  }

  lemma {:induction false} DrainableDrains(s: Store, cfg: Config, cursor: StreamId, envs: seq<Env>)
    requires cfg.Valid() && QuietThen(s, cfg, envs) && AllBrisk(envs, cfg)
    requires Drainable(LoadOf(s, cursor), cfg.batch)
    requires Stalls(LoadOf(s, cursor), cfg.batch) ==> RestsAfterStall(LoadOf(s, cursor), envs, cfg)
    requires |s.stream| + Detours(LoadOf(s, cursor), cfg.batch) <= |envs|
    ensures After(s, cfg, cursor, envs).0.stream == map[]
    decreases envs
  {
    if s.stream == map[] {
      EmptyStaysEmpty(s, cfg, cursor, envs);
    } else {
      var s1 := Pausing(s, envs[0].pause);
      PausingLoad(s, cursor, envs[0].pause);
      assert Brisk(envs[0].work, cfg);
      RoundProgress(s1, cfg, cursor, envs[0]);
      RestCarries(LoadOf(s, cursor), envs, cfg);
      RoundLightens(s1, cfg, cursor, envs[0].work);
      RoundStaysQuiet(s1, cfg, cursor, envs[0], envs[1..]);
      var (t, next, _) := Once(s1, cfg, cursor, envs[0].work);
      DrainableDrains(t, cfg, next, envs[1..]);
    }
  }

  // ----- a store that cannot

  lemma PendingLeft(s: Store, t: Store, taken: seq<StreamId>)
    requires Ascending(taken) && (forall id :: id in taken ==> id in s.pending)
      && t.pending == s.pending - Elements(taken)
    ensures |t.pending| == |s.pending| - |taken|
  {
    AscendingCount(taken);
    assert t.pending.Keys == s.pending.Keys - Elements(taken);
    CountMinus(s.pending.Keys, Elements(taken));
  }

  lemma UnreadShrinks(s: Store, t: Store, taken: set<StreamId>)
    requires t.stream == s.stream - taken && s.delivered <= t.delivered
    ensures Unread(t) <= Unread(s)
  {
  }

  lemma RemainderLeft(s: Store, t: Store, taken: seq<StreamId>, batch: nat)
    requires 0 < batch && Ascending(taken) && (taken == [] || |taken| == batch)
    requires forall id :: id in taken ==> id in s.pending
    requires t.pending == s.pending - Elements(taken)
    ensures WholeBatches(|t.pending|, batch) <==> WholeBatches(|s.pending|, batch)
  {
    PendingLeft(s, t, taken);
    LessABatch(|s.pending|, |taken|, batch);
  }

  lemma LessABatch(n: nat, taken: nat, batch: nat)
    requires 0 < batch && taken <= n && (taken == 0 || taken == batch)
    ensures WholeBatches(n - taken, batch) <==> WholeBatches(n, batch)
  {
  }

  /** With nothing undelivered, a call processes a whole batch or nothing at all, whatever is idle. */
  lemma RemainderStays(s: Store, cfg: Config, cursor: StreamId, work: StreamId -> Work)
    requires cfg.Valid() && Calm(s) && Brisk(work, cfg) && Unread(s) == {}
    ensures var t := Once(s, cfg, cursor, work).0;
      Calm(t) && Unread(t) == {} && (WholeBatches(|t.pending|, cfg.batch) <==> WholeBatches(|s.pending|, cfg.batch))
  {
    var t := Once(s, cfg, cursor, work).0;
    var k := Take(s, cfg, cursor);
    assert Calm(t) by { CalmRound(s, cfg, cursor, work); }
    TakeCounts(s, cfg, cursor);
    if k.returned {
      assert Progress(s, t, Elements(k.reclaimed + k.news)) && t.delivered == s.delivered by {
        ReturnedRound(s, cfg, cursor, work);
      }
      assert k.reclaimed + k.news == k.reclaimed;
      UnreadShrinks(s, t, Elements(k.reclaimed));
      RemainderLeft(s, t, k.reclaimed, cfg.batch);
    } else {
      StalledRound(s, cfg, cursor, work);
      assert |t.pending.Keys| == |s.pending.Keys|;
    }
  }

  lemma {:induction false} RemainderForever(s: Store, cfg: Config, cursor: StreamId, envs: seq<Env>)
    requires cfg.Valid() && Calm(s) && AllBrisk(envs, cfg) && Unread(s) == {} && !WholeBatches(|s.pending|, cfg.batch)
    ensures After(s, cfg, cursor, envs).0.stream != map[]
    decreases envs
  {
    if envs == [] {
      assert s.pending != map[];
    } else {
      var s1 := Pausing(s, envs[0].pause);
      PausingKeeps(s, cursor, envs[0].pause);
      assert Brisk(envs[0].work, cfg);
      RemainderStays(s1, cfg, cursor, envs[0].work);
      var (t, next, _) := Once(s1, cfg, cursor, envs[0].work);
      RemainderForever(t, cfg, next, envs[1..]);
    }
  }

  lemma {:induction false} UndrainableNeverDrains(s: Store, cfg: Config, cursor: StreamId, envs: seq<Env>)
    requires cfg.Valid() && Quiet(s, cfg) && AllBrisk(envs, cfg) && !Drainable(LoadOf(s, cursor), cfg.batch)
    ensures After(s, cfg, cursor, envs).0.stream != map[]
    decreases envs
  {
    AheadAndBehind(s, cursor);
    if Unread(s) == {} {
      RemainderForever(s, cfg, cursor, envs);
    } else if envs != [] {
      var s1 := Pausing(s, envs[0].pause);
      PausingLoad(s, cursor, envs[0].pause);
      QuietWaits(s, cfg, envs[0].pause);
      assert Brisk(envs[0].work, cfg);
      RoundLightens(s1, cfg, cursor, envs[0].work);
      LighterDrains(LoadOf(s1, cursor), cfg.batch);
      OneRound(s1, cfg, cursor, envs[0].work);
      PausingKeeps(s, cursor, envs[0].pause);
      var (t, next, _) := Once(s1, cfg, cursor, envs[0].work);
      UndrainableNeverDrains(t, cfg, next, envs[1..]);
    }
  }

  // ----- the whole loop

  /** From a quiet store, wherever the reclaim cursor stands, as many calls as there are entries, or one more, empty the
      stream exactly when it is drainable.  After a stall the worker must let its own claims become overdue; so in the
      case that stalls that one pause is as long as the threshold.  If the store is not drainable no number of calls and
      no pauses ever empty the stream. */
  lemma DrainsExactlyWhen(s: Store, cfg: Config, cursor: StreamId, envs: seq<Env>)
    requires cfg.Valid() && Quiet(s, cfg) && AllBrisk(envs, cfg)
    requires Stalls(LoadOf(s, cursor), cfg.batch) && Drainable(LoadOf(s, cursor), cfg.batch) ==>
      RestsAfterStall(LoadOf(s, cursor), envs, cfg)
    ensures |s.stream| + Detours(LoadOf(s, cursor), cfg.batch) <= |envs| ==>
      (After(s, cfg, cursor, envs).0.stream == map[] <==> Drainable(LoadOf(s, cursor), cfg.batch))
    ensures !Drainable(LoadOf(s, cursor), cfg.batch) ==> After(s, cfg, cursor, envs).0.stream != map[]
  {
    if !Drainable(LoadOf(s, cursor), cfg.batch) {
      UndrainableNeverDrains(s, cfg, cursor, envs);
    } else if |s.stream| + Detours(LoadOf(s, cursor), cfg.batch) <= |envs| {
      StaysQuiet(s, cfg, envs);
      DrainableDrains(s, cfg, cursor, envs);
    }
  }

  // ----- whatever the pauses were at first

  ghost predicate PausesPast(envs: seq<Env>, cfg: Config) {
    forall i :: 0 <= i < |envs| ==> cfg.reclaimIdle <= envs[i].pause
  }

  /** The stream can still be emptied. */
  ghost predicate Hopeful(s: Store, cfg: Config, cursor: StreamId)
    requires cfg.Valid()
  {
    && Calm(s)
    && ((Quiet(s, cfg) && Drainable(LoadOf(s, cursor), cfg.batch))
        || (Unread(s) == {} && WholeBatches(|s.pending|, cfg.batch)))
  }

  lemma PauseKeepsHope(s: Store, cfg: Config, cursor: StreamId, ms: nat)
    requires cfg.Valid() && Hopeful(s, cfg, cursor)
    ensures Hopeful(Pausing(s, ms), cfg, cursor)
  {
    PausingLoad(s, cursor, ms);
    PausingKeeps(s, cursor, ms);
    if Quiet(s, cfg) {
      QuietWaits(s, cfg, ms);
    }
  }

  lemma CallKeepsHope(s: Store, cfg: Config, cursor: StreamId, work: StreamId -> Work)
    requires cfg.Valid() && Brisk(work, cfg) && Hopeful(s, cfg, cursor)
    ensures var (t, next, _) := Once(s, cfg, cursor, work);
      Hopeful(t, cfg, next) && |t.stream| <= |s.stream|
  {
    var (t, next, _) := Once(s, cfg, cursor, work);
    CalmRound(s, cfg, cursor, work);
    NoLarger(s, t);
    if Unread(s) == {} && WholeBatches(|s.pending|, cfg.batch) {
      RemainderStays(s, cfg, cursor, work);
    } else {
      OneRound(s, cfg, cursor, work);
      RoundLightens(s, cfg, cursor, work);
      LighterDrains(LoadOf(s, cursor), cfg.batch);
      AheadAndBehind(s, cursor);
      EmptyCount(s);
    }
  }

  lemma EmptyCount(s: Store)
    ensures |Unread(s)| == 0 <==> Unread(s) == {}
  {
  }

  lemma NoLarger(s: Store, t: Store)
    requires forall id :: id in t.stream ==> id in s.stream
    ensures |t.stream| <= |s.stream|
  {
    assert t.stream.Keys <= s.stream.Keys;
    CountMinus(s.stream.Keys, t.stream.Keys);
    assert |t.stream| == |t.stream.Keys| && |s.stream| == |s.stream.Keys|;
  }

  lemma {:induction false} CallsKeepHope(s: Store, cfg: Config, cursor: StreamId, envs: seq<Env>)
    requires cfg.Valid() && AllBrisk(envs, cfg) && Hopeful(s, cfg, cursor)
    ensures var (t, next) := After(s, cfg, cursor, envs);
      Hopeful(t, cfg, next) && |t.stream| <= |s.stream|
    decreases envs
  {
    if envs != [] {
      var s1 := Pausing(s, envs[0].pause);
      PauseKeepsHope(s, cfg, cursor, envs[0].pause);
      assert Brisk(envs[0].work, cfg);
      CallKeepsHope(s1, cfg, cursor, envs[0].work);
      var (t, next, _) := Once(s1, cfg, cursor, envs[0].work);
      CallsKeepHope(t, cfg, next, envs[1..]);
    }
  }

  lemma {:induction false} AfterAppends(s: Store, cfg: Config, cursor: StreamId, envs: seq<Env>, more: seq<Env>)
    requires cfg.Valid() && WellFormed(s)
    ensures var (t, next) := After(s, cfg, cursor, envs);
      After(s, cfg, cursor, envs + more) == After(t, cfg, next, more)
    decreases envs
  {
    if envs == [] {
      assert envs + more == more;
    } else {
      assert (envs + more)[1..] == envs[1..] + more;
      var (t, next, _) := Once(Pausing(s, envs[0].pause), cfg, cursor, envs[0].work);
      AfterAppends(t, cfg, next, envs[1..], more);
    }
  }

  /** After a pause past the threshold everything in a calm store is overdue. */
  lemma HopefulIsDrained(s: Store, cfg: Config, cursor: StreamId, envs: seq<Env>)
    requires cfg.Valid() && AllBrisk(envs, cfg) && PausesPast(envs, cfg) && Hopeful(s, cfg, cursor)
    requires |s.stream| < |envs|
    ensures After(s, cfg, cursor, envs).0.stream == map[]
  {
    AheadAndBehind(s, cursor);
    PausingKeeps(s, cursor, envs[0].pause);
    assert Quiet(Pausing(s, envs[0].pause), cfg);
    assert Drainable(LoadOf(s, cursor), cfg.batch);
    DrainableDrains(s, cfg, cursor, envs);
  }

  /** Nothing is asked of the pauses at first.  From a quiet store with any cursor, after any number of calls at any
      times, one more patient call than there are entries empties the stream exactly when the load at the start was
      drainable. */
  lemma DrainsInTheEndExactlyWhen(s: Store, cfg: Config, cursor: StreamId, envs: seq<Env>, patient: seq<Env>)
    requires cfg.Valid() && Quiet(s, cfg) && AllBrisk(envs, cfg) && AllBrisk(patient, cfg)
    requires PausesPast(patient, cfg) && |s.stream| < |patient|
    ensures After(s, cfg, cursor, envs + patient).0.stream == map[] <==> Drainable(LoadOf(s, cursor), cfg.batch)
  {
    if Drainable(LoadOf(s, cursor), cfg.batch) {
      CallsKeepHope(s, cfg, cursor, envs);
      AfterAppends(s, cfg, cursor, envs, patient);
      var (t, next) := After(s, cfg, cursor, envs);
      HopefulIsDrained(t, cfg, next, patient);
    } else {
      UndrainableNeverDrains(s, cfg, cursor, envs + patient);
    }
  }

  /** For a worker that has just started, its cursor at the beginning, the condition is simple: the pending entries make
      up whole batches, or something is undelivered.  Then as many calls as there are entries do, whatever the
      pauses. */
  lemma FreshWorkerDrainsExactlyWhen(s: Store, cfg: Config, envs: seq<Env>)
    requires cfg.Valid() && Quiet(s, cfg) && AllBrisk(envs, cfg) && |s.stream| <= |envs|
    ensures After(s, cfg, 0, envs).0.stream == map[] <==> WholeBatches(|s.pending|, cfg.batch) || Unread(s) != {}
  {
    AheadAndBehind(s, 0);
    DrainsExactlyWhen(s, cfg, 0, envs);
  }

  /** A cursor that has passed an entry can cost it: here 1 and 2 are pending, 3 is undelivered, and the worker stands
      at 2.  It processes 2 and 3 as one batch, and then nothing is left to make up a batch with 1, for ever. */
  lemma PassedEntryIsLeft(s: Store, cfg: Config, envs: seq<Env>)
    requires cfg.Valid() && cfg.batch == 2 && Quiet(s, cfg) && AllBrisk(envs, cfg)
    requires s.stream.Keys == {1, 2, 3} && s.pending.Keys == {1, 2} && s.delivered == 2
    ensures After(s, cfg, 2, envs).0.stream != map[]
    ensures 3 <= |envs| ==> After(s, cfg, 0, envs).0.stream == map[]
  {
    assert Ahead(s, 2) == {2} && Behind(s, 2) == {1} && Unread(s) == {3};
    UndrainableNeverDrains(s, cfg, 2, envs);
    if 3 <= |envs| {
      assert |s.stream| == |s.stream.Keys|;
      FreshWorkerDrainsExactlyWhen(s, cfg, envs);
    }
  }

  /** The pending entries a reclaim may take. */
  function Claimables(s: Store, cfg: Config): set<StreamId> {
    set id | id in s.pending && Claimable(s, id, cfg.reclaimIdle)
  }

  /** With nothing undelivered and less than a batch overdue, a call processes nothing. */
  lemma TooFewOverdue(s: Store, cfg: Config, cursor: StreamId, work: StreamId -> Work)
    requires cfg.Valid() && Calm(s) && Unread(s) == {} && |Claimables(s, cfg)| < cfg.batch
    ensures var (t, next, _) := Once(s, cfg, cursor, work);
      var k := Take(s, cfg, cursor);
      && t == s.(pending := s.pending + Handed(k.reclaimed, cfg.name, s.clock), clock := t.clock) && next == k.cursor
  {
    var k := Take(s, cfg, cursor);
    TakeIs(s, cfg, cursor);
    AutoClaimIsExact(s, cfg.name, cfg.reclaimIdle, cursor, cfg.batch);
    TakeCounts(s, cfg, cursor);
    AscendingCount(k.reclaimed);
    assert Elements(k.reclaimed) <= Claimables(s, cfg);
    CountMinus(Claimables(s, cfg), Elements(k.reclaimed));
    IdleStore(s, cfg, cursor, work);
  }

  lemma TwoIsTaken(s: Store, cfg: Config)
    requires cfg.Valid() && cfg.batch == 2 && Quiet(s, cfg) && Ahead(s, 2) == {2}
    ensures 2 in Take(s, cfg, 2).reclaimed
  {
    var p := PendingFrom(s, 2);
    ListsAhead(s, 2);
    QuietReclaim(s, cfg, 2);
    assert p[..|p|] == p && 2 in Elements(p);
  }

  lemma FirstImpatientCall(s: Store, cfg: Config, work: StreamId -> Work, pause: nat)
    requires cfg.Valid() && cfg.batch == 2 && Quiet(s, cfg) && s.stream.Keys == s.pending.Keys == {1, 2}
    requires pause + cfg.socketTimeout < cfg.reclaimIdle
    ensures Drainable(LoadOf(s, 2), cfg.batch) && Stalls(LoadOf(s, 2), cfg.batch)
    ensures var t := Once(s, cfg, 2, work).0;
      && Calm(t) && t.stream == s.stream && Unread(t) == {}
      && |Claimables(Pausing(t, pause), cfg)| < cfg.batch
  {
    assert Ahead(s, 2) == {2} && Behind(s, 2) == {1} && Unread(s) == {};
    var t := Once(s, cfg, 2, work).0;
    IdleRound(s, cfg, 2, work);
    var k := Take(s, cfg, 2);
    TwoIsTaken(s, cfg);
    TakeCounts(s, cfg, 2);
    assert t == s.(pending := s.pending + Handed(k.reclaimed, cfg.name, s.clock),
      clock := s.clock + cfg.socketTimeout) by {
      TakeCounts(s, cfg, 2);
      QuietReclaim(s, cfg, 2);
      ListsAhead(s, 2);
      IdleStore(s, cfg, 2, work);
    }
    OnlyOneIsOverdue(s, t, cfg, k.reclaimed, pause);
  }

  lemma OnlyOneIsOverdue(s: Store, t: Store, cfg: Config, ids: seq<StreamId>, pause: nat)
    requires s.pending.Keys == {1, 2} && 2 in ids && pause + cfg.socketTimeout < cfg.reclaimIdle && cfg.batch == 2
    requires t == s.(pending := s.pending + Handed(ids, cfg.name, s.clock), clock := s.clock + cfg.socketTimeout)
    requires forall id :: id in ids ==> id in s.pending
    ensures |Claimables(Pausing(t, pause), cfg)| < cfg.batch
  {
    assert t.pending[2].deliveredAt == s.clock;
    assert Claimables(Pausing(t, pause), cfg) <= {1};
    CountMinus({1}, Claimables(Pausing(t, pause), cfg));
  }

  lemma TwoCalls(s: Store, cfg: Config, cursor: StreamId, first: Env, second: Env)
    requires WellFormed(s) && cfg.Valid()
    ensures var (t, next, _) := Once(Pausing(s, first.pause), cfg, cursor, first.work);
      After(s, cfg, cursor, [first, second]).0 == Once(Pausing(t, second.pause), cfg, next, second.work).0
  {
    var (t, next, _) := Once(Pausing(s, first.pause), cfg, cursor, first.work);
    assert [first, second][1..] == [second] && [second][1..] == [];
    assert After(s, cfg, cursor, [first, second]) == After(t, cfg, next, [second]);
  }

  /** The pause after a stall matters, and its bound is sharp: here 1 and 2 are pending, nothing is undelivered, and the
      worker stands at 2.  Both make up a batch, but the worker claims 2 alone, and when it is called again before its
      claim is overdue it claims 1 alone. */
  lemma ImpatientWorkerStalls(s: Store, cfg: Config, first: Env, second: Env)
    requires cfg.Valid() && cfg.batch == 2 && Quiet(s, cfg) && s.stream.Keys == s.pending.Keys == {1, 2}
    requires !Rests(second, cfg)
    ensures Drainable(LoadOf(s, 2), cfg.batch) && Stalls(LoadOf(s, 2), cfg.batch)
    ensures After(s, cfg, 2, [first, second]).0.stream == s.stream
  {
    var s1 := Pausing(s, first.pause);
    QuietWaits(s, cfg, first.pause);
    PausingLoad(s, 2, first.pause);
    FirstImpatientCall(s1, cfg, first.work, second.pause);
    var (t, next, _) := Once(s1, cfg, 2, first.work);
    PausingKeeps(t, next, second.pause);
    TooFewOverdue(Pausing(t, second.pause), cfg, next, second.work);
    TwoCalls(s, cfg, 2, first, second);
  }

  /** Every entry that has left the stream by then has left its job with a terminal record, whatever was idle and
      wherever the cursor stood. */
  lemma {:induction false} DrainedJobsAreSettled(s: Store, cfg: Config, cursor: StreamId, envs: seq<Env>, id: StreamId)
    requires cfg.Valid() && Calm(s) && AllBrisk(envs, cfg) && id in s.stream
    ensures var t := After(s, cfg, cursor, envs).0;
      id !in t.stream ==> Settled(t, s.stream[id].job)
    decreases envs
  {
    if envs != [] {
      var s1 := Pausing(s, envs[0].pause);
      PausingKeeps(s, cursor, envs[0].pause);
      assert Brisk(envs[0].work, cfg);
      CalmRound(s1, cfg, cursor, envs[0].work);
      var (t, next, _) := Once(s1, cfg, cursor, envs[0].work);
      if id in t.stream {
        DrainedJobsAreSettled(t, cfg, next, envs[1..], id);
      } else {
        SettledStaysSettled(t, cfg, next, envs[1..], s.stream[id].job);
      }
    }
  }

  lemma {:induction false} SettledStaysSettled(s: Store, cfg: Config, cursor: StreamId, envs: seq<Env>, job: JobId)
    requires cfg.Valid() && Calm(s) && AllBrisk(envs, cfg) && Settled(s, job)
    ensures Settled(After(s, cfg, cursor, envs).0, job)
    decreases envs
  {
    if envs != [] {
      var s1 := Pausing(s, envs[0].pause);
      PausingKeeps(s, cursor, envs[0].pause);
      assert Brisk(envs[0].work, cfg);
      CalmRound(s1, cfg, cursor, envs[0].work);
      var (t, next, _) := Once(s1, cfg, cursor, envs[0].work);
      SettledStaysSettled(t, cfg, next, envs[1..], job);
    }
  }

  // ----- jammed and empty stores

  /** A call that finds nothing to process: it has moved nothing but owners, idle times and the clock. */
  lemma NothingTaken(s: Store, cfg: Config, cursor: StreamId, work: StreamId -> Work)
    requires WellFormed(s) && cfg.Valid() && |s.pending| < cfg.batch && Unread(s) == {}
    ensures var t := Once(s, cfg, cursor, work).0;
      t == s.(pending := t.pending, clock := t.clock) && t.pending.Keys == s.pending.Keys
  {
    var k := Take(s, cfg, cursor);
    TakeCounts(s, cfg, cursor);
    TakeStore(s, cfg, cursor);
    AscendingCount(k.reclaimed);
    assert Elements(k.reclaimed) <= s.pending.Keys;
    CountMinus(s.pending.Keys, Elements(k.reclaimed));
    assert k.returned ==> Taking(k) == [];
  }

  /** Nothing is left: the loop has nothing more to do, and does nothing to the stream. */
  lemma {:induction false} EmptyStaysEmpty(s: Store, cfg: Config, cursor: StreamId, envs: seq<Env>)
    requires WellFormed(s) && cfg.Valid() && s.stream == map[]
    ensures var t := After(s, cfg, cursor, envs).0;
      t.stream == map[] && t.jobs == s.jobs
    decreases envs
  {
    if envs != [] {
      var s1 := Pausing(s, envs[0].pause);
      assert s1.pending == map[];
      NothingTaken(s1, cfg, cursor, envs[0].work);
      var (t, next, _) := Once(s1, cfg, cursor, envs[0].work);
      EmptyStaysEmpty(t, cfg, next, envs[1..]);
    }
  }

  /** Fewer pending entries than a batch, and nothing new to read. */
  predicate Jammed(s: Store, batch: nat) {
    0 < |s.pending| < batch && Unread(s) == {}
  }

  /** A jammed store stays jammed with the very same entries, whatever time passes, however long inference takes and
      however often the worker calls: each call either finds nothing idle, or claims some entries and never gets to
      process them. */
  lemma {:induction false} JammedForever(s: Store, cfg: Config, cursor: StreamId, envs: seq<Env>)
    requires WellFormed(s) && cfg.Valid() && Jammed(s, cfg.batch)
    ensures var t := After(s, cfg, cursor, envs).0;
      Jammed(t, cfg.batch) && t.stream == s.stream && t.jobs == s.jobs && t.pending.Keys == s.pending.Keys
    decreases envs
  {
    if envs != [] {
      var s1 := Pausing(s, envs[0].pause);
      PausingKeeps(s, cursor, envs[0].pause);
      NothingTaken(s1, cfg, cursor, envs[0].work);
      var (t, next, _) := Once(s1, cfg, cursor, envs[0].work);
      assert |t.pending.Keys| == |s.pending.Keys|;
      assert Unread(t) == Unread(s);
      JammedForever(t, cfg, next, envs[1..]);
    }
  }
}
