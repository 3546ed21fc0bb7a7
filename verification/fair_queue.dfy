/** The per-station fair queue kept in Redis. Each station's queue is a
    sorted set of driver ids; a driver's stats live in a hash. Joining is one
    atomic Lua script (already-queued check, IDLE check, rank computation,
    insertion); dispatch pops the highest-ranked driver.

    A sorted set is kept here as the sequence `ZREVRANGE` returns: highest
    rank first, and, between equal ranks, the member that is larger in
    byte order first. */
module FairQueue {
  import opened Util
  import opened Types
  import Lex
  import Scheduler

  datatype Entry = Entry(driverId: string, rank: real)

  /** `a` is listed before `b` by `ZREVRANGE`. */
  predicate Before(a: Entry, b: Entry) {
    a.rank > b.rank || (a.rank == b.rank && Lex.Less(b.driverId, a.driverId))
  }

  /** A well-formed sorted set in `ZREVRANGE` order, each member once. */
  predicate Sorted(q: seq<Entry>) {
    forall i, j :: 0 <= i < j < |q| ==> Before(q[i], q[j]) && q[i].driverId != q[j].driverId
  }

  /** `ZSCORE`: the rank of a member, if present. */
  function ZScore(q: seq<Entry>, id: string): (r: Option<real>)
    ensures r.None? <==> forall i :: 0 <= i < |q| ==> q[i].driverId != id
    ensures r.Some? ==> exists i :: 0 <= i < |q| && q[i].driverId == id && q[i].rank == r.value
  {
    if |q| == 0 then None
    else if q[0].driverId == id then Some(q[0].rank)
    else ZScore(q[1..], id)
  }

  lemma BeforeIrreflexive(a: Entry)
    ensures !Before(a, a)
  {
    Lex.Irreflexive(a.driverId);
  }

  lemma BeforeTransitive(a: Entry, b: Entry, c: Entry)
    requires Before(a, b) && Before(b, c)
    ensures Before(a, c)
  {
    if a.rank == b.rank && b.rank == c.rank {
      Lex.Transitive(c.driverId, b.driverId, a.driverId);
    }
  }

  lemma BeforeTotal(a: Entry, b: Entry)
    requires a.driverId != b.driverId
    ensures Before(a, b) || Before(b, a)
  {
    if a.rank == b.rank {
      Lex.Total(a.driverId, b.driverId);
    }
  }

  /** `ZADD` of a member not yet in the set. */
  function Insert(e: Entry, q: seq<Entry>): (r: seq<Entry>)
    requires Sorted(q) && ZScore(q, e.driverId).None?
    ensures |r| == |q| + 1
    ensures forall i :: 0 <= i < |r| ==> r[i] == e || r[i] in q
    ensures Sorted(r)
    ensures forall id :: ZScore(r, id) == if id == e.driverId then Some(e.rank) else ZScore(q, id)
  {
    if |q| == 0 then [e]
    else
      BeforeTotal(e, q[0]);
      if Before(e, q[0]) then
        var r := [e] + q;
        PrependKeepsSorted(e, q);
        ZScoreCons(e, q);
        r
      else
        var t := Insert(e, q[1..]);
        var r := [q[0]] + t;
        HeadBeforeInserted(e, q, t);
        ZScoreCons(q[0], t);
        ZScoreCons(q[0], q[1..]);
        assert [q[0]] + q[1..] == q;
        r
  }

  lemma ZScoreCons(x: Entry, t: seq<Entry>)
    ensures forall id :: ZScore([x] + t, id) == if x.driverId == id then Some(x.rank) else ZScore(t, id)
  {
    assert ([x] + t)[1..] == t;
  }

  lemma PrependKeepsSorted(e: Entry, q: seq<Entry>)
    requires Sorted(q) && |q| > 0 && Before(e, q[0]) && ZScore(q, e.driverId).None?
    ensures Sorted([e] + q)
  {
    var r := [e] + q;
    assert r[1..] == q;
    forall j | 1 <= j < |r| ensures Before(e, r[j]) {
      if j > 1 {
        BeforeTransitive(e, q[0], q[j - 1]);
      }
    }
  }

  lemma HeadBeforeInserted(e: Entry, q: seq<Entry>, t: seq<Entry>)
    requires Sorted(q) && |q| > 0 && Before(q[0], e) && q[0].driverId != e.driverId
    requires Sorted(t) && forall i :: 0 <= i < |t| ==> t[i] == e || t[i] in q[1..]
    ensures Sorted([q[0]] + t)
  {
    var r := [q[0]] + t;
    assert r[1..] == t;
    forall j | 0 <= j < |t| ensures Before(q[0], t[j]) && q[0].driverId != t[j].driverId {
      if t[j] != e {
        var k :| 0 <= k < |q[1..]| && q[1..][k] == t[j];
        assert t[j] == q[k + 1];
      }
    }
  }

  /** `ZREM` of one member: the set without it, every other member keeping
      its rank and its place. */
  function RemoveMember(q: seq<Entry>, id: string): (r: seq<Entry>)
    requires Sorted(q)
    ensures forall i :: 0 <= i < |r| ==> r[i] in q
    ensures Sorted(r)
    ensures forall x :: ZScore(r, x) == if x == id then None else ZScore(q, x)
    ensures |r| == if ZScore(q, id).Some? then |q| - 1 else |q|
  {
    if |q| == 0 then []
    else
      ZScoreCons(q[0], q[1..]);
      assert [q[0]] + q[1..] == q;
      if q[0].driverId == id then
        assert forall i :: 1 <= i < |q| ==> q[i].driverId != id;
        q[1..]
      else
        var t := RemoveMember(q[1..], id);
        HeadBeforeRest(q, t);
        ZScoreCons(q[0], t);
        [q[0]] + t
  }

  lemma HeadBeforeRest(q: seq<Entry>, t: seq<Entry>)
    requires Sorted(q) && |q| > 0
    requires Sorted(t) && forall i :: 0 <= i < |t| ==> t[i] in q[1..]
    ensures Sorted([q[0]] + t)
  {
    var r := [q[0]] + t;
    assert r[1..] == t;
    forall j | 0 <= j < |t| ensures Before(q[0], t[j]) && q[0].driverId != t[j].driverId {
      var k :| 0 <= k < |q[1..]| && q[1..][k] == t[j];
      assert t[j] == q[k + 1];
    }
  }

  /** `ZREM` on a station's queue; other stations and the hashes are
      untouched. */
  function ZRem(s: Store, winId: string, driverId: string): (s': Store)
    requires ValidStore(s)
    ensures ValidStore(s')
    ensures s'.stats == s.stats
    ensures forall x :: ZScore(Queue(s', winId), x) == if x == driverId then None else ZScore(Queue(s, winId), x)
    ensures forall w :: w != winId ==> Queue(s', w) == Queue(s, w)
  {
    s.(queues := s.queues[winId := RemoveMember(Queue(s, winId), driverId)])
  }

  /** What `ZREM` of the head leaves: every other member keeps its rank. */
  lemma RemoveHead(q: seq<Entry>)
    requires Sorted(q) && |q| > 0
    ensures forall id :: ZScore(q[1..], id) == if id == q[0].driverId then None else ZScore(q, id)
  {
  }

  /** Missing fields of a driver's stats hash are `None`, which is also what
      `tonumber` yields for a field that is not a number. */
  datatype DriverStats = DriverStats(
    lastTripTime: Option<real>,
    tripsToday: Option<real>,
    rating: Option<real>,
    status: Option<string>,
    currentWin: Option<string>,
    joinedQueueAt: Option<real>)

  const NoStats := DriverStats(None, None, None, None, None, None)

  /** Station queues by station id, and stats hashes by driver id. A missing
      key reads as an empty set or an empty hash, as in Redis. */
  datatype Store = Store(queues: map<string, seq<Entry>>, stats: map<string, DriverStats>)

  function Queue(s: Store, winId: string): seq<Entry> {
    if winId in s.queues then s.queues[winId] else []
  }

  function Stats(s: Store, driverId: string): DriverStats {
    if driverId in s.stats then s.stats[driverId] else NoStats
  }

  predicate ValidStore(s: Store) {
    forall w :: w in s.queues ==> Sorted(s.queues[w])
  }

  datatype JoinReply = AlreadyQueued | NotAvailable | Ok

  /** The entry-time snapshot of recency, trip equity and rating, with the
      script's defaults 0, 0 and 5.0 for missing values. Times are seconds. */
  function FixedScore(st: DriverStats, now: real): real {
    (now - st.lastTripTime.GetOr(0.0)) * WeightRecency
    + (1.0 / MaxR(1.0, st.tripsToday.GetOr(0.0))) * WeightTrips
    + st.rating.GetOr(5.0) * WeightRating
  }

  /** The rank written into the sorted set: the fixed part minus half the
      entry time, so that adding half the read time gives the live score. */
  function StoredRank(st: DriverStats, now: real): (rank: real)
    ensures rank + now * WeightIdle == FixedScore(st, now)
  {
    FixedScore(st, now) - now * WeightIdle
  }

  /** The live score of a queued driver: its rank plus half the read time. */
  function LiveScore(rank: real, readTime: real): real {
    rank + readTime * WeightIdle
  }

  /** Read back at any later time, the stored rank gives the fixed part plus
      half the seconds spent in the queue. */
  lemma StoredRankReadsAsLiveScore(st: DriverStats, entryTime: real, readTime: real)
    ensures LiveScore(StoredRank(st, entryTime), readTime) ==
            FixedScore(st, entryTime) + (readTime - entryTime) * WeightIdle
  {
  }

  /** The Lua script of `joinQueue`, at `now` whole seconds. */
  function Join(s: Store, winId: string, driverId: string, now: int): (res: (JoinReply, Store))
    requires ValidStore(s)
    ensures ValidStore(res.1)
    ensures ZScore(Queue(s, winId), driverId).Some? ==> res == (AlreadyQueued, s)
    ensures ZScore(Queue(s, winId), driverId).None? && Stats(s, driverId).status != Some("IDLE") ==>
              res == (NotAvailable, s)
    ensures res.0 == Ok <==>
              ZScore(Queue(s, winId), driverId).None? && Stats(s, driverId).status == Some("IDLE")
  {
    var q := Queue(s, winId);
    if ZScore(q, driverId).Some? then (AlreadyQueued, s)
    else
      var st := Stats(s, driverId);
      if st.status != Some("IDLE") then (NotAvailable, s)
      else
        var entry := Entry(driverId, StoredRank(st, now as real));
        (Ok, Store(s.queues[winId := Insert(entry, q)],
                   s.stats[driverId := st.(currentWin := Some(winId), joinedQueueAt := Some(now as real))]))
  }

  /** A successful join adds exactly the driver, at the stored rank of its
      stats at `now`, and records the station and the entry time; every other
      member, station and hash is untouched. */
  lemma JoinOk(s: Store, winId: string, driverId: string, now: int)
    requires ValidStore(s)
    requires ZScore(Queue(s, winId), driverId).None? && Stats(s, driverId).status == Some("IDLE")
    ensures
      var s' := Join(s, winId, driverId, now).1;
      var st := Stats(s, driverId);
      && ZScore(Queue(s', winId), driverId) == Some(StoredRank(st, now as real))
      && |Queue(s', winId)| == |Queue(s, winId)| + 1
      && (forall id :: id != driverId ==> ZScore(Queue(s', winId), id) == ZScore(Queue(s, winId), id))
      && (forall w :: w != winId ==> Queue(s', w) == Queue(s, w))
      && Stats(s', driverId) == st.(currentWin := Some(winId), joinedQueueAt := Some(now as real))
      && (forall id :: id != driverId ==> Stats(s', id) == Stats(s, id))
  {
  }

  /** After a join the driver is in the station's queue exactly when it was
      already there or its stats hash read IDLE; the join never changes the
      driver's status field. */
  lemma JoinLeavesMember(s: Store, winId: string, driverId: string, now: int)
    requires ValidStore(s)
    ensures
      var s' := Join(s, winId, driverId, now).1;
      && (ZScore(Queue(s', winId), driverId).Some? <==>
          ZScore(Queue(s, winId), driverId).Some? || Stats(s, driverId).status == Some("IDLE"))
      && Stats(s', driverId).status == Stats(s, driverId).status
  {
    if ZScore(Queue(s, winId), driverId).None? && Stats(s, driverId).status == Some("IDLE") {
      JoinOk(s, winId, driverId, now);
    }
  }

  /** `popBestDriver` without the lost-race retry: `None` on an empty queue,
      otherwise the head, which is removed. */
  function PopBest(s: Store, winId: string): (res: (Option<string>, Store))
    ensures res.0.None? <==> |Queue(s, winId)| == 0
    ensures res.0.None? ==> res.1 == s
    ensures res.1.stats == s.stats
    ensures forall w :: w != winId ==> Queue(res.1, w) == Queue(s, w)
  {
    var q := Queue(s, winId);
    if |q| == 0 then (None, s)
    else (Some(q[0].driverId), s.(queues := s.queues[winId := q[1..]]))
  }

  /** The popped driver has the highest rank in the queue, and exactly its
      entry is removed. */
  lemma PopBestCorrect(s: Store, winId: string)
    requires ValidStore(s) && |Queue(s, winId)| > 0
    ensures
      var (best, s') := PopBest(s, winId);
      var q := Queue(s, winId);
      && best.Some?
      && ZScore(q, best.value).Some?
      && (forall i :: 0 <= i < |q| ==> q[i].rank <= ZScore(q, best.value).value)
      && (forall id :: ZScore(Queue(s', winId), id) == if id == best.value then None else ZScore(q, id))
      && ValidStore(s')
  {
    var q := Queue(s, winId);
    RemoveHead(q);
    assert ZScore(q, q[0].driverId) == Some(q[0].rank);
  }

  /** The replies of `n` consecutive pops from one station, and the store
      after them. */
  function PopMany(s: Store, winId: string, n: nat): (res: (seq<Option<string>>, Store))
    ensures |res.0| == n
    decreases n
  {
    if n == 0 then ([], s)
    else
      var (first, s1) := PopBest(s, winId);
      var (rest, s2) := PopMany(s1, winId, n - 1);
      ([first] + rest, s2)
  }

  lemma {:induction false} PopManyTakesPrefix(s: Store, winId: string, n: nat)
    requires n <= |Queue(s, winId)|
    ensures
      var (got, s') := PopMany(s, winId, n);
      && (forall i :: 0 <= i < n ==> got[i] == Some(Queue(s, winId)[i].driverId))
      && Queue(s', winId) == Queue(s, winId)[n..]
    decreases n
  {
    if n > 0 {
      var q := Queue(s, winId);
      var s1 := PopBest(s, winId).1;
      assert Queue(s1, winId) == q[1..];
      PopManyTakesPrefix(s1, winId, n - 1);
      var rest := PopMany(s1, winId, n - 1).0;
      forall i | 1 <= i < n ensures rest[i - 1] == Some(q[i].driverId) {
        assert q[1..][i - 1] == q[i];
      }
    }
  }

  /** Popping a queue of N drivers N times hands out N different drivers,
      each of them queued, and the next pop finds the queue empty. */
  lemma DrainQueue(s: Store, winId: string)
    requires ValidStore(s)
    ensures
      var q := Queue(s, winId);
      var (got, s') := PopMany(s, winId, |q|);
      && (forall i :: 0 <= i < |got| ==> got[i].Some? && ZScore(q, got[i].value).Some?)
      && (forall i, j :: 0 <= i < j < |got| ==> got[i] != got[j])
      && PopBest(s', winId).0 == None
  {
    var q := Queue(s, winId);
    PopManyTakesPrefix(s, winId, |q|);
    var got := PopMany(s, winId, |q|).0;
    forall i | 0 <= i < |got| ensures got[i].Some? && ZScore(q, got[i].value).Some? {
      assert got[i] == Some(q[i].driverId);
    }
  }

  /** `handleTimeout` re-runs the join script; its reply is discarded. */
  function HandleTimeout(s: Store, winId: string, driverId: string, now: int): (s': Store)
    requires ValidStore(s)
    ensures ValidStore(s')
  {
    Join(s, winId, driverId, now).1
  }

  /** A driver who is still queued keeps its old rank: the script stops at
      the already-queued check, so the intended penalty never happens. */
  lemma TimeoutWhileQueuedIsNoOp(s: Store, winId: string, driverId: string, now: int)
    requires ValidStore(s) && ZScore(Queue(s, winId), driverId).Some?
    ensures HandleTimeout(s, winId, driverId, now) == s
  {
  }

  /** A driver popped and re-joined later with unchanged stats comes back
      with a lower rank, by 0.2 per elapsed second. */
  lemma RejoinRanksLower(s: Store, winId: string, driverId: string, t1: int, t2: int)
    requires ValidStore(s) && t1 < t2
    requires ZScore(Queue(s, winId), driverId).None? && Stats(s, driverId).status == Some("IDLE")
    ensures
      var s1 := Join(s, winId, driverId, t1).1;
      var (popped, s2) := PopBest(s1, winId);
      popped == Some(driverId) ==>
        var s3 := Join(s2, winId, driverId, t2).1;
        var r1 := ZScore(Queue(s1, winId), driverId);
        var r3 := ZScore(Queue(s3, winId), driverId);
        && r1.Some? && r3.Some?
        && r3.value == r1.value - 0.2 * (t2 - t1) as real
        && r3.value < r1.value
  {
    JoinOk(s, winId, driverId, t1);
    var s1 := Join(s, winId, driverId, t1).1;
    var (popped, s2) := PopBest(s1, winId);
    if popped == Some(driverId) {
      PopBestCorrect(s1, winId);
      JoinOk(s2, winId, driverId, t2);
      var st := Stats(s, driverId);
      assert Stats(s2, driverId) == st.(currentWin := Some(winId), joinedQueueAt := Some(t1 as real));
    }
  }

  /** Ordering the sorted set by stored rank is ordering by live score, at
      every read time: the fixed part is the snapshot of the driver's stats
      the script took at entry, and the live score adds half the seconds
      queued since then. */
  lemma StoredOrderIsLiveOrder(st1: DriverStats, e1: real, st2: DriverStats, e2: real, readTime: real)
    ensures StoredRank(st1, e1) <= StoredRank(st2, e2) <==>
            FixedScore(st1, e1) + (readTime - e1) * WeightIdle <= FixedScore(st2, e2) + (readTime - e2) * WeightIdle
    ensures StoredRank(st1, e1) < StoredRank(st2, e2) <==>
            FixedScore(st1, e1) + (readTime - e1) * WeightIdle < FixedScore(st2, e2) + (readTime - e2) * WeightIdle
  {
  }

  /** The scheduler and the station queue can rank the same two drivers in
      opposite orders, because only the scheduler scales the trip term by
      100 and the rating term by 10. Driver A has 1 trip; driver B has 10
      trips and finished its last trip 10 seconds before A did. */
  lemma ScalingDivergence()
    ensures
      var loc := Location(0.0, 0.0);
      var a := Driver("A", loc, Idle, 0.0, 1, None, Some("W"), 5.0, 100000.0, 0.0);
      var b := Driver("B", loc, Idle, 0.0, 10, None, Some("W"), 5.0, 90000.0, 0.0);
      var sa := DriverStats(Some(100.0), Some(1.0), Some(5.0), Some("IDLE"), None, None);
      var sb := DriverStats(Some(90.0), Some(10.0), Some(5.0), Some("IDLE"), None, None);
      && Scheduler.FairnessScore(a, 200000.0) > Scheduler.FairnessScore(b, 200000.0)
      && StoredRank(sa, 200.0) < StoredRank(sb, 200.0)
  {
  }
}
