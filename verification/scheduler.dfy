/** The fairness scorer and the batch dispatch matcher of the simulation.
    One cycle serves the waiting riders longest-wait first; each rider takes
    the best-scoring idle driver among those at its chosen station (or, with
    no station chosen, within 3 km), and every match is logged. */
module Scheduler {
  import opened Util
  import opened Types
  import Ordering

  /** Matching radius for riders without a target station, in km. */
  const WinRadiusKm: real := 3.0

  // ---------------------------------------------------------------------
  // Fairness score (times in milliseconds, terms in seconds)
  // ---------------------------------------------------------------------

  function IdleSeconds(d: Driver, now: real): real {
    MaxR(0.0, (now - d.joinedQueueTime) / 1000.0)
  }

  function RecencySeconds(d: Driver, now: real): real {
    MaxR(0.0, (now - d.lastTripTime) / 1000.0)
  }

  /** `1 / max(1, trips)`: favours drivers with fewer trips. */
  function TripsFactor(trips: int): real {
    1.0 / (if trips > 1 then trips else 1) as real
  }

  /** The weighted priority of a driver at time `now`. The trip and rating
      terms carry extra factors 100 and 10 here (the station queue's stored
      rank does not; see `FairQueue.ScalingDivergence`). */
  function FairnessScore(d: Driver, now: real): real {
    IdleSeconds(d, now) * WeightIdle
    + RecencySeconds(d, now) * WeightRecency
    + TripsFactor(d.totalTrips) * WeightTrips * 100.0
    + d.rating * WeightRating * 10.0
  }

  lemma ScoreNondecreasingInTime(d: Driver, t1: real, t2: real)
    requires t1 <= t2
    ensures FairnessScore(d, t1) <= FairnessScore(d, t2)
  {
  }

  /** Once the driver has joined the queue, the score strictly grows with time. */
  lemma ScoreIncreasingWhileQueued(d: Driver, t1: real, t2: real)
    requires d.joinedQueueTime <= t1 < t2
    ensures FairnessScore(d, t1) < FairnessScore(d, t2)
  {
  }

  /** An earlier queue-join time never lowers the score. */
  lemma ScoreNonincreasingInJoinTime(d: Driver, joined: real, now: real)
    requires joined <= d.joinedQueueTime
    ensures FairnessScore(d.(joinedQueueTime := joined), now) >= FairnessScore(d, now)
  {
  }

  /** An earlier last trip never lowers the score. */
  lemma ScoreNonincreasingInLastTrip(d: Driver, last: real, now: real)
    requires last <= d.lastTripTime
    ensures FairnessScore(d.(lastTripTime := last), now) >= FairnessScore(d, now)
  {
  }

  lemma {:induction false} TripsFactorAntitone(a: int, b: int)
    requires a <= b
    ensures 0.0 < TripsFactor(b) <= TripsFactor(a) <= 1.0
  {
    var x: real := (if a > 1 then a else 1) as real;
    var y: real := (if b > 1 then b else 1) as real;
    assert 1.0 <= x <= y;
    assert (1.0 / y) * y == 1.0;
    assert (1.0 / x) * x == 1.0;
  }

  /** More trips never raise the score. */
  lemma ScoreNonincreasingInTrips(d: Driver, trips: int, now: real)
    requires d.totalTrips <= trips
    ensures FairnessScore(d.(totalTrips := trips), now) <= FairnessScore(d, now)
  {
    TripsFactorAntitone(d.totalTrips, trips);
  }

  /** A higher rating never lowers the score. */
  lemma ScoreNondecreasingInRating(d: Driver, rating: real, now: real)
    requires d.rating <= rating
    ensures FairnessScore(d.(rating := rating), now) >= FairnessScore(d, now)
  {
  }

  /** Two drivers with equal recency: A idle 300 s, 10 trips, rating 4.0;
      B idle 60 s, 1 trip, rating 5.0. With the scheduler's scaling A scores
      153.5 and B 47.5 (plus the shared recency term). */
  lemma IdleDominatesExample(now: real, last: real)
    requires last <= now
    ensures
      var a := Driver("A", Location(0.0, 0.0), Idle, 0.0, 10, None, None, 4.0, last, now - 300000.0);
      var b := Driver("B", Location(0.0, 0.0), Idle, 0.0, 1, None, None, 5.0, last, now - 60000.0);
      var rec := RecencySeconds(a, now) * WeightRecency;
      FairnessScore(a, now) == 153.5 + rec && FairnessScore(b, now) == 47.5 + rec
      && FairnessScore(a, now) > FairnessScore(b, now)
  {
    var a := Driver("A", Location(0.0, 0.0), Idle, 0.0, 10, None, None, 4.0, last, now - 300000.0);
    assert TripsFactor(10) == 0.1;
    assert IdleSeconds(a, now) == 300.0;
  }

  // ---------------------------------------------------------------------
  // Candidate selection
  // ---------------------------------------------------------------------

  /** A driver may serve a rider: at the rider's chosen station when one is
      given, otherwise within the matching radius. */
  predicate Eligible(d: Driver, r: Rider, dist: Distance) {
    if Truthy(r.targetWinId) then d.winId == r.targetWinId
    else dist(d.location, r.location) <= WinRadiusKm
  }

  /** Available drivers not yet claimed this cycle that may serve `r`, in order. */
  function Candidates(avail: seq<Driver>, claimed: set<string>, r: Rider, dist: Distance): (c: seq<Driver>)
    ensures forall i :: 0 <= i < |c| ==> c[i] in avail && c[i].id !in claimed && Eligible(c[i], r, dist)
    ensures forall i :: 0 <= i < |avail| && avail[i].id !in claimed && Eligible(avail[i], r, dist) ==> avail[i] in c
    ensures |c| == 0 <==> forall i :: 0 <= i < |avail| ==> avail[i].id in claimed || !Eligible(avail[i], r, dist)
  {
    Filter(avail, (d: Driver) => d.id !in claimed && Eligible(d, r, dist))
  }

  function ScoreKey(now: real): Driver -> Ordering.Key {
    (d: Driver) => Ordering.Key(0, FairnessScore(d, now))
  }

  /** Head of the candidates sorted by descending score (a stable sort):
      a candidate of maximal score, the earliest one among equals. */
  function PickWinner(cands: seq<Driver>, now: real): (w: Driver)
    requires |cands| > 0
    ensures w in cands
    ensures forall i :: 0 <= i < |cands| ==> FairnessScore(cands[i], now) <= FairnessScore(w, now)
    ensures exists k :: 0 <= k < |cands| && cands[k] == w &&
              forall j :: 0 <= j < k ==> FairnessScore(cands[j], now) < FairnessScore(w, now)
  {
    Ordering.SortHeadIsFirstMax(cands, ScoreKey(now));
    FirstMaxByScore(cands, now);
    Ordering.SortDesc(cands, ScoreKey(now))[0]
  }

  /** `FirstMax` under the score key, read as scores. */
  lemma FirstMaxByScore(cands: seq<Driver>, now: real)
    requires |cands| > 0
    ensures var k := Ordering.FirstMax(cands, ScoreKey(now));
      && (forall j :: 0 <= j < |cands| ==> FairnessScore(cands[j], now) <= FairnessScore(cands[k], now))
      && (forall j :: 0 <= j < k ==> FairnessScore(cands[j], now) < FairnessScore(cands[k], now))
  {
    assert forall j :: 0 <= j < |cands| ==> ScoreKey(now)(cands[j]) == Ordering.Key(0, FairnessScore(cands[j], now));
  }

  // ---------------------------------------------------------------------
  // The dispatch cycle
  // ---------------------------------------------------------------------

  /** Working state of one cycle: the copies being updated, the logs so far,
      and the ids of the drivers and riders already matched. */
  datatype Cycle = Cycle(
    drivers: seq<Driver>,
    riders: seq<Rider>,
    logs: seq<MatchLog>,
    claimed: set<string>,
    served: set<string>)

  datatype MatchResult = MatchResult(
    updatedDrivers: seq<Driver>,
    updatedRiders: seq<Rider>,
    newLogs: seq<MatchLog>)

  function HasDriverId(id: string): Driver -> bool {
    (d: Driver) => d.id == id
  }

  function HasRiderId(id: string): Rider -> bool {
    (x: Rider) => x.id == id
  }

  /** The audit record of matching `w` to `r`, who beat `rivals` others. */
  function LogEntry(now: real, dist: Distance, r: Rider, w: Driver, rivals: int): MatchLog {
    MatchLog(now, r.id, w.id, dist(w.location, r.location), r.waitTime,
             FairnessScore(w, now), rivals, w.winId, (now - w.joinedQueueTime) / 1000.0)
  }

  /** Claims winner `w` for rider `r` and, when both are found in the
      cycle's lists, marks them MATCHED and appends the log entry. */
  function Assign(c: Cycle, now: real, dist: Distance, r: Rider, w: Driver, rivals: int): (c': Cycle)
    ensures |c'.drivers| == |c.drivers| && |c'.riders| == |c.riders|
    ensures |c'.logs| == |c.logs| || |c'.logs| == |c.logs| + 1
    ensures c'.logs[..|c.logs|] == c.logs
  {
    var claimed := c.claimed + {w.id};
    var served := c.served + {r.id};
    var di := FindFirst(c.drivers, HasDriverId(w.id));
    var ri := FindFirst(c.riders, HasRiderId(r.id));
    if di.Some? && ri.Some? then
      Cycle(c.drivers[di.value := c.drivers[di.value].(status := Matched, matchedRiderId := Some(r.id))],
            c.riders[ri.value := c.riders[ri.value].(status := Matched)],
            c.logs + [LogEntry(now, dist, r, w, rivals)], claimed, served)
    else
      Cycle(c.drivers, c.riders, c.logs, claimed, served)
  }

  /** One iteration of the cycle's loop, for rider `r`: skip a rider already
      served, skip when no driver qualifies, otherwise assign the winner. */
  function Serve(avail: seq<Driver>, now: real, dist: Distance, c: Cycle, r: Rider): (c': Cycle)
    ensures |c'.drivers| == |c.drivers| && |c'.riders| == |c.riders|
    ensures |c'.logs| == |c.logs| || |c'.logs| == |c.logs| + 1
    ensures c'.logs[..|c.logs|] == c.logs
  {
    if r.id in c.served then c
    else
      var cands := Candidates(avail, c.claimed, r, dist);
      if |cands| == 0 then c
      else Assign(c, now, dist, r, PickWinner(cands, now), |cands| - 1)
  }

  function ServeAll(avail: seq<Driver>, now: real, dist: Distance, c: Cycle, pending: seq<Rider>): (c': Cycle)
    ensures |c'.drivers| == |c.drivers| && |c'.riders| == |c.riders|
    decreases |pending|
  {
    if |pending| == 0 then c
    else ServeAll(avail, now, dist, Serve(avail, now, dist, c, pending[0]), pending[1..])
  }

  function WaitKey(r: Rider): Ordering.Key {
    Ordering.Key(0, r.waitTime)
  }

  /** The idle riders, longest wait first. */
  function PendingRiders(riders: seq<Rider>): (p: seq<Rider>)
    ensures forall i :: 0 <= i < |p| ==> p[i] in riders && p[i].status == Idle
    ensures forall i, j :: 0 <= i < j < |p| ==> p[j].waitTime <= p[i].waitTime
    ensures forall i :: 0 <= i < |riders| && riders[i].status == Idle ==> riders[i] in p
  {
    var idle := Filter(riders, (r: Rider) => r.status == Idle);
    var p := Ordering.SortDesc(idle, WaitKey);
    assert forall i :: 0 <= i < |p| ==> WaitKey(p[i]).major == 0;
    p
  }

  function AvailableDrivers(drivers: seq<Driver>): (a: seq<Driver>)
    ensures forall i :: 0 <= i < |a| ==> a[i] in drivers && a[i].status == Idle
    ensures forall i :: 0 <= i < |drivers| && drivers[i].status == Idle ==> drivers[i] in a
  {
    Filter(drivers, (d: Driver) => d.status == Idle)
  }

  function RunDispatchCycle(drivers: seq<Driver>, riders: seq<Rider>, now: real, dist: Distance): (res: MatchResult)
    ensures |res.updatedDrivers| == |drivers| && |res.updatedRiders| == |riders|
  {
    var c := ServeAll(AvailableDrivers(drivers), now, dist,
                      Cycle(drivers, riders, [], {}, {}), PendingRiders(riders));
    MatchResult(c.drivers, c.riders, c.logs)
  }

  // ---------------------------------------------------------------------
  // What a cycle does, stated over its logs
  // ---------------------------------------------------------------------

  predicate UniqueDriverIds(s: seq<Driver>) {
    forall i, j :: 0 <= i < j < |s| ==> s[i].id != s[j].id
  }

  predicate UniqueRiderIds(s: seq<Rider>) {
    forall i, j :: 0 <= i < j < |s| ==> s[i].id != s[j].id
  }

  function IsDriverLog(id: string): MatchLog -> bool {
    (l: MatchLog) => l.driverId == id
  }

  /** A driver entry as the logs say it ends up: untouched, or MATCHED and
      bound to the rider of its log entry. */
  function DriverAfter(d: Driver, logs: seq<MatchLog>): Driver {
    match FindFirst(logs, IsDriverLog(d.id))
    case None => d
    case Some(k) => d.(status := Matched, matchedRiderId := Some(logs[k].riderId))
  }

  predicate RiderServed(logs: seq<MatchLog>, id: string) {
    exists k :: 0 <= k < |logs| && logs[k].riderId == id
  }

  /** A rider entry as the logs say it ends up: untouched, or MATCHED. */
  function RiderAfter(r: Rider, logs: seq<MatchLog>): Rider {
    if RiderServed(logs, r.id) then r.(status := Matched) else r
  }

  function LoggedDrivers(logs: seq<MatchLog>): set<string> {
    set k | 0 <= k < |logs| :: logs[k].driverId
  }

  function LoggedRiders(logs: seq<MatchLog>): set<string> {
    set k | 0 <= k < |logs| :: logs[k].riderId
  }

  /** No driver and no rider appears in two log entries. */
  predicate OneMatchEach(logs: seq<MatchLog>) {
    forall i, j :: 0 <= i < j < |logs| ==>
      logs[i].driverId != logs[j].driverId && logs[i].riderId != logs[j].riderId
  }

  /** The logged pair is an idle driver and an idle rider of the input that
      the driver may serve. */
  predicate ValidMatch(drivers: seq<Driver>, riders: seq<Rider>, l: MatchLog, dist: Distance) {
    exists i, j :: 0 <= i < |drivers| && 0 <= j < |riders|
      && drivers[i].id == l.driverId && riders[j].id == l.riderId
      && drivers[i].status == Idle && riders[j].status == Idle
      && Eligible(drivers[i], riders[j], dist)
  }

  predicate CycleInv(d0: seq<Driver>, r0: seq<Rider>, dist: Distance, c: Cycle) {
    && |c.drivers| == |d0| && |c.riders| == |r0|
    && (forall i :: 0 <= i < |d0| ==> c.drivers[i] == DriverAfter(d0[i], c.logs))
    && (forall j :: 0 <= j < |r0| ==> c.riders[j] == RiderAfter(r0[j], c.logs))
    && c.claimed == LoggedDrivers(c.logs)
    && c.served == LoggedRiders(c.logs)
    && OneMatchEach(c.logs)
    && (forall k :: 0 <= k < |c.logs| ==> ValidMatch(d0, r0, c.logs[k], dist))
  }

  lemma LoggedAppend(logs: seq<MatchLog>, l: MatchLog)
    ensures LoggedDrivers(logs + [l]) == LoggedDrivers(logs) + {l.driverId}
    ensures LoggedRiders(logs + [l]) == LoggedRiders(logs) + {l.riderId}
  {
    var ext := logs + [l];
    assert ext[|logs|] == l;
    assert forall k :: 0 <= k < |logs| ==> ext[k] == logs[k];
  }

  lemma RiderServedAppend(logs: seq<MatchLog>, l: MatchLog, id: string)
    ensures RiderServed(logs + [l], id) <==> RiderServed(logs, id) || l.riderId == id
  {
    var ext := logs + [l];
    assert ext[|logs|] == l;
    if RiderServed(ext, id) && !(l.riderId == id) {
      var k :| 0 <= k < |ext| && ext[k].riderId == id;
      assert k < |logs| && logs[k].riderId == id;
    }
    if RiderServed(logs, id) {
      var k :| 0 <= k < |logs| && logs[k].riderId == id;
      assert ext[k].riderId == id;
    }
  }

  lemma DriverAfterAppend(d: Driver, logs: seq<MatchLog>, l: MatchLog)
    ensures l.driverId != d.id ==> DriverAfter(d, logs + [l]) == DriverAfter(d, logs)
    ensures l.driverId == d.id && d.id !in LoggedDrivers(logs) ==>
              DriverAfter(d, logs + [l]) == d.(status := Matched, matchedRiderId := Some(l.riderId))
  {
    FindFirstAppend(logs, l, IsDriverLog(d.id));
    var ext := logs + [l];
    assert ext[|logs|] == l;
    match FindFirst(logs, IsDriverLog(d.id))
    case Some(k) =>
      assert ext[k] == logs[k];
      assert logs[k].driverId in LoggedDrivers(logs);
    case None =>
  }

  /** When rider `r` is matched, the new cycle state binds the winner's
      entry and `r`'s entry, at their positions in the input, to each other. */
  lemma ServeMatchStep(d0: seq<Driver>, r0: seq<Rider>, avail: seq<Driver>,
                       now: real, dist: Distance, c: Cycle, r: Rider)
      returns (i0: nat, j0: nat, log: MatchLog)
    requires UniqueDriverIds(d0) && UniqueRiderIds(r0)
    requires forall i :: 0 <= i < |avail| ==> avail[i] in d0 && avail[i].status == Idle
    requires r in r0 && r.status == Idle
    requires CycleInv(d0, r0, dist, c)
    requires r.id !in c.served && |Candidates(avail, c.claimed, r, dist)| > 0
    ensures i0 < |d0| && j0 < |r0| && r0[j0] == r
    ensures d0[i0].id == log.driverId && r.id == log.riderId
    ensures d0[i0].status == Idle && Eligible(d0[i0], r, dist)
    ensures log.driverId !in c.claimed
    ensures IsMatchStep(d0, r0, c, Serve(avail, now, dist, c, r), i0, j0, log)
  {
    var cands := Candidates(avail, c.claimed, r, dist);
    var w := PickWinner(cands, now);
    WinnerFacts(avail, c.claimed, r, dist, now);
    assert Serve(avail, now, dist, c, r) == Assign(c, now, dist, r, w, |cands| - 1);
    i0 :| 0 <= i0 < |d0| && d0[i0] == w;
    j0 :| 0 <= j0 < |r0| && r0[j0] == r;
    LocateDriver(d0, c, i0);
    LocateRider(r0, c, j0);
    DriverAfterNone(w, c.logs);
    RiderNotServed(c.logs, r.id);
    assert c.drivers[i0] == d0[i0] && c.riders[j0] == r0[j0];
    log := LogEntry(now, dist, r, w, |cands| - 1);
    AssignMatched(c, now, dist, r, w, |cands| - 1, i0, j0);
  }

  /** The winner is an available, unclaimed driver that may serve `r`. */
  lemma WinnerFacts(avail: seq<Driver>, claimed: set<string>, r: Rider, dist: Distance, now: real)
    requires |Candidates(avail, claimed, r, dist)| > 0
    ensures var w := PickWinner(Candidates(avail, claimed, r, dist), now);
      w in avail && w.id !in claimed && Eligible(w, r, dist)
  {
    var cands := Candidates(avail, claimed, r, dist);
    var w := PickWinner(cands, now);
    var k :| 0 <= k < |cands| && cands[k] == w;
  }

  /** Assign's matching branch, once both entries have been located. */
  lemma AssignMatched(c: Cycle, now: real, dist: Distance, r: Rider, w: Driver, rivals: int, i0: nat, j0: nat)
    requires FindFirst(c.drivers, HasDriverId(w.id)) == Some(i0)
    requires FindFirst(c.riders, HasRiderId(r.id)) == Some(j0)
    ensures Assign(c, now, dist, r, w, rivals) ==
              Cycle(c.drivers[i0 := c.drivers[i0].(status := Matched, matchedRiderId := Some(r.id))],
                    c.riders[j0 := c.riders[j0].(status := Matched)],
                    c.logs + [LogEntry(now, dist, r, w, rivals)],
                    c.claimed + {w.id}, c.served + {r.id})
  {
  }

  /** Entries keep their ids through a cycle, so an input position is found
      again by id. */
  lemma LocateDriver(d0: seq<Driver>, c: Cycle, i0: nat)
    requires UniqueDriverIds(d0) && |c.drivers| == |d0| && i0 < |d0|
    requires forall i :: 0 <= i < |d0| ==> c.drivers[i] == DriverAfter(d0[i], c.logs)
    ensures FindFirst(c.drivers, HasDriverId(d0[i0].id)) == Some(i0)
  {
    var id := d0[i0].id;
    assert c.drivers[i0].id == id;
    assert HasDriverId(id)(c.drivers[i0]);
    var k := FindFirst(c.drivers, HasDriverId(id)).value;
    assert c.drivers[k].id == id;
    assert d0[k].id == id;
  }

  lemma LocateRider(r0: seq<Rider>, c: Cycle, j0: nat)
    requires UniqueRiderIds(r0) && |c.riders| == |r0| && j0 < |r0|
    requires forall j :: 0 <= j < |r0| ==> c.riders[j] == RiderAfter(r0[j], c.logs)
    ensures FindFirst(c.riders, HasRiderId(r0[j0].id)) == Some(j0)
  {
    var id := r0[j0].id;
    assert c.riders[j0].id == id;
    assert HasRiderId(id)(c.riders[j0]);
    var k := FindFirst(c.riders, HasRiderId(id)).value;
    assert c.riders[k].id == id;
    assert r0[k].id == id;
  }

  /** `c'` is `c` with input driver `i0` matched to input rider `j0`. */
  predicate IsMatchStep(d0: seq<Driver>, r0: seq<Rider>, c: Cycle, c': Cycle, i0: nat, j0: nat, log: MatchLog)
    requires i0 < |d0| && j0 < |r0| && |c.drivers| == |d0| && |c.riders| == |r0|
  {
    && c'.drivers == c.drivers[i0 := d0[i0].(status := Matched, matchedRiderId := Some(log.riderId))]
    && c'.riders == c.riders[j0 := r0[j0].(status := Matched)]
    && c'.logs == c.logs + [log]
    && c'.claimed == c.claimed + {log.driverId}
    && c'.served == c.served + {log.riderId}
  }

  /** Recording one valid match of fresh ids keeps the cycle invariant. */
  lemma MatchKeepsInv(d0: seq<Driver>, r0: seq<Rider>, dist: Distance, c: Cycle, c': Cycle,
                      i0: nat, j0: nat, log: MatchLog)
    requires UniqueDriverIds(d0) && UniqueRiderIds(r0)
    requires CycleInv(d0, r0, dist, c)
    requires i0 < |d0| && j0 < |r0|
    requires d0[i0].id == log.driverId && r0[j0].id == log.riderId
    requires d0[i0].status == Idle && r0[j0].status == Idle && Eligible(d0[i0], r0[j0], dist)
    requires log.driverId !in c.claimed && log.riderId !in c.served
    requires IsMatchStep(d0, r0, c, c', i0, j0, log)
    ensures CycleInv(d0, r0, dist, c')
  {
    var logs := c.logs + [log];
    LoggedAppend(c.logs, log);
    forall i | 0 <= i < |d0|
      ensures c'.drivers[i] == DriverAfter(d0[i], logs)
    {
      DriverAfterAppend(d0[i], c.logs, log);
      if i != i0 {
        assert d0[i].id != log.driverId;
      }
    }
    forall j | 0 <= j < |r0|
      ensures c'.riders[j] == RiderAfter(r0[j], logs)
    {
      RiderServedAppend(c.logs, log, r0[j].id);
      if j != j0 {
        assert r0[j].id != log.riderId;
      } else {
        RiderNotServed(c.logs, log.riderId);
      }
    }
    forall k | 0 <= k < |logs|
      ensures ValidMatch(d0, r0, logs[k], dist)
    {
      if k < |c.logs| {
        assert logs[k] == c.logs[k];
      }
    }
    forall i, j | 0 <= i < j < |logs|
      ensures logs[i].driverId != logs[j].driverId && logs[i].riderId != logs[j].riderId
    {
      if j == |c.logs| {
        assert logs[i] == c.logs[i];
        assert c.logs[i].driverId in LoggedDrivers(c.logs);
        assert c.logs[i].riderId in LoggedRiders(c.logs);
      }
    }
  }

  /** One iteration keeps the cycle invariant. */
  lemma ServePreservesInv(d0: seq<Driver>, r0: seq<Rider>, avail: seq<Driver>,
                          now: real, dist: Distance, c: Cycle, r: Rider)
    requires UniqueDriverIds(d0) && UniqueRiderIds(r0)
    requires forall i :: 0 <= i < |avail| ==> avail[i] in d0 && avail[i].status == Idle
    requires r in r0 && r.status == Idle
    requires CycleInv(d0, r0, dist, c)
    ensures CycleInv(d0, r0, dist, Serve(avail, now, dist, c, r))
  {
    if r.id !in c.served && |Candidates(avail, c.claimed, r, dist)| > 0 {
      var i0, j0, log := ServeMatchStep(d0, r0, avail, now, dist, c, r);
      MatchKeepsInv(d0, r0, dist, c, Serve(avail, now, dist, c, r), i0, j0, log);
    }
  }

  lemma DriverAfterNone(d: Driver, logs: seq<MatchLog>)
    requires d.id !in LoggedDrivers(logs)
    ensures DriverAfter(d, logs) == d
  {
  }

  lemma RiderNotServed(logs: seq<MatchLog>, id: string)
    requires id !in LoggedRiders(logs)
    ensures !RiderServed(logs, id)
  {
  }

  lemma {:induction false} ServeAllPreservesInv(d0: seq<Driver>, r0: seq<Rider>, avail: seq<Driver>,
                                                now: real, dist: Distance, c: Cycle, pending: seq<Rider>)
    requires UniqueDriverIds(d0) && UniqueRiderIds(r0)
    requires forall i :: 0 <= i < |avail| ==> avail[i] in d0 && avail[i].status == Idle
    requires forall i :: 0 <= i < |pending| ==> pending[i] in r0 && pending[i].status == Idle
    requires CycleInv(d0, r0, dist, c)
    ensures CycleInv(d0, r0, dist, ServeAll(avail, now, dist, c, pending))
    decreases |pending|
  {
    if |pending| > 0 {
      ServePreservesInv(d0, r0, avail, now, dist, c, pending[0]);
      ServeAllPreservesInv(d0, r0, avail, now, dist, Serve(avail, now, dist, c, pending[0]), pending[1..]);
    }
  }

  lemma CycleEndsInInv(drivers: seq<Driver>, riders: seq<Rider>, now: real, dist: Distance)
    requires UniqueDriverIds(drivers) && UniqueRiderIds(riders)
    ensures CycleInv(drivers, riders, dist,
              ServeAll(AvailableDrivers(drivers), now, dist,
                       Cycle(drivers, riders, [], {}, {}), PendingRiders(riders)))
  {
    var c0 := Cycle(drivers, riders, [], {}, {});
    assert LoggedDrivers([]) == {} && LoggedRiders([]) == {};
    assert CycleInv(drivers, riders, dist, c0);
    ServeAllPreservesInv(drivers, riders, AvailableDrivers(drivers), now, dist, c0, PendingRiders(riders));
  }

  /** Logs of valid matches never name a driver that was not idle. */
  lemma NonIdleDriverUntouched(drivers: seq<Driver>, riders: seq<Rider>, dist: Distance,
                               logs: seq<MatchLog>, i: nat)
    requires UniqueDriverIds(drivers) && i < |drivers| && drivers[i].status != Idle
    requires forall k :: 0 <= k < |logs| ==> ValidMatch(drivers, riders, logs[k], dist)
    ensures DriverAfter(drivers[i], logs) == drivers[i]
  {
  }

  /** Logs of valid matches never name a rider that was not waiting. */
  lemma NonIdleRiderUntouched(drivers: seq<Driver>, riders: seq<Rider>, dist: Distance,
                              logs: seq<MatchLog>, j: nat)
    requires UniqueRiderIds(riders) && j < |riders| && riders[j].status != Idle
    requires forall k :: 0 <= k < |logs| ==> ValidMatch(drivers, riders, logs[k], dist)
    ensures RiderAfter(riders[j], logs) == riders[j]
  {
  }

  /** With unique ids, a cycle changes exactly the matched entries: each
      driver entry ends up as its log entry says (MATCHED and bound to its
      rider, or untouched), likewise each rider entry; no driver or rider is
      matched twice; every match pairs an idle driver with an idle rider it
      may serve; and non-idle entries are never touched. */
  lemma RunDispatchCycleCorrect(drivers: seq<Driver>, riders: seq<Rider>, now: real, dist: Distance)
    requires UniqueDriverIds(drivers) && UniqueRiderIds(riders)
    ensures
      var res := RunDispatchCycle(drivers, riders, now, dist);
      && (forall i :: 0 <= i < |drivers| ==> res.updatedDrivers[i] == DriverAfter(drivers[i], res.newLogs))
      && (forall j :: 0 <= j < |riders| ==> res.updatedRiders[j] == RiderAfter(riders[j], res.newLogs))
      && OneMatchEach(res.newLogs)
      && (forall k :: 0 <= k < |res.newLogs| ==> ValidMatch(drivers, riders, res.newLogs[k], dist))
      && (forall i :: 0 <= i < |drivers| && drivers[i].status != Idle ==> res.updatedDrivers[i] == drivers[i])
      && (forall j :: 0 <= j < |riders| && riders[j].status != Idle ==> res.updatedRiders[j] == riders[j])
  {
    CycleEndsInInv(drivers, riders, now, dist);
    var res := RunDispatchCycle(drivers, riders, now, dist);
    forall i | 0 <= i < |drivers| && drivers[i].status != Idle
      ensures res.updatedDrivers[i] == drivers[i]
    {
      NonIdleDriverUntouched(drivers, riders, dist, res.newLogs, i);
    }
    forall j | 0 <= j < |riders| && riders[j].status != Idle
      ensures res.updatedRiders[j] == riders[j]
    {
      NonIdleRiderUntouched(drivers, riders, dist, res.newLogs, j);
    }
  }

  /** A log entry added for rider `r` names the winner among `r`'s
      candidates: its score is at least every candidate's, and the rival
      count is the number of candidates minus one. */
  lemma ServeLogsBestCandidate(avail: seq<Driver>, now: real, dist: Distance, c: Cycle, r: Rider)
    ensures
      var c' := Serve(avail, now, dist, c, r);
      var cands := Candidates(avail, c.claimed, r, dist);
      |c'.logs| == |c.logs| + 1 ==>
        var l := c'.logs[|c.logs|];
        && |cands| > 0
        && l.riderId == r.id && l.timestamp == now && l.riderWaitTime == r.waitTime
        && l.competitors == |cands| - 1
        && (exists w :: w in cands && w.id == l.driverId && l.fairnessScore == FairnessScore(w, now)
                        && l.distance == dist(w.location, r.location))
        && (forall i :: 0 <= i < |cands| ==> FairnessScore(cands[i], now) <= l.fairnessScore)
  {
    var c' := Serve(avail, now, dist, c, r);
    if |c'.logs| == |c.logs| + 1 {
      var cands := Candidates(avail, c.claimed, r, dist);
      var w := PickWinner(cands, now);
      assert c'.logs[|c.logs|].driverId == w.id;
    }
  }

  /** Serving riders when every available driver is already claimed changes
      nothing but the set of served riders. */
  lemma {:induction false} ServeAllExhausted(avail: seq<Driver>, now: real, dist: Distance, c: Cycle, pending: seq<Rider>)
    requires forall i :: 0 <= i < |avail| ==> avail[i].id in c.claimed
    ensures ServeAll(avail, now, dist, c, pending).logs == c.logs
    decreases |pending|
  {
    if |pending| > 0 {
      var r := pending[0];
      var cands := Candidates(avail, c.claimed, r, dist);
      assert |cands| == 0;
      ServeAllExhausted(avail, now, dist, Serve(avail, now, dist, c, r), pending[1..]);
    }
  }

  /** The longest-waiting rider heads the pending list. */
  lemma PendingHead(riders: seq<Rider>, r: Rider)
    requires r in riders && r.status == Idle
    requires forall j :: 0 <= j < |riders| && riders[j].status == Idle && riders[j] != r ==>
               riders[j].waitTime < r.waitTime
    ensures |PendingRiders(riders)| > 0 && PendingRiders(riders)[0] == r
  {
    var p := PendingRiders(riders);
    assert r in p;
  }

  /** When every available driver is `d`, `d` wins whenever it qualifies. */
  lemma SoleDriverWins(avail: seq<Driver>, claimed: set<string>, r: Rider, dist: Distance, now: real, d: Driver)
    requires d in avail && forall i :: 0 <= i < |avail| ==> avail[i] == d
    requires d.id !in claimed && Eligible(d, r, dist)
    ensures |Candidates(avail, claimed, r, dist)| > 0
    ensures PickWinner(Candidates(avail, claimed, r, dist), now) == d
  {
    var cands := Candidates(avail, claimed, r, dist);
    assert d in cands;
  }

  /** The first rider served by a fresh cycle whose only available driver
      is `d` gets `d`. */
  lemma SoleDriverFirstServe(drivers: seq<Driver>, riders: seq<Rider>, avail: seq<Driver>,
                             now: real, dist: Distance, d: Driver, r: Rider)
    requires d in drivers && r in riders
    requires d in avail && forall i :: 0 <= i < |avail| ==> avail[i] == d
    requires Eligible(d, r, dist)
    ensures
      var c1 := Serve(avail, now, dist, Cycle(drivers, riders, [], {}, {}), r);
      && |c1.logs| == 1 && c1.logs[0].riderId == r.id && c1.logs[0].driverId == d.id
      && d.id in c1.claimed
  {
    SoleDriverWins(avail, {}, r, dist, now, d);
    var c0 := Cycle(drivers, riders, [], {}, {});
    var cands := Candidates(avail, {}, r, dist);
    assert Serve(avail, now, dist, c0, r) == Assign(c0, now, dist, r, d, |cands| - 1);
    var i :| 0 <= i < |drivers| && drivers[i] == d;
    var j :| 0 <= j < |riders| && riders[j] == r;
    assert HasDriverId(d.id)(drivers[i]) && HasRiderId(r.id)(riders[j]);
    assert FindFirst(drivers, HasDriverId(d.id)).Some? && FindFirst(riders, HasRiderId(r.id)).Some?;
  }

  /** With a single idle driver that every waiting rider may use, the cycle
      makes exactly one match, and it goes to the rider who has waited
      longest; the others stay waiting. */
  lemma LongestWaitingRiderWins(drivers: seq<Driver>, riders: seq<Rider>, now: real, dist: Distance,
                                d: Driver, r: Rider)
    requires UniqueDriverIds(drivers) && UniqueRiderIds(riders)
    requires d in drivers && d.status == Idle
    requires forall i :: 0 <= i < |drivers| && drivers[i] != d ==> drivers[i].status != Idle
    requires r in riders && r.status == Idle
    requires forall j :: 0 <= j < |riders| && riders[j].status == Idle ==> Eligible(d, riders[j], dist)
    requires forall j :: 0 <= j < |riders| && riders[j].status == Idle && riders[j] != r ==>
               riders[j].waitTime < r.waitTime
    ensures
      var res := RunDispatchCycle(drivers, riders, now, dist);
      |res.newLogs| == 1 && res.newLogs[0].riderId == r.id && res.newLogs[0].driverId == d.id
  {
    var avail := AvailableDrivers(drivers);
    var pending := PendingRiders(riders);
    PendingHead(riders, r);
    assert d in avail;
    assert forall i :: 0 <= i < |avail| ==> avail[i] == d;
    SoleDriverFirstServe(drivers, riders, avail, now, dist, d, r);
    var c1 := Serve(avail, now, dist, Cycle(drivers, riders, [], {}, {}), r);
    ServeAllExhausted(avail, now, dist, c1, pending[1..]);
  }
}
