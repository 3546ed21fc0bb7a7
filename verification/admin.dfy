/** Administration: reading a station queue, the queue override, sealing
    the day's figures, driver approval, and the area-performance arithmetic.
    The clock is a parameter (`todayStr` is today's `YYYY-MM-DD`). */
module Admin {
  import opened Util
  import opened Accounts
  import FairQueue

  // ---------------------------------------------------------------------
  // Queue listing
  // ---------------------------------------------------------------------

  /** One row of `getQueue`; a score that does not parse (`NaN`) is `None`. */
  datatype QueueRow = QueueRow(driverId: string, score: Option<real>)

  /** The reply of `ZREVRANGE ... WITHSCORES`: member, score, member, score. */
  function Flatten(q: seq<FairQueue.Entry>, format: real -> string): (flat: seq<string>)
    ensures |flat| == 2 * |q|
    ensures forall i :: 0 <= i < |q| ==> flat[2 * i] == q[i].driverId && flat[2 * i + 1] == format(q[i].rank)
  {
    if |q| == 0 then [] else [q[0].driverId, format(q[0].rank)] + Flatten(q[1..], format)
  }

  /** The pairing `getQueue` performs, stated element by element: row `i`
      is made of entries `2i` and `2i + 1`; a missing score is `NaN`. */
  function Pairs(flat: seq<string>, parse: string -> Option<real>): (rows: seq<QueueRow>)
    ensures |rows| == (|flat| + 1) / 2
    ensures forall i :: 0 <= i < |rows| ==>
      rows[i] == QueueRow(flat[2 * i], if 2 * i + 1 < |flat| then parse(flat[2 * i + 1]) else None)
  {
    if |flat| == 0 then []
    else if |flat| == 1 then [QueueRow(flat[0], None)]
    else [QueueRow(flat[0], parse(flat[1]))] + Pairs(flat[2..], parse)
  }

  /** `getQueue`: the loop stepping through the reply two at a time. */
  method GetQueue(flat: seq<string>, parse: string -> Option<real>) returns (rows: seq<QueueRow>)
    ensures rows == Pairs(flat, parse)
  {
    rows := [];
    var i := 0;
    while i < |flat|
      invariant 0 <= i <= |flat| + 1 && i % 2 == 0
      invariant i < |flat| ==> |rows| == i / 2
      invariant |rows| == (if i < |flat| then i / 2 else (|flat| + 1) / 2)
      invariant forall k :: 0 <= k < |rows| ==> rows[k] == Pairs(flat, parse)[k]
      decreases |flat| - i
    {
      var score := if i + 1 < |flat| then parse(flat[i + 1]) else None;
      rows := rows + [QueueRow(flat[i], score)];
      i := i + 2;
    }
  }

  /** Reading a queue back gives every driver in queue order with its rank,
      when parsing undoes the score formatting. */
  lemma GetQueueRoundTrip(q: seq<FairQueue.Entry>, format: real -> string, parse: string -> Option<real>)
    requires forall x :: parse(format(x)) == Some(x)
    ensures
      var rows := Pairs(Flatten(q, format), parse);
      |rows| == |q| && forall i :: 0 <= i < |q| ==> rows[i] == QueueRow(q[i].driverId, Some(q[i].rank))
  {
    var flat := Flatten(q, format);
    var rows := Pairs(flat, parse);
    forall i | 0 <= i < |q| ensures rows[i] == QueueRow(q[i].driverId, Some(q[i].rank)) {
      assert flat[2 * i] == q[i].driverId && flat[2 * i + 1] == format(q[i].rank);
    }
  }

  // ---------------------------------------------------------------------
  // State
  // ---------------------------------------------------------------------

  datatype OverrideLog = OverrideLog(winId: string, driverId: string, reason: string, timestamp: int)

  datatype CloseRecord = CloseRecord(confirmedBy: string, closedAt: string)

  datatype Rejection = Rejection(driverId: string, reason: string, timestamp: int)

  datatype AdminState = AdminState(
    queue: FairQueue.Store,
    overrideLogs: seq<OverrideLog>,       // newest first
    closes: map<string, CloseRecord>,     // day to its seal
    drivers: seq<DriverAccount>,
    rejections: seq<Rejection>)           // newest first

  // ---------------------------------------------------------------------
  // Queue override
  // ---------------------------------------------------------------------

  /** `overrideQueue`: the driver is taken out of the station's queue (the
      reply calls this "prioritized") and the action is logged. */
  function OverrideQueue(s: AdminState, winId: string, driverId: string, reason: string, nowMs: int): (s': AdminState)
    requires FairQueue.ValidStore(s.queue)
    ensures FairQueue.ValidStore(s'.queue)
    ensures FairQueue.ZScore(FairQueue.Queue(s'.queue, winId), driverId).None?
    ensures forall x :: x != driverId ==>
              FairQueue.ZScore(FairQueue.Queue(s'.queue, winId), x) == FairQueue.ZScore(FairQueue.Queue(s.queue, winId), x)
    ensures forall w :: w != winId ==> FairQueue.Queue(s'.queue, w) == FairQueue.Queue(s.queue, w)
    ensures s'.overrideLogs == [OverrideLog(winId, driverId, reason, nowMs)] + s.overrideLogs
    ensures s' == s.(queue := s'.queue, overrideLogs := s'.overrideLogs)
  {
    s.(queue := FairQueue.ZRem(s.queue, winId, driverId),
       overrideLogs := [OverrideLog(winId, driverId, reason, nowMs)] + s.overrideLogs)
  }

  /** The "prioritized" driver is not first in line afterwards: it is not in
      the queue at all, and the next pop hands out someone else. */
  lemma OverrideDoesNotPromote(s: AdminState, winId: string, driverId: string, reason: string, nowMs: int)
    requires FairQueue.ValidStore(s.queue)
    ensures FairQueue.PopBest(OverrideQueue(s, winId, driverId, reason, nowMs).queue, winId).0 != Some(driverId)
  {
    var q := FairQueue.Queue(OverrideQueue(s, winId, driverId, reason, nowMs).queue, winId);
    if |q| > 0 {
      assert q[0].driverId != driverId;
    }
  }

  // ---------------------------------------------------------------------
  // Daily close
  // ---------------------------------------------------------------------

  datatype CloseError = NotToday | AlreadyClosed

  /** `performDailyClose`: only today can be sealed, and only once. */
  function PerformDailyClose(s: AdminState, date: string, confirmedBy: string, todayStr: string, nowIso: string)
    : (r: (Option<CloseError>, AdminState))
    ensures r.0 == Some(NotToday) <==> date != todayStr
    ensures r.0 == Some(AlreadyClosed) <==> date == todayStr && todayStr in s.closes
    ensures r.0.Some? ==> r.1 == s
    ensures r.0.None? ==> r.1 == s.(closes := s.closes[todayStr := CloseRecord(confirmedBy, nowIso)])
  {
    if date != todayStr then (Some(NotToday), s)
    else if todayStr in s.closes then (Some(AlreadyClosed), s)
    else (None, s.(closes := s.closes[todayStr := CloseRecord(confirmedBy, nowIso)]))
  }

  datatype CloseStatus = CloseStatus(isClosed: bool, closedBy: Option<string>)

  /** The closing part of `getFinancialStats`. */
  function ClosedStatus(s: AdminState, todayStr: string): (c: CloseStatus)
    ensures c.isClosed <==> todayStr in s.closes
    ensures c.closedBy.Some? <==> c.isClosed
    ensures c.isClosed ==> c.closedBy == Some(s.closes[todayStr].confirmedBy)
  {
    if todayStr in s.closes then CloseStatus(true, Some(s.closes[todayStr].confirmedBy))
    else CloseStatus(false, None)
  }

  /** A successful close shows as closed by its confirmer, and a second
      close of the same day is refused. */
  lemma CloseOnce(s: AdminState, confirmedBy: string, other: string, todayStr: string, t1: string, t2: string)
    requires todayStr !in s.closes
    ensures
      var (err, s1) := PerformDailyClose(s, todayStr, confirmedBy, todayStr, t1);
      && err.None?
      && ClosedStatus(s1, todayStr) == CloseStatus(true, Some(confirmedBy))
      && PerformDailyClose(s1, todayStr, other, todayStr, t2) == (Some(AlreadyClosed), s1)
  {
  }

  // ---------------------------------------------------------------------
  // Driver approval
  // ---------------------------------------------------------------------

  datatype Verdict = Approve | Reject(reason: string)

  datatype DecideError = DriverNotFound | AlreadyDecided

  function VerdictStatus(v: Verdict): string {
    match v
    case Approve => "APPROVED"
    case Reject(_) => "REJECTED"
  }

  /** `approveDriver` and `rejectDriver`: the driver must exist and still be
      PENDING; its rows get the new status, and a rejection is logged with
      its reason. */
  function Decide(s: AdminState, driverId: string, v: Verdict, nowMs: int): (r: (Option<DecideError>, AdminState))
    ensures r.0 == Some(DriverNotFound) <==> Lookup(s.drivers, DriverWithId(driverId)).None?
    ensures r.0 == Some(AlreadyDecided) <==>
      Lookup(s.drivers, DriverWithId(driverId)).Some? && Lookup(s.drivers, DriverWithId(driverId)).value.approval != "PENDING"
    ensures r.0.Some? ==> r.1 == s
    ensures r.0.None? ==>
      && |r.1.drivers| == |s.drivers|
      && (forall i :: 0 <= i < |s.drivers| ==>
            r.1.drivers[i] == if s.drivers[i].id == driverId then s.drivers[i].(approval := VerdictStatus(v)) else s.drivers[i])
      && r.1.rejections == (if v.Reject? then [Rejection(driverId, v.reason, nowMs)] + s.rejections else s.rejections)
      && r.1.queue == s.queue && r.1.closes == s.closes && r.1.overrideLogs == s.overrideLogs
  {
    match Lookup(s.drivers, DriverWithId(driverId))
    case None => (Some(DriverNotFound), s)
    case Some(d) =>
      if d.approval != "PENDING" then (Some(AlreadyDecided), s)
      else
        var status := VerdictStatus(v);
        var drivers := MapWhere(s.drivers, DriverWithId(driverId), (x: DriverAccount) => x.(approval := status));
        var rejections := if v.Reject? then [Rejection(driverId, v.reason, nowMs)] + s.rejections else s.rejections;
        (None, s.(drivers := drivers, rejections := rejections))
  }

  /** A driver is decided at most once: after a successful approval or
      rejection, every further decision about it is refused. */
  lemma DecidedAtMostOnce(s: AdminState, driverId: string, v1: Verdict, v2: Verdict, t1: int, t2: int)
    ensures
      var (err, s1) := Decide(s, driverId, v1, t1);
      err.None? ==> Decide(s1, driverId, v2, t2) == (Some(AlreadyDecided), s1)
  {
    var p := DriverWithId(driverId);
    var (err, s1) := Decide(s, driverId, v1, t1);
    if err.None? {
      var k := FindFirst(s.drivers, p).value;
      forall i | 0 <= i < |s.drivers| ensures p(s.drivers[i]) == p(s1.drivers[i]) {
      }
      FindFirstSamePattern(s.drivers, s1.drivers, p, p);
      assert Lookup(s1.drivers, p) == Some(s1.drivers[k]);
      assert s1.drivers[k].approval == VerdictStatus(v1);
    }
  }

  // ---------------------------------------------------------------------
  // Area performance
  // ---------------------------------------------------------------------

  /** The per-ride fee in baht. */
  const RideFee: int := 2

  datatype Area = Area(areaId: string, areaName: string, rides: int, bonus: int)

  datatype AreaPerformance = AreaPerformance(
    areaId: string, areaName: string, rides: int, bonus: int, revenue: int, bonusCost: int, grossMargin: int)

  /** One row of the area table: fee income, bonus cost, and the margin
      between them. */
  function Performance(a: Area): (p: AreaPerformance)
    ensures p.areaId == a.areaId && p.areaName == a.areaName && p.rides == a.rides && p.bonus == a.bonus
    ensures p.revenue == a.rides * RideFee
    ensures p.bonusCost == a.bonus
    ensures p.grossMargin + p.bonusCost == p.revenue
  {
    var revenue := a.rides * RideFee;
    AreaPerformance(a.areaId, a.areaName, a.rides, a.bonus, revenue, a.bonus, revenue - a.bonus)
  }

  /** The area table: one row per area, in the areas' order. */
  function AreaTable(areas: seq<Area>): (t: seq<AreaPerformance>)
    ensures |t| == |areas|
    ensures forall i :: 0 <= i < |areas| ==> t[i] == Performance(areas[i])
  {
    if |areas| == 0 then [] else [Performance(areas[0])] + AreaTable(areas[1..])
  }

  /** The areas the dashboard reports. */
  const SeededAreas: seq<Area> := [
    Area("WIN-CENTRAL", "Win Central Market", 1200, 300),
    Area("WIN-TECH", "Win Tech Park", 850, 50),
    Area("WIN-SUBURB", "Win Suburb A", 400, 200)
  ]

  function TotalRides(areas: seq<Area>): int {
    if |areas| == 0 then 0 else areas[0].rides + TotalRides(areas[1..])
  }

  function TotalBonus(areas: seq<Area>): int {
    if |areas| == 0 then 0 else areas[0].bonus + TotalBonus(areas[1..])
  }

  function TotalMargin(t: seq<AreaPerformance>): int {
    if |t| == 0 then 0 else t[0].grossMargin + TotalMargin(t[1..])
  }

  function TotalRevenue(t: seq<AreaPerformance>): int {
    if |t| == 0 then 0 else t[0].revenue + TotalRevenue(t[1..])
  }

  /** Over the whole table, the margins add up to the fees of every ride
      less every bonus, and the revenues to the fees alone. */
  lemma {:induction false} AreaTableTotals(areas: seq<Area>)
    ensures TotalRevenue(AreaTable(areas)) == TotalRides(areas) * RideFee
    ensures TotalMargin(AreaTable(areas)) == TotalRides(areas) * RideFee - TotalBonus(areas)
  {
    if |areas| > 0 {
      AreaTableTotals(areas[1..]);
      assert AreaTable(areas)[1..] == AreaTable(areas[1..]);
    }
  }

  /** The reported areas earn margins of 2100, 1650 and 600, 4350 in all. */
  lemma SeededAreaMargins()
    ensures
      var t := AreaTable(SeededAreas);
      && t[0].grossMargin == 2100 && t[1].grossMargin == 1650 && t[2].grossMargin == 600
      && TotalMargin(t) == 4350
  {
    AreaTableTotals(SeededAreas);
    assert SeededAreas[1..][1..][1..] == [];
  }
}
