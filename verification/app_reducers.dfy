/** The admin simulation's socket handlers as pure updates of the driver and
    rider lists, the manual queue override, and the rider clean-up of each
    tick. The clock (`now`, milliseconds) and the random destination of a
    new rider are parameters. */
module AppReducers {
  import opened Util
  import opened Types
  import Scheduler

  /** Where a driver without a reported location is placed. */
  const MapCenter: Location := Location(13.75, 100.51)

  /** The station a newly seen driver is attached to. */
  const DefaultWin: string := "WIN-CENTRAL-01"

  /** One day in milliseconds. */
  const DayMs: real := 86400000.0

  datatype Sim = Sim(drivers: seq<Driver>, riders: seq<Rider>)

  function OtherDriver(id: string): Driver -> bool {
    (d: Driver) => d.id != id
  }

  function OtherRider(id: string): Rider -> bool {
    (x: Rider) => x.id != id
  }

  function NewSimDriver(id: string, location: Option<Location>, now: real): Driver {
    Driver(id, location.GetOr(MapCenter), Idle, 0.0, 0, None, Some(DefaultWin), 5.0, now, now)
  }

  // ---------------------------------------------------------------------
  // DRIVER_UPDATE_STATUS
  // ---------------------------------------------------------------------

  /** OFFLINE drops the driver; a known driver takes the new status (and the
      new location when one is sent, else the first match's location); an
      unknown one is appended IDLE at the default station. */
  function DriverUpdateStatus(drivers: seq<Driver>, id: string, status: string, location: Option<Location>, now: real)
    : (r: seq<Driver>)
    ensures status == "OFFLINE" ==>
      && (forall i :: 0 <= i < |r| ==> r[i].id != id && r[i] in drivers)
      && (forall i :: 0 <= i < |drivers| && drivers[i].id != id ==> drivers[i] in r)
    ensures status != "OFFLINE" && Lookup(drivers, Scheduler.HasDriverId(id)).Some? ==>
      var newLoc := location.GetOr(Lookup(drivers, Scheduler.HasDriverId(id)).value.location);
      && |r| == |drivers|
      && forall i :: 0 <= i < |drivers| ==>
           r[i] == if drivers[i].id == id then drivers[i].(status := ParseStatus(status), location := newLoc) else drivers[i]
    ensures status != "OFFLINE" && Lookup(drivers, Scheduler.HasDriverId(id)).None? ==>
      r == drivers + [NewSimDriver(id, location, now)]
  {
    if status == "OFFLINE" then Filter(drivers, OtherDriver(id))
    else
      match Lookup(drivers, Scheduler.HasDriverId(id))
      case Some(existing) =>
        var newLoc := location.GetOr(existing.location);
        MapWhere(drivers, Scheduler.HasDriverId(id), (d: Driver) => d.(status := ParseStatus(status), location := newLoc))
      case None => drivers + [NewSimDriver(id, location, now)]
  }

  /** A status update never leaves the driver missing unless it went
      OFFLINE, and a newcomer starts idle with no trips and a 5.0 rating. */
  lemma UpdatedDriverPresent(drivers: seq<Driver>, id: string, status: string, location: Option<Location>, now: real)
    requires status != "OFFLINE"
    ensures
      var r := DriverUpdateStatus(drivers, id, status, location, now);
      && Lookup(r, Scheduler.HasDriverId(id)).Some?
      && (Lookup(drivers, Scheduler.HasDriverId(id)).None? ==>
            var d := r[|r| - 1];
            d.id == id && d.status == Idle && d.totalTrips == 0 && d.rating == 5.0)
  {
    var r := DriverUpdateStatus(drivers, id, status, location, now);
    if Lookup(drivers, Scheduler.HasDriverId(id)).Some? {
      var k := FindFirst(drivers, Scheduler.HasDriverId(id)).value;
      assert Scheduler.HasDriverId(id)(r[k]);
    } else {
      assert Scheduler.HasDriverId(id)(r[|r| - 1]);
    }
  }

  // ---------------------------------------------------------------------
  // Trip events
  // ---------------------------------------------------------------------

  /** TRIP_ACCEPT: the driver is en route and no longer holds a match. */
  function TripAccept(drivers: seq<Driver>, driverId: string): (r: seq<Driver>)
    ensures |r| == |drivers|
    ensures forall i :: 0 <= i < |r| ==>
      r[i] == if drivers[i].id == driverId then drivers[i].(status := EnRoute, matchedRiderId := None) else drivers[i]
  {
    MapWhere(drivers, Scheduler.HasDriverId(driverId), (d: Driver) => d.(status := EnRoute, matchedRiderId := None))
  }

  /** DRIVER_REJECT_JOB: the driver is idle again with its last trip at
      `now`, and the rider waits again. */
  function DriverRejectJob(s: Sim, driverId: string, riderId: string, now: real): (s': Sim)
    ensures |s'.drivers| == |s.drivers| && |s'.riders| == |s.riders|
    ensures forall i :: 0 <= i < |s.drivers| ==>
      s'.drivers[i] == if s.drivers[i].id == driverId
                       then s.drivers[i].(status := Idle, matchedRiderId := None, lastTripTime := now)
                       else s.drivers[i]
    ensures forall i :: 0 <= i < |s.riders| ==>
      s'.riders[i] == if s.riders[i].id == riderId then s.riders[i].(status := Idle) else s.riders[i]
  {
    Sim(MapWhere(s.drivers, Scheduler.HasDriverId(driverId),
                 (d: Driver) => d.(status := Idle, matchedRiderId := None, lastTripTime := now)),
        MapWhere(s.riders, Scheduler.HasRiderId(riderId), (x: Rider) => x.(status := Idle)))
  }

  /** A rejection puts the pair back in the next dispatch cycle's pools:
      the driver is among the available drivers and the rider among the
      pending riders. The driver's score does not rise, since its last trip
      moves to `now`. */
  lemma RejectReturnsPairToPool(s: Sim, driverId: string, riderId: string, now: real)
    ensures
      var s' := DriverRejectJob(s, driverId, riderId, now);
      && (forall i :: 0 <= i < |s'.drivers| && s'.drivers[i].id == driverId ==>
            && s'.drivers[i] in Scheduler.AvailableDrivers(s'.drivers)
            && (s.drivers[i].lastTripTime <= now ==>
                  Scheduler.FairnessScore(s'.drivers[i], now) <= Scheduler.FairnessScore(s.drivers[i], now)))
      && (forall j :: 0 <= j < |s'.riders| && s'.riders[j].id == riderId ==>
            s'.riders[j] in Scheduler.PendingRiders(s'.riders))
  {
    var s' := DriverRejectJob(s, driverId, riderId, now);
    forall i | 0 <= i < |s'.drivers| && s'.drivers[i].id == driverId && s.drivers[i].lastTripTime <= now
      ensures Scheduler.FairnessScore(s'.drivers[i], now) <= Scheduler.FairnessScore(s.drivers[i], now)
    {
      Scheduler.ScoreNonincreasingInLastTrip(s'.drivers[i], s.drivers[i].lastTripTime, now);
    }
  }

  /** TRIP_COMPLETE: the driver is idle with its last trip at `now`; the
      rider it was matched to (read from the list before this update) is
      dropped. */
  function TripComplete(s: Sim, driverId: string, now: real): (s': Sim)
    ensures |s'.drivers| == |s.drivers|
    ensures forall i :: 0 <= i < |s.drivers| ==>
      s'.drivers[i] == if s.drivers[i].id == driverId
                       then s.drivers[i].(status := Idle, matchedRiderId := None, lastTripTime := now)
                       else s.drivers[i]
    ensures
      var before := Lookup(s.drivers, Scheduler.HasDriverId(driverId));
      if before.Some? && before.value.matchedRiderId.Some? then
        && (forall i :: 0 <= i < |s'.riders| ==> s'.riders[i].id != before.value.matchedRiderId.value && s'.riders[i] in s.riders)
        && (forall i :: 0 <= i < |s.riders| && s.riders[i].id != before.value.matchedRiderId.value ==> s.riders[i] in s'.riders)
      else s'.riders == s.riders
  {
    var drivers := MapWhere(s.drivers, Scheduler.HasDriverId(driverId),
                            (d: Driver) => d.(status := Idle, matchedRiderId := None, lastTripTime := now));
    var before := Lookup(s.drivers, Scheduler.HasDriverId(driverId));
    var riders :=
      if before.Some? && before.value.matchedRiderId.Some?
      then Filter(s.riders, OtherRider(before.value.matchedRiderId.value))
      else s.riders;
    Sim(drivers, riders)
  }

  /** TRIP_ACCEPT already clears the driver's match, so a TRIP_COMPLETE
      that follows it leaves the riders as they were: the finished rider
      is left for the tick to drop. */
  lemma CompleteAfterAcceptKeepsRiders(s: Sim, driverId: string, now: real)
    ensures
      var accepted := Sim(TripAccept(s.drivers, driverId), s.riders);
      TripComplete(accepted, driverId, now).riders == s.riders
  {
    var drivers := TripAccept(s.drivers, driverId);
    match FindFirst(drivers, Scheduler.HasDriverId(driverId))
    case None =>
    case Some(k) =>
      assert drivers[k].matchedRiderId.None?;
  }

  // ---------------------------------------------------------------------
  // Rider events
  // ---------------------------------------------------------------------

  function NewSimRider(riderId: string, location: Location, message: string, targetWinId: Option<string>,
                       destination: Location, now: real): Rider {
    Rider(riderId, location, destination, now, 0.0, Idle, 100.0, Some(message), targetWinId)
  }

  /** RIDE_REQUEST: any older request of the rider is replaced by the new
      one, appended at the end. */
  function RideRequest(riders: seq<Rider>, riderId: string, location: Location, message: string,
                       targetWinId: Option<string>, destination: Location, now: real): (r: seq<Rider>)
    ensures |r| > 0 && r[|r| - 1] == NewSimRider(riderId, location, message, targetWinId, destination, now)
    ensures forall i :: 0 <= i < |r| - 1 ==> r[i].id != riderId && r[i] in riders
    ensures forall i :: 0 <= i < |riders| && riders[i].id != riderId ==> riders[i] in r
  {
    Filter(riders, OtherRider(riderId)) + [NewSimRider(riderId, location, message, targetWinId, destination, now)]
  }

  /** After a request there is exactly one rider with that id. */
  lemma RequestLeavesOneRider(riders: seq<Rider>, riderId: string, location: Location, message: string,
                              targetWinId: Option<string>, destination: Location, now: real)
    ensures Count(RideRequest(riders, riderId, location, message, targetWinId, destination, now),
                  Scheduler.HasRiderId(riderId)) == 1
  {
    var clean := Filter(riders, OtherRider(riderId));
    var x := NewSimRider(riderId, location, message, targetWinId, destination, now);
    CountAppend(clean, x, Scheduler.HasRiderId(riderId));
    assert forall j :: 0 <= j < |clean| ==> !Scheduler.HasRiderId(riderId)(clean[j]);
  }

  /** RIDE_CANCEL: the rider goes, and a driver matched to it is idle and
      unmatched again. */
  function RideCancel(s: Sim, riderId: string): (s': Sim)
    ensures forall i :: 0 <= i < |s'.riders| ==> s'.riders[i].id != riderId && s'.riders[i] in s.riders
    ensures forall i :: 0 <= i < |s.riders| && s.riders[i].id != riderId ==> s.riders[i] in s'.riders
    ensures |s'.drivers| == |s.drivers|
    ensures forall i :: 0 <= i < |s.drivers| ==>
      s'.drivers[i] == if s.drivers[i].matchedRiderId == Some(riderId)
                       then s.drivers[i].(status := Idle, matchedRiderId := None)
                       else s.drivers[i]
  {
    Sim(MapWhere(s.drivers, (d: Driver) => d.matchedRiderId == Some(riderId),
                 (d: Driver) => d.(status := Idle, matchedRiderId := None)),
        Filter(s.riders, OtherRider(riderId)))
  }

  /** After a cancellation no driver is still matched to that rider. */
  lemma CancelFreesDrivers(s: Sim, riderId: string)
    ensures forall i :: 0 <= i < |RideCancel(s, riderId).drivers| ==>
      RideCancel(s, riderId).drivers[i].matchedRiderId != Some(riderId)
  {
  }

  // ---------------------------------------------------------------------
  // Manual override
  // ---------------------------------------------------------------------

  /** `handleAdminOverride`: the driver's queue entry and last trip are
      both moved a day into the past. */
  function AdminOverride(drivers: seq<Driver>, driverId: string, now: real): (r: seq<Driver>)
    ensures |r| == |drivers|
    ensures forall i :: 0 <= i < |drivers| ==>
      r[i] == if drivers[i].id == driverId
              then drivers[i].(joinedQueueTime := now - DayMs, lastTripTime := now - DayMs)
              else drivers[i]
  {
    MapWhere(drivers, Scheduler.HasDriverId(driverId),
             (d: Driver) => d.(joinedQueueTime := now - DayMs, lastTripTime := now - DayMs))
  }

  /** Unlike the backend override, this one promotes: a driver that joined
      and drove within the last day scores at least as high afterwards, by
      a full day of idle and recency credit over a fresh driver. */
  lemma OverrideRaisesScore(drivers: seq<Driver>, driverId: string, now: real, i: int)
    requires 0 <= i < |drivers| && drivers[i].id == driverId
    requires drivers[i].joinedQueueTime >= now - DayMs && drivers[i].lastTripTime >= now - DayMs
    ensures Scheduler.FairnessScore(AdminOverride(drivers, driverId, now)[i], now) >=
            Scheduler.FairnessScore(drivers[i], now)
    ensures Scheduler.IdleSeconds(AdminOverride(drivers, driverId, now)[i], now) == 86400.0
  {
  }

  // ---------------------------------------------------------------------
  // Tick
  // ---------------------------------------------------------------------

  function HoldsRider(riderId: string): Driver -> bool {
    (d: Driver) => d.matchedRiderId == Some(riderId)
  }

  function StillActive(drivers: seq<Driver>): Rider -> bool {
    (x: Rider) => x.status != Matched || Lookup(drivers, HoldsRider(x.id)).Some?
  }

  /** A rider the tick keeps: not matched, or matched to some driver. */
  predicate HeldOrUnmatched(drivers: seq<Driver>, x: Rider) {
    x.status != Matched || exists k :: 0 <= k < |drivers| && drivers[k].matchedRiderId == Some(x.id)
  }

  /** The tick keeps every rider except a MATCHED one no driver holds. */
  function ActiveRiders(drivers: seq<Driver>, riders: seq<Rider>): (r: seq<Rider>)
    ensures forall i :: 0 <= i < |r| ==> r[i] in riders
    ensures forall i :: 0 <= i < |r| && r[i].status == Matched ==>
      exists k :: 0 <= k < |drivers| && drivers[k].matchedRiderId == Some(r[i].id)
    ensures forall i :: 0 <= i < |riders| && HeldOrUnmatched(drivers, riders[i]) ==> riders[i] in r
  {
    var r := Filter(riders, StillActive(drivers));
    forall i | 0 <= i < |r| && r[i].status == Matched
      ensures exists k :: 0 <= k < |drivers| && drivers[k].matchedRiderId == Some(r[i].id)
    {
      assert StillActive(drivers)(r[i]);
      var k := FindFirst(drivers, HoldsRider(r[i].id)).value;
      assert HoldsRider(r[i].id)(drivers[k]);
    }
    forall i | 0 <= i < |riders| && HeldOrUnmatched(drivers, riders[i])
      ensures riders[i] in r
    {
      if riders[i].status == Matched {
        var k :| 0 <= k < |drivers| && drivers[k].matchedRiderId == Some(riders[i].id);
        assert HoldsRider(riders[i].id)(drivers[k]);
      }
      assert StillActive(drivers)(riders[i]);
    }
    r
  }
}
