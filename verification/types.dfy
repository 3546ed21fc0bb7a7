/** The simulation's shared records (drivers, riders, match logs) and the
    process-wide fairness weights. */
module Types {
  import opened Util

  datatype Location = Location(lat: real, lng: real)

  /** Great-circle distance between two points. The haversine formula is
      floating-point trigonometry and is left abstract: every operation that
      needs a distance takes one of these as a parameter. */
  type Distance = (Location, Location) -> real

  /** `EntityStatus`; `Other` holds any status string a socket event writes
      that is none of the four named ones. */
  datatype Status = Idle | Matched | EnRoute | Completed | Other(name: string)

  /** Maps a wire status string to a status. */
  function ParseStatus(s: string): (st: Status)
    ensures st == Idle <==> s == "IDLE"
    ensures st.Other? ==> st.name == s
  {
    if s == "IDLE" then Idle
    else if s == "MATCHED" then Matched
    else if s == "EN_ROUTE" then EnRoute
    else if s == "COMPLETED" then Completed
    else Other(s)
  }

  datatype Driver = Driver(
    id: string,
    location: Location,
    status: Status,
    earnings: real,
    totalTrips: int,
    matchedRiderId: Option<string>,
    winId: Option<string>,
    rating: real,
    lastTripTime: real,     // milliseconds
    joinedQueueTime: real)  // milliseconds

  datatype Rider = Rider(
    id: string,
    location: Location,
    destination: Location,
    requestTime: real,
    waitTime: real,         // seconds
    status: Status,
    priorityScore: real,
    message: Option<string>,
    targetWinId: Option<string>)

  /** One audit record per match. The free-text `reason` of the source is
      kept as its three ingredients: the winner's station, the number of
      rivals it beat, and its idle seconds. The random log id is left out. */
  datatype MatchLog = MatchLog(
    timestamp: real,
    riderId: string,
    driverId: string,
    distance: real,
    riderWaitTime: real,
    fairnessScore: real,
    competitors: int,
    station: Option<string>,
    idleSeconds: real)

  // Fairness weights: idle time, recency of last trip, trip equity, rating.
  const WeightIdle: real := 0.5
  const WeightRecency: real := 0.3
  const WeightTrips: real := 0.15
  const WeightRating: real := 0.05
}
