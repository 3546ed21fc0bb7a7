/** The passenger app's own bookkeeping: which stations it offers, the
    three-free-rides promotion counted from the ride history, the charge
    at the end of a trip, the affordability check before a request, and
    the top-up bonus of the wallet screen. */
module PassengerApp {
  import opened Util
  import opened Types
  import Ordering

  /** Points a paid ride costs. */
  const RidePointCost: real := 2.0
  /** Rides a new passenger takes for free. */
  const MaxFreeRides: int := 3
  /** Stations farther than this (km) are out of zone. */
  const ServiceRadiusKm: real := 2.0

  // ---------------------------------------------------------------------
  // Zoning
  // ---------------------------------------------------------------------

  datatype Zone = Zone(id: string, name: string, location: Location)

  datatype NearbyStation = NearbyStation(zone: Zone, distance: real)

  function WithDistances(zones: seq<Zone>, here: Location, dist: Distance): (r: seq<NearbyStation>)
    ensures |r| == |zones|
    ensures forall i :: 0 <= i < |r| ==> r[i] == NearbyStation(zones[i], dist(here, zones[i].location))
  {
    seq(|zones|, i requires 0 <= i < |zones| => NearbyStation(zones[i], dist(here, zones[i].location)))
  }

  /** Ascending distance, as a descending key. */
  function NearKey(s: NearbyStation): Ordering.Key {
    Ordering.Key(0, -s.distance)
  }

  function InRadius(s: NearbyStation): bool {
    s.distance <= ServiceRadiusKm
  }

  /** Ascending by distance. */
  predicate NearestFirst(r: seq<NearbyStation>) {
    forall i, j :: 0 <= i < j < |r| ==> r[i].distance <= r[j].distance
  }

  function SortedByDistance(zones: seq<Zone>, here: Location, dist: Distance): (r: seq<NearbyStation>)
    ensures |r| == |zones|
    ensures NearestFirst(r)
    ensures forall i :: 0 <= i < |r| ==> r[i] in WithDistances(zones, here, dist)
    ensures forall k :: 0 <= k < |zones| ==> NearbyStation(zones[k], dist(here, zones[k].location)) in r
  {
    var all := WithDistances(zones, here, dist);
    var r := Ordering.SortDesc(all, NearKey);
    forall i, j | 0 <= i < j < |r| ensures r[i].distance <= r[j].distance {
      assert Ordering.KeyLe(NearKey(r[j]), NearKey(r[i]));
    }
    forall k | 0 <= k < |zones| ensures NearbyStation(zones[k], dist(here, zones[k].location)) in r {
      assert all[k] in r;
    }
    r
  }

  /** `availableStations`: nothing without a location; otherwise the
      stations nearest first, keeping those within the service radius and
      the nearest one whatever its distance. */
  function AvailableStations(myLocation: Option<Location>, zones: seq<Zone>, dist: Distance): (r: seq<NearbyStation>)
    ensures myLocation.None? ==> r == []
    ensures myLocation.Some? && |zones| > 0 ==> |r| > 0
    ensures NearestFirst(r)
    ensures myLocation.Some? ==> forall i :: 0 <= i < |r| ==>
      r[i] in WithDistances(zones, myLocation.value, dist) && (i == 0 || r[i].distance <= ServiceRadiusKm)
    ensures myLocation.Some? && |r| > 0 ==>
      forall k :: 0 <= k < |zones| ==> r[0].distance <= dist(myLocation.value, zones[k].location)
    ensures myLocation.Some? ==> forall k :: 0 <= k < |zones| && dist(myLocation.value, zones[k].location) <= ServiceRadiusKm ==>
      NearbyStation(zones[k], dist(myLocation.value, zones[k].location)) in r
  {
    match myLocation
    case None => []
    case Some(here) =>
      var sorted := SortedByDistance(zones, here, dist);
      if |sorted| == 0 then []
      else
        var r := [sorted[0]] + Filter(sorted[1..], InRadius);
        KeptStationsFacts(zones, here, dist, sorted);
        r
  }

  /** What keeping the nearest station plus those in radius gives. */
  lemma KeptStationsFacts(zones: seq<Zone>, here: Location, dist: Distance, sorted: seq<NearbyStation>)
    requires sorted == SortedByDistance(zones, here, dist) && |sorted| > 0
    ensures
      var r := [sorted[0]] + Filter(sorted[1..], InRadius);
      && NearestFirst(r)
      && (forall i :: 0 <= i < |r| ==> r[i] in WithDistances(zones, here, dist) && (i == 0 || r[i].distance <= ServiceRadiusKm))
      && (forall k :: 0 <= k < |zones| ==> r[0].distance <= dist(here, zones[k].location))
      && (forall k :: 0 <= k < |zones| && dist(here, zones[k].location) <= ServiceRadiusKm ==>
            NearbyStation(zones[k], dist(here, zones[k].location)) in r)
  {
    NearestHeadBelowAll(zones, here, dist, sorted);
    KeptInRadiusListed(zones, here, dist, sorted);
    KeptAreStations(zones, here, dist, sorted);
    KeptNearestFirst(sorted);
  }

  lemma KeptAreStations(zones: seq<Zone>, here: Location, dist: Distance, sorted: seq<NearbyStation>)
    requires |sorted| > 0 && forall i :: 0 <= i < |sorted| ==> sorted[i] in WithDistances(zones, here, dist)
    ensures var r := [sorted[0]] + Filter(sorted[1..], InRadius);
      forall i :: 0 <= i < |r| ==> r[i] in WithDistances(zones, here, dist) && (i == 0 || r[i].distance <= ServiceRadiusKm)
  {
    var tail := sorted[1..];
    var rest := Filter(tail, InRadius);
    var r := [sorted[0]] + rest;
    forall i | 0 <= i < |r| ensures r[i] in WithDistances(zones, here, dist) && (i == 0 || r[i].distance <= ServiceRadiusKm) {
      if i > 0 {
        assert r[i] == rest[i - 1];
        var m :| 0 <= m < |tail| && tail[m] == r[i];
        assert tail[m] == sorted[m + 1];
      }
    }
  }

  lemma KeptNearestFirst(sorted: seq<NearbyStation>)
    requires |sorted| > 0 && NearestFirst(sorted)
    ensures NearestFirst([sorted[0]] + Filter(sorted[1..], InRadius))
  {
    TailNearestFirst(sorted);
    FilterNearestFirst(sorted[1..]);
    HeadBelowFiltered(sorted);
    ConsNearestFirst(sorted[0], Filter(sorted[1..], InRadius));
  }

  lemma NearestHeadBelowAll(zones: seq<Zone>, here: Location, dist: Distance, sorted: seq<NearbyStation>)
    requires sorted == SortedByDistance(zones, here, dist) && |sorted| > 0
    ensures forall k :: 0 <= k < |zones| ==> sorted[0].distance <= dist(here, zones[k].location)
  {
    forall k | 0 <= k < |zones| ensures sorted[0].distance <= dist(here, zones[k].location) {
      var st := NearbyStation(zones[k], dist(here, zones[k].location));
      var j :| 0 <= j < |sorted| && sorted[j] == st;
    }
  }

  lemma KeptInRadiusListed(zones: seq<Zone>, here: Location, dist: Distance, sorted: seq<NearbyStation>)
    requires sorted == SortedByDistance(zones, here, dist) && |sorted| > 0
    ensures forall k :: 0 <= k < |zones| && dist(here, zones[k].location) <= ServiceRadiusKm ==>
      NearbyStation(zones[k], dist(here, zones[k].location)) in [sorted[0]] + Filter(sorted[1..], InRadius)
  {
    var tail := sorted[1..];
    forall k | 0 <= k < |zones| && dist(here, zones[k].location) <= ServiceRadiusKm
      ensures NearbyStation(zones[k], dist(here, zones[k].location)) in [sorted[0]] + Filter(tail, InRadius)
    {
      var st := NearbyStation(zones[k], dist(here, zones[k].location));
      var j :| 0 <= j < |sorted| && sorted[j] == st;
      if j > 0 {
        assert tail[j - 1] == st;
        assert InRadius(tail[j - 1]);
        assert st in Filter(tail, InRadius);
      }
    }
  }

  lemma TailNearestFirst(s: seq<NearbyStation>)
    requires NearestFirst(s) && |s| > 0
    ensures NearestFirst(s[1..])
  {
    var tail := s[1..];
    forall i, j | 0 <= i < j < |tail| ensures tail[i].distance <= tail[j].distance {
      assert tail[i] == s[i + 1] && tail[j] == s[j + 1];
    }
  }

  /** The head of a nearest-first list is no farther than anything the
      filter keeps from its tail. */
  lemma HeadBelowFiltered(s: seq<NearbyStation>)
    requires NearestFirst(s) && |s| > 0
    ensures forall j :: 0 <= j < |Filter(s[1..], InRadius)| ==> s[0].distance <= Filter(s[1..], InRadius)[j].distance
  {
    var tail := s[1..];
    var t := Filter(tail, InRadius);
    forall j | 0 <= j < |t| ensures s[0].distance <= t[j].distance {
      assert t[j] in tail;
      var m :| 0 <= m < |tail| && tail[m] == t[j];
      assert tail[m] == s[m + 1];
    }
  }

  lemma ConsNearestFirst(x: NearbyStation, t: seq<NearbyStation>)
    requires NearestFirst(t)
    requires forall j :: 0 <= j < |t| ==> x.distance <= t[j].distance
    ensures NearestFirst([x] + t)
  {
    var f := [x] + t;
    forall i, j | 0 <= i < j < |f| ensures f[i].distance <= f[j].distance {
      assert f[j] == t[j - 1];
      if i > 0 {
        assert f[i] == t[i - 1];
      }
    }
  }

  /** The in-radius filter keeps the nearest-first order. */
  lemma {:induction false} FilterNearestFirst(s: seq<NearbyStation>)
    requires NearestFirst(s)
    ensures NearestFirst(Filter(s, InRadius))
    decreases |s|
  {
    if |s| > 0 {
      TailNearestFirst(s);
      FilterNearestFirst(s[1..]);
      if InRadius(s[0]) {
        assert Filter(s, InRadius) == [s[0]] + Filter(s[1..], InRadius);
        HeadBelowFiltered(s);
        ConsNearestFirst(s[0], Filter(s[1..], InRadius));
      } else {
        assert Filter(s, InRadius) == Filter(s[1..], InRadius);
      }
    }
  }

  /** `isOutOfZone`: the nearest station is beyond the service radius. */
  predicate IsOutOfZone(available: seq<NearbyStation>) {
    |available| > 0 && available[0].distance > ServiceRadiusKm
  }

  /** Out of zone exactly when the location is known, there are stations,
      and none of them is within the radius. */
  lemma OutOfZoneIffNoStationNear(myLocation: Option<Location>, zones: seq<Zone>, dist: Distance)
    ensures IsOutOfZone(AvailableStations(myLocation, zones, dist)) <==>
      myLocation.Some? && |zones| > 0 && forall k :: 0 <= k < |zones| ==> dist(myLocation.value, zones[k].location) > ServiceRadiusKm
  {
    var r := AvailableStations(myLocation, zones, dist);
    if myLocation.Some? && |zones| > 0 {
      var here := myLocation.value;
      if IsOutOfZone(r) {
        forall k | 0 <= k < |zones| ensures dist(here, zones[k].location) > ServiceRadiusKm {
          assert r[0].distance <= dist(here, zones[k].location);
        }
      } else {
        var k :| 0 <= k < |zones| && NearbyStation(zones[k], dist(here, zones[k].location)) == r[0] by {
          assert r[0] in WithDistances(zones, here, dist);
        }
      }
    }
  }

  // ---------------------------------------------------------------------
  // Wallet and history
  // ---------------------------------------------------------------------

  datatype EntryKind = RideEntry | TopupEntry

  datatype HistoryEntry = HistoryEntry(kind: EntryKind, amount: real)

  datatype Wallet = Wallet(balance: real, history: seq<HistoryEntry>)   // newest first

  function IsRide(h: HistoryEntry): bool {
    h.kind == RideEntry
  }

  function RideHistoryCount(w: Wallet): nat {
    Count(w.history, IsRide)
  }

  /** `freeRidesLeft`: the promotion's rides not yet taken, never negative. */
  function FreeRidesLeft(w: Wallet): (n: int)
    ensures n >= 0
    ensures n == 0 <==> RideHistoryCount(w) >= MaxFreeRides
    ensures n > 0 ==> n + RideHistoryCount(w) == MaxFreeRides
  {
    if MaxFreeRides - RideHistoryCount(w) > 0 then MaxFreeRides - RideHistoryCount(w) else 0
  }

  predicate IsFreeRideEligible(w: Wallet) {
    FreeRidesLeft(w) > 0
  }

  /** `handleTripComplete`: the first three rides are free and logged at 0;
      later ones take 2 points and are logged at -2. */
  function CompleteTrip(w: Wallet): (w': Wallet)
    ensures RideHistoryCount(w) < MaxFreeRides ==> w'.balance == w.balance && w'.history == [HistoryEntry(RideEntry, 0.0)] + w.history
    ensures RideHistoryCount(w) >= MaxFreeRides ==>
      w'.balance == w.balance - RidePointCost && w'.history == [HistoryEntry(RideEntry, -RidePointCost)] + w.history
    ensures RideHistoryCount(w') == RideHistoryCount(w) + 1
  {
    var isFree := RideHistoryCount(w) < MaxFreeRides;
    var amount := if isFree then 0.0 else -RidePointCost;
    var w' := Wallet(if isFree then w.balance else w.balance - RidePointCost, [HistoryEntry(RideEntry, amount)] + w.history);
    assert w'.history[1..] == w.history;
    w'
  }

  function CompleteTrips(w: Wallet, n: nat): Wallet
    decreases n
  {
    if n == 0 then w else CompleteTrips(CompleteTrip(w), n - 1)
  }

  /** Over any number of trips from a fresh history, only the rides after
      the third are paid for. */
  lemma {:induction false} PaidRidesAfterThree(w: Wallet, n: nat)
    ensures CompleteTrips(w, n).balance ==
      w.balance - RidePointCost * (PaidCount(RideHistoryCount(w), n) as real)
    ensures RideHistoryCount(CompleteTrips(w, n)) == RideHistoryCount(w) + n
    decreases n
  {
    if n > 0 {
      PaidRidesAfterThree(CompleteTrip(w), n - 1);
    }
  }

  /** How many of `n` further rides are paid, after `done` rides. */
  function PaidCount(done: nat, n: nat): nat {
    var freeLeft := if MaxFreeRides - done > 0 then MaxFreeRides - done else 0;
    if n <= freeLeft then 0 else n - freeLeft
  }

  /** A fresh passenger pays nothing for three rides and 2 points for each
      one after. */
  lemma FreshPassengerCost(balance: real, n: nat)
    ensures CompleteTrips(Wallet(balance, []), n).balance ==
      balance - RidePointCost * ((if n <= 3 then 0 else n - 3) as real)
  {
    PaidRidesAfterThree(Wallet(balance, []), n);
  }

  // ---------------------------------------------------------------------
  // Requesting a ride
  // ---------------------------------------------------------------------

  datatype RequestReply = NeedsTopup | NeedsStation | Requested(targetWinId: string)

  predicate CanAfford(w: Wallet) {
    w.balance >= RidePointCost || IsFreeRideEligible(w)
  }

  /** `handleRequestRide`: refuse without points or a free ride, then
      without a chosen station; otherwise the request targets it. */
  function RequestRide(w: Wallet, stationId: string): (r: RequestReply)
    ensures r == NeedsTopup <==> w.balance < RidePointCost && RideHistoryCount(w) >= MaxFreeRides
    ensures r == NeedsStation <==> CanAfford(w) && stationId == ""
    ensures r.Requested? ==> r.targetWinId == stationId
  {
    if !CanAfford(w) then NeedsTopup
    else if stationId == "" then NeedsStation
    else Requested(stationId)
  }

  /** A request the app lets through never drives the balance negative when
      its trip completes. */
  lemma AcceptedRequestKeepsBalance(w: Wallet, stationId: string)
    requires w.balance >= 0.0
    requires RequestRide(w, stationId).Requested?
    ensures CompleteTrip(w).balance >= 0.0
  {
  }

  // ---------------------------------------------------------------------
  // Top-up bonus
  // ---------------------------------------------------------------------

  /** A wallet promotion card: a top-up bonus, or the free-ride card. */
  datatype Promo = Promo(id: string, minTopup: real, bonus: real, isRide: bool)

  /** The cards the wallet screen ships with. */
  const WalletPromos: seq<Promo> := [
    Promo("P1", 50.0, 10.0, false),
    Promo("P2", 100.0, 20.0, false),
    Promo("P3", 0.0, 0.0, true)]

  function BonusApplies(amount: real): Promo -> bool {
    (p: Promo) => !p.isRide && amount >= p.minTopup
  }

  /** The bonus as written: the first top-up card the amount reaches. */
  function FirstBonusAsWritten(promos: seq<Promo>, amount: real): (b: real)
    ensures FindFirst(promos, BonusApplies(amount)).None? ==> b == 0.0
    ensures FindFirst(promos, BonusApplies(amount)).Some? ==> b == promos[FindFirst(promos, BonusApplies(amount)).value].bonus
  {
    match Lookup(promos, BonusApplies(amount))
    case None => 0.0
    case Some(p) => p.bonus
  }

  /** `handleConfirmTopup` as written: an empty entry does nothing;
      otherwise the amount plus the first card's bonus is credited. */
  function ConfirmTopupAsWritten(w: Wallet, entered: string, amount: real, promos: seq<Promo>): (w': Wallet)
    ensures entered == "" ==> w' == w
    ensures entered != "" ==>
      var total := amount + FirstBonusAsWritten(promos, amount);
      w'.balance == w.balance + total && w'.history == [HistoryEntry(TopupEntry, total)] + w.history
  {
    if entered == "" then w
    else
      var total := amount + FirstBonusAsWritten(promos, amount);
      Wallet(w.balance + total, [HistoryEntry(TopupEntry, total)] + w.history)
  }

  /** The card "top up 100, get 120" is never honoured: 100 reaches the
      50-baht card first and is credited 110. */
  lemma HundredGetsFirstCard()
    ensures ConfirmTopupAsWritten(Wallet(0.0, []), "100", 100.0, WalletPromos).balance == 110.0
  {
    assert BonusApplies(100.0)(WalletPromos[0]);
    assert FindFirst(WalletPromos, BonusApplies(100.0)) == Some(0);
  }

  /** The largest bonus among the cards the amount reaches (0 if none). */
  function BestBonus(promos: seq<Promo>, amount: real): (b: real)
    ensures forall i :: 0 <= i < |promos| && BonusApplies(amount)(promos[i]) ==> promos[i].bonus <= b
    ensures b == 0.0 || exists i :: 0 <= i < |promos| && BonusApplies(amount)(promos[i]) && promos[i].bonus == b
  {
    if |promos| == 0 then 0.0
    else
      var rest := BestBonus(promos[1..], amount);
      var b := if BonusApplies(amount)(promos[0]) && promos[0].bonus > rest then promos[0].bonus else rest;
      assert forall i :: 1 <= i < |promos| ==> promos[i] == promos[1..][i - 1];
      b
  }

  /** The top-up the cards advertise: amount plus the best bonus reached. */
  function ConfirmTopup(w: Wallet, entered: string, amount: real, promos: seq<Promo>): (w': Wallet)
    ensures entered == "" ==> w' == w
    ensures entered != "" ==>
      var total := amount + BestBonus(promos, amount);
      w'.balance == w.balance + total && w'.history == [HistoryEntry(TopupEntry, total)] + w.history
  {
    if entered == "" then w
    else
      var total := amount + BestBonus(promos, amount);
      Wallet(w.balance + total, [HistoryEntry(TopupEntry, total)] + w.history)
  }

  /** Every card's promise is kept: topping up at least its minimum earns
      at least its bonus, so 100 baht is credited 120. */
  lemma CardPromiseKept(w: Wallet, entered: string, amount: real, promos: seq<Promo>, i: int)
    requires entered != "" && 0 <= i < |promos| && !promos[i].isRide && amount >= promos[i].minTopup
    ensures ConfirmTopup(w, entered, amount, promos).balance >= w.balance + amount + promos[i].bonus
  {
    assert BonusApplies(amount)(promos[i]);
  }

  lemma HundredGetsAdvertisedBonus()
    ensures ConfirmTopup(Wallet(0.0, []), "100", 100.0, WalletPromos).balance == 120.0
  {
    CardPromiseKept(Wallet(0.0, []), "100", 100.0, WalletPromos, 1);
    var b := BestBonus(WalletPromos, 100.0);
    assert b == 0.0 || b == 10.0 || b == 20.0;
  }
}
