/** The driver lifecycle: station geofencing, invite codes, registration,
    OTP login, going online into a station queue, queue status, and the
    trip-accept lock. Redis keys are maps and sets of the state, the drivers
    table is a row sequence, random ids and OTPs are parameters, and the
    clock reading `nowMs` (milliseconds) is a parameter. */
module DriverService {
  import opened Util
  import opened Types
  import opened Accounts
  import FairQueue
  import Credit
  import Promotion

  // ---------------------------------------------------------------------
  // Stations and geofence
  // ---------------------------------------------------------------------

  datatype Station = Station(id: string, name: string, location: Location, radius: real)

  /** The geofence radius in metres, the same for every station. */
  const ThresholdMeters: real := 100.0

  function WithinThreshold(here: Location, distMeters: Distance): Station -> bool {
    (st: Station) => distMeters(here, st.location) <= ThresholdMeters
  }

  /** `findNearestStation`: despite its name, the first station in
      insertion order within 100 m, not the nearest one. */
  function FindNearestStation(stations: seq<Station>, here: Location, distMeters: Distance): (r: Option<string>)
    ensures r.None? <==> forall i :: 0 <= i < |stations| ==> distMeters(here, stations[i].location) > ThresholdMeters
    ensures r.Some? ==>
      exists k :: 0 <= k < |stations| && stations[k].id == r.value &&
                  distMeters(here, stations[k].location) <= ThresholdMeters &&
                  forall j :: 0 <= j < k ==> distMeters(here, stations[j].location) > ThresholdMeters
  {
    match FindFirst(stations, WithinThreshold(here, distMeters))
    case None => None
    case Some(k) => Some(stations[k].id)
  }

  /** The per-station `radius` is never consulted: stations that differ
      only in their radii resolve identically. */
  lemma RadiusIgnored(stations: seq<Station>, radii: seq<real>, here: Location, distMeters: Distance)
    requires |radii| == |stations|
    ensures
      var resized := seq(|stations|, i requires 0 <= i < |stations| => stations[i].(radius := radii[i]));
      FindNearestStation(resized, here, distMeters) == FindNearestStation(stations, here, distMeters)
  {
    var resized := seq(|stations|, i requires 0 <= i < |stations| => stations[i].(radius := radii[i]));
    FindFirstSamePattern(resized, stations, WithinThreshold(here, distMeters), WithinThreshold(here, distMeters));
  }

  // ---------------------------------------------------------------------
  // Invite codes
  // ---------------------------------------------------------------------

  datatype InviteType = StationInvite | IndividualInvite | TempInvite

  datatype InviteCode = InviteCode(
    code: string,
    winId: string,
    kind: InviteType,
    maxUses: real,
    usedCount: int,
    expiresAt: string,
    note: Option<string>,
    createdBy: string,
    isActive: bool)

  datatype CreateInviteCodeDto = CreateInviteCodeDto(
    code: string, winId: string, kind: InviteType, maxUses: real, expiresAt: string, note: Option<string>)

  datatype InviteError = CodeExists

  /** `createInviteCode`: a new code starts unused, active, created by
      ADMIN; an existing code is refused and nothing changes. */
  function CreateInviteCode(invites: map<string, InviteCode>, dto: CreateInviteCodeDto)
    : (r: (Option<InviteError>, map<string, InviteCode>))
    ensures r.0.Some? <==> dto.code in invites
    ensures r.0.Some? ==> r.1 == invites
    ensures r.0.None? ==>
      && r.1.Keys == invites.Keys + {dto.code}
      && r.1[dto.code] == InviteCode(dto.code, dto.winId, dto.kind, dto.maxUses, 0, dto.expiresAt, dto.note, "ADMIN", true)
      && forall c :: c in invites ==> r.1[c] == invites[c]
  {
    if dto.code in invites then (Some(CodeExists), invites)
    else
      (None, invites[dto.code := InviteCode(dto.code, dto.winId, dto.kind, dto.maxUses, 0, dto.expiresAt,
                                            dto.note, "ADMIN", true)])
  }

  // ---------------------------------------------------------------------
  // Service state
  // ---------------------------------------------------------------------

  /** The Redis trip hash `trip:<id>`. */
  datatype TripHash = TripHash(passengerId: Option<string>, status: Option<string>, driverId: Option<string>)

  datatype State = State(
    drivers: seq<DriverAccount>,
    invites: map<string, InviteCode>,
    otps: map<string, string>,            // phone to pending OTP
    queue: FairQueue.Store,
    tripLocks: map<string, string>,       // trip id to the driver holding it
    trips: map<string, TripHash>,
    ledger: Credit.Ledger)

  // ---------------------------------------------------------------------
  // Registration
  // ---------------------------------------------------------------------

  datatype RegisterDto = RegisterDto(
    phoneNumber: string, fullName: string, licensePlate: string, inviteCode: string, profilePicUrl: Option<string>)

  datatype RegisterError = InvalidInvite | InviteFull | PhoneTaken

  datatype RegisterReply = Registered(driverId: string) | RegisterFailed(error: RegisterError)

  function NewDriver(dto: RegisterDto, newId: string, winId: string): DriverAccount {
    DriverAccount(newId, dto.phoneNumber, dto.fullName, dto.licensePlate, dto.inviteCode, winId,
                  "PENDING", "OFFLINE", 5.0, 0, dto.profilePicUrl, None, None, None, None)
  }

  /** `register`: the invite must exist, be active and have uses left, and
      the phone must be new; the driver is saved PENDING at the invite's
      station and the invite counts one more use. `newId` stands for the
      random `D-<n>` id. */
  function Register(s: State, dto: RegisterDto, newId: string): (r: (RegisterReply, State))
    ensures r.0 == RegisterFailed(InvalidInvite) <==>
      dto.inviteCode !in s.invites || !s.invites[dto.inviteCode].isActive
    ensures r.0 == RegisterFailed(InviteFull) <==>
      dto.inviteCode in s.invites && s.invites[dto.inviteCode].isActive &&
      s.invites[dto.inviteCode].usedCount as real >= s.invites[dto.inviteCode].maxUses
    ensures r.0 == RegisterFailed(PhoneTaken) <==>
      dto.inviteCode in s.invites && s.invites[dto.inviteCode].isActive &&
      (s.invites[dto.inviteCode].usedCount as real) < s.invites[dto.inviteCode].maxUses &&
      Lookup(s.drivers, DriverWithPhone(dto.phoneNumber)).Some?
    ensures r.0.RegisterFailed? ==> r.1 == s
    ensures r.0.Registered? ==>
      var inv := s.invites[dto.inviteCode];
      && r.0.driverId == newId
      && Lookup(r.1.drivers, DriverWithId(newId)) == Some(NewDriver(dto, newId, inv.winId))
      && r.1.drivers == SaveDriver(s.drivers, NewDriver(dto, newId, inv.winId))
      && r.1.invites == s.invites[dto.inviteCode := inv.(usedCount := inv.usedCount + 1)]
      && r.1 == s.(drivers := r.1.drivers, invites := r.1.invites)
  {
    if dto.inviteCode !in s.invites || !s.invites[dto.inviteCode].isActive then (RegisterFailed(InvalidInvite), s)
    else
      var inv := s.invites[dto.inviteCode];
      if inv.usedCount as real >= inv.maxUses then (RegisterFailed(InviteFull), s)
      else if Lookup(s.drivers, DriverWithPhone(dto.phoneNumber)).Some? then (RegisterFailed(PhoneTaken), s)
      else
        var drivers := SaveDriver(s.drivers, NewDriver(dto, newId, inv.winId));
        (Registered(newId), s.(drivers := drivers, invites := s.invites[dto.inviteCode := inv.(usedCount := inv.usedCount + 1)]))
  }

  /** An invite never counts more uses than it allows. */
  predicate InvitesWithinLimit(invites: map<string, InviteCode>) {
    forall c :: c in invites ==> 0 <= invites[c].usedCount && invites[c].usedCount as real <= invites[c].maxUses
  }

  /** Registration keeps every invite within its limit, for limits that are
      whole numbers (the form asks for a number of at least 1). */
  lemma RegisterKeepsInvitesWithinLimit(s: State, dto: RegisterDto, newId: string)
    requires InvitesWithinLimit(s.invites)
    requires forall c :: c in s.invites ==> s.invites[c].maxUses == s.invites[c].maxUses.Floor as real
    ensures InvitesWithinLimit(Register(s, dto, newId).1.invites)
  {
    var r := Register(s, dto, newId);
    if r.0.Registered? {
      var inv := s.invites[dto.inviteCode];
      assert inv.usedCount < inv.maxUses.Floor;
    }
  }

  /** A newly created code is within its limit, so creation keeps the
      invariant too. */
  lemma CreateKeepsInvitesWithinLimit(invites: map<string, InviteCode>, dto: CreateInviteCodeDto)
    requires InvitesWithinLimit(invites) && dto.maxUses >= 1.0
    ensures InvitesWithinLimit(CreateInviteCode(invites, dto).1)
  {
  }

  // ---------------------------------------------------------------------
  // OTP login
  // ---------------------------------------------------------------------

  /** `requestOtp`: the drawn code (a parameter) replaces any pending one. */
  function RequestOtp(s: State, phone: string, otp: string): (s': State)
    ensures s'.otps == s.otps[phone := otp]
    ensures s' == s.(otps := s'.otps)
  {
    s.(otps := s.otps[phone := otp])
  }

  /** The identity a login token is signed for, plus the profile data sent
      with it. */
  datatype Grant = Grant(driverId: string, name: string, phone: string, winId: string, hasPin: bool,
                         profilePic: Option<string>)

  datatype LoginReply =
    | BadOtp
    | NotRegistered
    | AwaitingApproval(driverId: string)
    | LoggedIn(grant: Grant)

  /** The OTP step of `login`: the enabled test code `1234` passes without
      a stored code; any other code must equal the stored one and is then
      consumed. */
  function CheckOtp(otps: map<string, string>, phone: string, otp: string, allowTestOtp: bool)
    : (r: (bool, map<string, string>))
    ensures !r.0 ==> r.1 == otps
    ensures r.0 <==> (otp == "1234" && allowTestOtp) || (phone in otps && otps[phone] == otp)
    ensures r.0 && !(otp == "1234" && allowTestOtp) ==> r.1 == otps - {phone}
    ensures otp == "1234" && allowTestOtp ==> r.1 == otps
  {
    var isTest := otp == "1234" && allowTestOtp;
    var stored := if phone in otps then Some(otps[phone]) else None;
    if !isTest && stored != Some(otp) then (false, otps)
    else if !isTest then (true, otps - {phone})
    else (true, otps)
  }

  function GrantFor(d: DriverAccount): Grant {
    Grant(d.id, d.name, d.phone, d.winId, Truthy(d.pinHash), d.profilePic)
  }

  /** `login` as written: after the OTP step, an unknown phone is not
      registered, a PENDING driver gets no token, and every other driver,
      whatever its approval status, gets one. */
  function LoginAsWritten(s: State, phone: string, otp: string, allowTestOtp: bool): (r: (LoginReply, State))
    ensures r.0 == BadOtp <==> !CheckOtp(s.otps, phone, otp, allowTestOtp).0
    ensures r.1 == s.(otps := CheckOtp(s.otps, phone, otp, allowTestOtp).1)
    ensures r.0 == NotRegistered <==>
      CheckOtp(s.otps, phone, otp, allowTestOtp).0 && Lookup(s.drivers, DriverWithPhone(phone)).None?
    ensures r.0.AwaitingApproval? <==>
      && CheckOtp(s.otps, phone, otp, allowTestOtp).0
      && Lookup(s.drivers, DriverWithPhone(phone)).Some?
      && Lookup(s.drivers, DriverWithPhone(phone)).value.approval == "PENDING"
    ensures r.0.LoggedIn? <==>
      && CheckOtp(s.otps, phone, otp, allowTestOtp).0
      && Lookup(s.drivers, DriverWithPhone(phone)).Some?
      && Lookup(s.drivers, DriverWithPhone(phone)).value.approval != "PENDING"
    ensures r.0.LoggedIn? ==> r.0.grant == GrantFor(Lookup(s.drivers, DriverWithPhone(phone)).value)
  {
    var (ok, otps) := CheckOtp(s.otps, phone, otp, allowTestOtp);
    if !ok then (BadOtp, s)
    else
      var s' := s.(otps := otps);
      match Lookup(s.drivers, DriverWithPhone(phone))
      case None => (NotRegistered, s')
      case Some(d) =>
        if d.approval == "PENDING" then (AwaitingApproval(d.id), s')
        else (LoggedIn(GrantFor(d)), s')
  }

  /** A driver the admin rejected logs in as if approved. */
  lemma RejectedDriverGetsToken()
    ensures
      var d := DriverAccount("D-1", "0800000000", "Rejected", "1AB-1", "WIN888", "WIN-CENTRAL-01",
                             "REJECTED", "OFFLINE", 5.0, 0, None, None, None, None, None);
      var s := State([d], map[], map["0800000000" := "123456"], FairQueue.Store(map[], map[]), map[], map[],
                     Credit.Ledger(map[], {}, [], [], Promotion.Engine([], map[])));
      LoginAsWritten(s, "0800000000", "123456", false).0 == LoggedIn(GrantFor(d))
  {
  }

  /** `login` with the approval gate the rest of the system implies: only
      an APPROVED driver gets a token; PENDING, REJECTED and SUSPENDED
      drivers are told they are not approved. */
  function Login(s: State, phone: string, otp: string, allowTestOtp: bool): (r: (LoginReply, State))
    ensures r.0 == BadOtp <==> !CheckOtp(s.otps, phone, otp, allowTestOtp).0
    ensures r.1 == s.(otps := CheckOtp(s.otps, phone, otp, allowTestOtp).1)
    ensures r.0.LoggedIn? <==>
      && CheckOtp(s.otps, phone, otp, allowTestOtp).0
      && Lookup(s.drivers, DriverWithPhone(phone)).Some?
      && Lookup(s.drivers, DriverWithPhone(phone)).value.approval == "APPROVED"
    ensures r.0.LoggedIn? ==> r.0.grant == GrantFor(Lookup(s.drivers, DriverWithPhone(phone)).value)
    ensures r.0 == NotRegistered <==>
      CheckOtp(s.otps, phone, otp, allowTestOtp).0 && Lookup(s.drivers, DriverWithPhone(phone)).None?
    ensures r.0.AwaitingApproval? <==>
      && CheckOtp(s.otps, phone, otp, allowTestOtp).0
      && Lookup(s.drivers, DriverWithPhone(phone)).Some?
      && Lookup(s.drivers, DriverWithPhone(phone)).value.approval != "APPROVED"
  {
    var (ok, otps) := CheckOtp(s.otps, phone, otp, allowTestOtp);
    if !ok then (BadOtp, s)
    else
      var s' := s.(otps := otps);
      match Lookup(s.drivers, DriverWithPhone(phone))
      case None => (NotRegistered, s')
      case Some(d) =>
        if d.approval != "APPROVED" then (AwaitingApproval(d.id), s')
        else (LoggedIn(GrantFor(d)), s')
  }

  /** The two agree on every driver that is PENDING or APPROVED. */
  lemma LoginAgreesOnPendingAndApproved(s: State, phone: string, otp: string, allowTestOtp: bool)
    requires
      var d := Lookup(s.drivers, DriverWithPhone(phone));
      d.Some? ==> d.value.approval == "PENDING" || d.value.approval == "APPROVED"
    ensures Login(s, phone, otp, allowTestOtp) == LoginAsWritten(s, phone, otp, allowTestOtp)
  {
  }

  /** An OTP is good for one login: the code just sent lets the driver in,
      and the same code a second time is refused (unless it is the enabled
      test code). */
  lemma OtpSingleUse(s: State, phone: string, otp: string, allowTestOtp: bool)
    requires !(otp == "1234" && allowTestOtp)
    ensures
      var s1 := RequestOtp(s, phone, otp);
      var (first, s2) := Login(s1, phone, otp, allowTestOtp);
      && first != BadOtp
      && Login(s2, phone, otp, allowTestOtp).0 == BadOtp
  {
  }

  // ---------------------------------------------------------------------
  // Going online
  // ---------------------------------------------------------------------

  datatype OnlineReply = Queued(winId: string) | Roaming

  /** The stats hash `goOnline` writes for a known driver (fields it does
      not name are kept). */
  function OnlineStats(old_: FairQueue.DriverStats, d: DriverAccount, lastTripTime: real): FairQueue.DriverStats {
    old_.(status := Some("IDLE"), rating := Some(d.rating), tripsToday := Some(d.totalTrips as real),
          lastTripTime := Some(lastTripTime))
  }

  function SetIdle(d: DriverAccount): DriverAccount {
    d.(currentStatus := "IDLE")
  }

  /** Marking a driver IDLE does not change which row has its id. */
  lemma SetIdleKeepsLookup(drivers: seq<DriverAccount>, driverId: string)
    ensures Lookup(MapWhere(drivers, DriverWithId(driverId), SetIdle), DriverWithId(driverId)).Some? <==>
            Lookup(drivers, DriverWithId(driverId)).Some?
  {
    var m := MapWhere(drivers, DriverWithId(driverId), SetIdle);
    forall j | 0 <= j < |drivers|
      ensures DriverWithId(driverId)(m[j]) == DriverWithId(driverId)(drivers[j])
    {
    }
  }

  /** The store after `goOnline`'s stats write: a driver with a row in
      `drivers` gets its hash refreshed with status IDLE; no queue changes. */
  function OnlineStore(q: FairQueue.Store, drivers: seq<DriverAccount>, driverId: string, lastTripTime: real)
    : (r: FairQueue.Store)
    requires FairQueue.ValidStore(q)
    ensures FairQueue.ValidStore(r)
    ensures r.queues == q.queues
    ensures FairQueue.Stats(r, driverId).status == Some("IDLE") <==>
              Lookup(drivers, DriverWithId(driverId)).Some? || FairQueue.Stats(q, driverId).status == Some("IDLE")
  {
    match Lookup(drivers, DriverWithId(driverId))
    case Some(d) => q.(stats := q.stats[driverId := OnlineStats(FairQueue.Stats(q, driverId), d, lastTripTime)])
    case None => q
  }

  /** Whether a driver who goes online at station `winId` is in its queue
      afterwards: a driver with an account row gets an IDLE stats hash and so
      joins; one without a row is there only if it already was, or if a stats
      hash left from before still reads IDLE. */
  predicate EndsQueued(s: State, driverId: string, winId: string) {
    || Lookup(s.drivers, DriverWithId(driverId)).Some?
    || FairQueue.ZScore(FairQueue.Queue(s.queue, winId), driverId).Some?
    || FairQueue.Stats(s.queue, driverId).status == Some("IDLE")
  }

  /** The shared steps of `goOnline`, given the `lastTripTime` value it
      writes: the driver row becomes IDLE, a known driver's stats hash is
      refreshed, and a driver inside a geofence joins that station's queue
      at the current whole second. The join's own reply is not looked at, so
      the reply is QUEUED even when the join refused. */
  function GoOnlineWith(s: State, driverId: string, here: Location, nowMs: int, lastTripTime: real,
                        stations: seq<Station>, distMeters: Distance): (r: (OnlineReply, State))
    requires FairQueue.ValidStore(s.queue)
    ensures FairQueue.ValidStore(r.1.queue)
    ensures r.0.Queued? <==> FindNearestStation(stations, here, distMeters).Some?
    ensures r.0.Queued? ==> r.0.winId == FindNearestStation(stations, here, distMeters).value
    ensures r.0.Queued? ==>
              (FairQueue.ZScore(FairQueue.Queue(r.1.queue, r.0.winId), driverId).Some? <==>
               EndsQueued(s, driverId, r.0.winId))
    ensures r.0.Roaming? ==> r.1.queue.queues == s.queue.queues
    ensures Lookup(s.drivers, DriverWithId(driverId)).Some? ==>
              FairQueue.Stats(r.1.queue, driverId).status == Some("IDLE")
    ensures |r.1.drivers| == |s.drivers|
    ensures forall i :: 0 <= i < |s.drivers| ==>
              r.1.drivers[i] == if s.drivers[i].id == driverId then SetIdle(s.drivers[i]) else s.drivers[i]
  {
    var drivers := MapWhere(s.drivers, DriverWithId(driverId), SetIdle);
    var store := OnlineStore(s.queue, drivers, driverId, lastTripTime);
    SetIdleKeepsLookup(s.drivers, driverId);
    match FindNearestStation(stations, here, distMeters)
    case Some(w) =>
      FairQueue.JoinLeavesMember(store, w, driverId, nowMs / 1000);
      assert FairQueue.Queue(store, w) == FairQueue.Queue(s.queue, w);
      (Queued(w), s.(drivers := drivers, queue := FairQueue.Join(store, w, driverId, nowMs / 1000).1))
    case None => (Roaming, s.(drivers := drivers, queue := store))
  }

  /** `goOnline` as written: `lastTripTime` is `Date.now()`, in
      milliseconds, while the join script subtracts it from a time in
      seconds. */
  function GoOnlineAsWritten(s: State, driverId: string, here: Location, nowMs: int,
                             stations: seq<Station>, distMeters: Distance): (r: (OnlineReply, State))
    requires FairQueue.ValidStore(s.queue)
    ensures FairQueue.ValidStore(r.1.queue)
    ensures r.0.Queued? <==> FindNearestStation(stations, here, distMeters).Some?
    ensures r.0.Queued? ==> r.0.winId == FindNearestStation(stations, here, distMeters).value
    ensures r.0.Queued? ==>
              (FairQueue.ZScore(FairQueue.Queue(r.1.queue, r.0.winId), driverId).Some? <==>
               EndsQueued(s, driverId, r.0.winId))
  {
    GoOnlineWith(s, driverId, here, nowMs, nowMs as real, stations, distMeters)
  }

  /** `goOnline` with `lastTripTime` written in seconds, the unit the join
      script reads it in. */
  function GoOnline(s: State, driverId: string, here: Location, nowMs: int,
                    stations: seq<Station>, distMeters: Distance): (r: (OnlineReply, State))
    requires FairQueue.ValidStore(s.queue)
    ensures FairQueue.ValidStore(r.1.queue)
    ensures r.0.Queued? <==> FindNearestStation(stations, here, distMeters).Some?
    ensures r.0.Queued? ==> r.0.winId == FindNearestStation(stations, here, distMeters).value
    ensures r.0.Queued? ==>
              (FairQueue.ZScore(FairQueue.Queue(r.1.queue, r.0.winId), driverId).Some? <==>
               EndsQueued(s, driverId, r.0.winId))
  {
    GoOnlineWith(s, driverId, here, nowMs, (nowMs / 1000) as real, stations, distMeters)
  }

  /** A one-station, one-driver state in which driver `id` is registered
      with the given trips and rating and has no stats hash yet. */
  function SoloState(id: string, trips: int, rating: real): State {
    var d := DriverAccount(id, "0800000000", id, "1AB-1", "WIN888", "W", "APPROVED", "OFFLINE", rating, trips,
                           None, None, None, None, None);
    State([d], map[], map[], FairQueue.Store(map[], map[]), map[], map[],
          Credit.Ledger(map[], {}, [], [], Promotion.Engine([], map[])))
  }

  /** A driver id with no account row and no stats hash, inside a geofence,
      is told QUEUED but is not in the queue: the join found no IDLE status
      and its refusal is not looked at. */
  lemma UnknownDriverToldQueued(nowMs: int)
    ensures
      var stations := [Station("W", "Station", Location(0.0, 0.0), 100.0)];
      var dist: Distance := (a: Location, b: Location) => 0.0;
      var r := GoOnline(SoloState("D-1", 0, 5.0), "D-2", Location(0.0, 0.0), nowMs, stations, dist);
      r.0 == Queued("W") && FairQueue.ZScore(FairQueue.Queue(r.1.queue, "W"), "D-2").None?
  {
    var stations := [Station("W", "Station", Location(0.0, 0.0), 100.0)];
    var dist: Distance := (a: Location, b: Location) => 0.0;
    assert FindNearestStation(stations, Location(0.0, 0.0), dist) == Some("W");
    var s := SoloState("D-1", 0, 5.0);
    assert !DriverWithId("D-2")(s.drivers[0]);
    assert !EndsQueued(s, "D-2", "W");
  }

  /** Going online near one station and later near another leaves the
      driver in both queues: the join script looks only at the target
      station's queue. */
  lemma DriverInTwoQueues(nowMs: int, laterMs: int)
    ensures
      var stations := [Station("W", "West", Location(0.0, 0.0), 100.0),
                       Station("E", "East", Location(5.0, 5.0), 100.0)];
      var dist: Distance := (a: Location, b: Location) => if a == b then 0.0 else 1000.0;
      var r1 := GoOnline(SoloState("D-1", 0, 5.0), "D-1", Location(0.0, 0.0), nowMs, stations, dist);
      var r2 := GoOnline(r1.1, "D-1", Location(5.0, 5.0), laterMs, stations, dist);
      && r1.0 == Queued("W") && r2.0 == Queued("E")
      && FairQueue.ZScore(FairQueue.Queue(r2.1.queue, "W"), "D-1").Some?
      && FairQueue.ZScore(FairQueue.Queue(r2.1.queue, "E"), "D-1").Some?
  {
    var stations := [Station("W", "West", Location(0.0, 0.0), 100.0),
                     Station("E", "East", Location(5.0, 5.0), 100.0)];
    var dist: Distance := (a: Location, b: Location) => if a == b then 0.0 else 1000.0;
    assert FindNearestStation(stations, Location(0.0, 0.0), dist) == Some("W");
    assert FindNearestStation(stations, Location(5.0, 5.0), dist) == Some("E");
    var s := SoloState("D-1", 0, 5.0);
    assert DriverWithId("D-1")(s.drivers[0]);
    var r1 := GoOnline(s, "D-1", Location(0.0, 0.0), nowMs, stations, dist);
    assert DriverWithId("D-1")(r1.1.drivers[0]);
    assert EndsQueued(r1.1, "D-1", "E");
  }

  /** The rank a driver gets going online alone at a station at `nowMs`. */
  function RankAfterOnline(id: string, trips: int, rating: real, nowMs: int, asWritten: bool): Option<real> {
    var stations := [Station("W", "Station", Location(0.0, 0.0), 100.0)];
    var dist: Distance := (a: Location, b: Location) => 0.0;
    var s := SoloState(id, trips, rating);
    var r := if asWritten then GoOnlineAsWritten(s, id, Location(0.0, 0.0), nowMs, stations, dist)
             else GoOnline(s, id, Location(0.0, 0.0), nowMs, stations, dist);
    FairQueue.ZScore(FairQueue.Queue(r.1.queue, "W"), id)
  }

  /** The rank of a driver going online alone: the stored rank of the
      stats just written, at the current whole second. */
  lemma RankAfterOnlineIs(id: string, trips: int, rating: real, nowMs: int, asWritten: bool)
    ensures
      var second := (nowMs / 1000) as real;
      var last := if asWritten then nowMs as real else second;
      RankAfterOnline(id, trips, rating, nowMs, asWritten) ==
        Some((second - last) * WeightRecency + (1.0 / MaxR(1.0, trips as real)) * WeightTrips
             + rating * WeightRating - second * WeightIdle)
  {
    var stations := [Station("W", "Station", Location(0.0, 0.0), 100.0)];
    var dist: Distance := (a: Location, b: Location) => 0.0;
    assert FindNearestStation(stations, Location(0.0, 0.0), dist) == Some("W");
  }

  /** As written, the milliseconds within the second decide the queue: A
      (1 trip, rating 5.0) goes online 999 ms into second 1000 and B (10
      trips, rating 4.0) at its start; B ranks about 299.5 above A. */
  lemma MillisecondsDecideRank()
    ensures
      var a := RankAfterOnline("A", 1, 5.0, 1000999, true);
      var b := RankAfterOnline("B", 10, 4.0, 1000000, true);
      a.Some? && b.Some? && a.value < b.value
  {
    RankAfterOnlineIs("A", 1, 5.0, 1000999, true);
    RankAfterOnlineIs("B", 10, 4.0, 1000000, true);
  }

  /** With seconds, the same two drivers rank by their stats: A above B. */
  lemma StatsDecideRank()
    ensures
      var a := RankAfterOnline("A", 1, 5.0, 1000999, false);
      var b := RankAfterOnline("B", 10, 4.0, 1000000, false);
      a.Some? && b.Some? && a.value > b.value
  {
    RankAfterOnlineIs("A", 1, 5.0, 1000999, false);
    RankAfterOnlineIs("B", 10, 4.0, 1000000, false);
  }

  /** With seconds, going online leaves no recency term: a driver joins at
      `tripsFactor * 0.15 + rating * 0.05 - second * 0.5`, the same for any
      millisecond within that second. */
  lemma OnlineRankHasNoRecency(id: string, trips: int, rating: real, nowMs: int)
    ensures
      var second := (nowMs / 1000) as real;
      RankAfterOnline(id, trips, rating, nowMs, false) ==
        Some((1.0 / MaxR(1.0, trips as real)) * WeightTrips + rating * WeightRating - second * WeightIdle)
  {
    RankAfterOnlineIs(id, trips, rating, nowMs, false);
  }

  // ---------------------------------------------------------------------
  // Queue status
  // ---------------------------------------------------------------------

  function HasEntryFor(id: string): FairQueue.Entry -> bool {
    (e: FairQueue.Entry) => e.driverId == id
  }

  datatype QueueStatus = RoamingStatus | QueuedStatus(winId: string, position: Option<nat>, score: Option<real>)

  /** `getQueueStatus`: no recorded station means roaming; otherwise the
      1-based place in that station's queue (`ZREVRANK + 1`) and the rank. */
  function GetQueueStatus(store: FairQueue.Store, driverId: string): (r: QueueStatus)
    requires FairQueue.ValidStore(store)
    ensures r.RoamingStatus? <==> !Truthy(FairQueue.Stats(store, driverId).currentWin)
    ensures r.QueuedStatus? ==>
      var q := FairQueue.Queue(store, r.winId);
      && r.winId == FairQueue.Stats(store, driverId).currentWin.value
      && r.score == FairQueue.ZScore(q, driverId)
      && (r.position.None? <==> FairQueue.ZScore(q, driverId).None?)
      && (r.position.Some? ==>
            && 1 <= r.position.value <= |q|
            && q[r.position.value - 1].driverId == driverId
            && forall j :: 0 <= j < r.position.value - 1 ==> FairQueue.Before(q[j], q[r.position.value - 1]))
  {
    var w := FairQueue.Stats(store, driverId).currentWin;
    if !Truthy(w) then RoamingStatus
    else
      var q := FairQueue.Queue(store, w.value);
      match FindFirst(q, HasEntryFor(driverId))
      case None => QueuedStatus(w.value, None, FairQueue.ZScore(q, driverId))
      case Some(k) => QueuedStatus(w.value, Some(k + 1), FairQueue.ZScore(q, driverId))
  }

  /** Dispatching the head moves everyone behind it up one place. */
  lemma PopMovesQueueUp(store: FairQueue.Store, winId: string, driverId: string)
    requires FairQueue.ValidStore(store)
    requires FairQueue.Stats(store, driverId).currentWin == Some(winId) && winId != ""
    requires GetQueueStatus(store, driverId).QueuedStatus?
    requires GetQueueStatus(store, driverId).position.Some?
    requires GetQueueStatus(store, driverId).position.value > 1
    ensures
      var s' := FairQueue.PopBest(store, winId).1;
      FairQueue.ValidStore(s') &&
      GetQueueStatus(s', driverId).QueuedStatus? &&
      GetQueueStatus(s', driverId).position == Some(GetQueueStatus(store, driverId).position.value - 1)
  {
    var q := FairQueue.Queue(store, winId);
    var p := GetQueueStatus(store, driverId).position.value;
    FairQueue.PopBestCorrect(store, winId);
    var s' := FairQueue.PopBest(store, winId).1;
    assert FairQueue.Queue(s', winId) == q[1..];
    var k' := FindFirst(q[1..], HasEntryFor(driverId));
    assert q[1..][p - 2].driverId == driverId;
    assert k' == Some(p - 2);
  }

  // ---------------------------------------------------------------------
  // Accepting a trip
  // ---------------------------------------------------------------------

  datatype AcceptReply = Accepted | TripTaken | PassengerBusy | InsufficientFunds

  /** The passenger named in the trip hash. A missing field is JavaScript
      `null`: the credit lock key and the usage-log lookup read it as the
      string "null", while the SQL queries receive NULL, which matches no
      wallet row and no log row. The model passes the string "null"; for a
      ledger without a "null" wallet row or DEDUCT row the two agree (see
      `MissingPassengerDebitsNobody`). */
  function TripPassenger(s: State, tripId: string): string {
    if tripId in s.trips && s.trips[tripId].passengerId.Some? then s.trips[tripId].passengerId.value else "null"
  }

  /** The committed part of an accepted trip: the trip hash records the
      driver, the driver is BUSY in its stats hash and row, and a queued
      driver leaves its station's queue. */
  function CommitAccept(s: State, driverId: string, tripId: string): (s': State)
    requires FairQueue.ValidStore(s.queue)
    ensures FairQueue.ValidStore(s'.queue)
    ensures tripId in s'.trips
    ensures s'.trips[tripId].status == Some("ACCEPTED") && s'.trips[tripId].driverId == Some(driverId)
    ensures FairQueue.Stats(s'.queue, driverId).status == Some("BUSY")
    ensures !Truthy(FairQueue.Stats(s'.queue, driverId).currentWin)
    ensures forall w ::
              FairQueue.ZScore(FairQueue.Queue(s'.queue, w), driverId) ==
                (if Truthy(FairQueue.Stats(s.queue, driverId).currentWin) &&
                    w == FairQueue.Stats(s.queue, driverId).currentWin.value
                 then None else FairQueue.ZScore(FairQueue.Queue(s.queue, w), driverId))
    ensures s'.ledger == s.ledger && s'.tripLocks == s.tripLocks && s'.otps == s.otps && s'.invites == s.invites
  {
    var old_ := if tripId in s.trips then s.trips[tripId] else TripHash(None, None, None);
    var trips := s.trips[tripId := old_.(status := Some("ACCEPTED"), driverId := Some(driverId))];
    var st := FairQueue.Stats(s.queue, driverId);
    var busy := s.queue.(stats := s.queue.stats[driverId := st.(status := Some("BUSY"))]);
    assert FairQueue.ValidStore(busy);
    var drivers := MapWhere(s.drivers, DriverWithId(driverId), (d: DriverAccount) => d.(currentStatus := "BUSY"));
    if Truthy(st.currentWin) then
      var removed := FairQueue.ZRem(busy, st.currentWin.value, driverId);
      var queue := removed.(stats := removed.stats[driverId := st.(status := Some("BUSY"), currentWin := None)]);
      assert forall w :: FairQueue.Queue(queue, w) == FairQueue.Queue(removed, w);
      assert forall w :: FairQueue.Queue(busy, w) == FairQueue.Queue(s.queue, w);
      s.(trips := trips, drivers := drivers, queue := queue)
    else
      assert forall w :: FairQueue.Queue(busy, w) == FairQueue.Queue(s.queue, w);
      s.(trips := trips, drivers := drivers, queue := busy)
  }

  /** `acceptTrip`: set-if-absent on the trip lock, then the fare is
      deducted from the trip's passenger. A refused deduction releases the
      lock and changes nothing; a busy passenger lock propagates as an
      error with the trip lock still held. */
  function AcceptTrip(s: State, driverId: string, tripId: string, baseCost: real, hour: real, now: real)
    : (r: (AcceptReply, State))
    requires FairQueue.ValidStore(s.queue)
    ensures FairQueue.ValidStore(r.1.queue)
    ensures r.0 == TripTaken <==> tripId in s.tripLocks
    ensures r.0 == TripTaken || r.0 == InsufficientFunds ==> r.1 == s
    ensures r.0 == PassengerBusy ==> r.1 == s.(tripLocks := s.tripLocks[tripId := driverId])
    ensures r.0 == Accepted ==>
      && r.1.tripLocks == s.tripLocks[tripId := driverId]
      && r.1.ledger == Credit.DeductForRide(s.ledger, TripPassenger(s, tripId), tripId, baseCost, hour, now).1
      && r.1 == CommitAccept(s.(tripLocks := s.tripLocks[tripId := driverId], ledger := r.1.ledger), driverId, tripId)
    ensures tripId !in s.tripLocks ==>
      (r.0 == Accepted <==>
         Credit.DeductForRide(s.ledger, TripPassenger(s, tripId), tripId, baseCost, hour, now).0 == Credit.Deducted(true))
  {
    if tripId in s.tripLocks then (TripTaken, s)
    else
      var locked := s.(tripLocks := s.tripLocks[tripId := driverId]);
      var (reply, ledger) := Credit.DeductForRide(s.ledger, TripPassenger(s, tripId), tripId, baseCost, hour, now);
      match reply
      case SystemBusy => (PassengerBusy, locked)
      case Deducted(ok) =>
        if !ok then (InsufficientFunds, s)
        else (Accepted, CommitAccept(locked.(ledger := ledger), driverId, tripId))
  }

  /** A trip without a passenger debits no wallet when no wallet row is
      named "null", as in the source, whose NULL passenger matches no row:
      the accept goes through only on a free ride. */
  lemma MissingPassengerDebitsNobody(s: State, driverId: string, tripId: string, baseCost: real,
                                     hour: real, now: real)
    requires FairQueue.ValidStore(s.queue)
    requires tripId in s.trips && s.trips[tripId].passengerId.None?
    requires "null" !in s.ledger.wallet
    ensures var (reply, s') := AcceptTrip(s, driverId, tripId, baseCost, hour, now);
      && s'.ledger.wallet == s.ledger.wallet
      && (reply == Accepted ==> Credit.RideOfferFor(s.ledger, "null", hour, now).isFree)
  {
  }

  /** While a trip is locked every further accept is refused and changes
      nothing, whichever driver tries. */
  lemma SecondAcceptRefused(s: State, d1: string, d2: string, tripId: string, baseCost: real, hour: real, now: real)
    requires FairQueue.ValidStore(s.queue)
    ensures
      var (first, s1) := AcceptTrip(s, d1, tripId, baseCost, hour, now);
      first == Accepted || first == PassengerBusy ==> AcceptTrip(s1, d2, tripId, baseCost, hour, now) == (TripTaken, s1)
  {
  }

  /** A busy passenger leaves the trip lock held, so the trip can no longer
      be accepted by anyone. */
  lemma BusyPassengerLeaksTripLock(s: State, d1: string, d2: string, tripId: string, baseCost: real, hour: real, now: real)
    requires FairQueue.ValidStore(s.queue)
    requires tripId !in s.tripLocks
    requires TripPassenger(s, tripId) in s.ledger.locks
    ensures
      var (first, s1) := AcceptTrip(s, d1, tripId, baseCost, hour, now);
      first == PassengerBusy && AcceptTrip(s1, d2, tripId, baseCost, hour, now).0 == TripTaken
  {
  }
}
