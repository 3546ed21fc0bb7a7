/** The invite-code admin screen: the status badge of a code, and the two
    forms that add a code and a station. Dates are milliseconds since the
    epoch, `None` standing for a date string that does not parse. */
module InviteDashboard {
  import opened Util
  import DriverService

  datatype Badge = InactiveBadge | ExpiredBadge | FullBadge | UsableBadge

  /** `getStatusBadge`: switched off first, then past its expiry, then out
      of uses. An expiry that does not parse compares false, so it never
      shows as expired. */
  function StatusBadge(invite: DriverService.InviteCode, expiresAtMs: Option<real>, nowMs: real): (b: Badge)
    ensures b == InactiveBadge <==> !invite.isActive
    ensures b == ExpiredBadge <==> invite.isActive && expiresAtMs.Some? && expiresAtMs.value < nowMs
    ensures b == FullBadge <==>
      invite.isActive && !(expiresAtMs.Some? && expiresAtMs.value < nowMs) && invite.usedCount as real >= invite.maxUses
    ensures b == UsableBadge <==>
      invite.isActive && !(expiresAtMs.Some? && expiresAtMs.value < nowMs) && (invite.usedCount as real) < invite.maxUses
  {
    var isExpired := expiresAtMs.Some? && expiresAtMs.value < nowMs;
    var isFull := invite.usedCount as real >= invite.maxUses;
    if !invite.isActive then InactiveBadge
    else if isExpired then ExpiredBadge
    else if isFull then FullBadge
    else UsableBadge
  }

  /** The badge agrees with registration on inactive and full codes, and a
      usable code admits any new phone. Registration does not look at the
      expiry, so an expired code that is active and has uses left still
      admits a driver. */
  lemma BadgeAgreesWithRegister(s: DriverService.State, reg: DriverService.RegisterDto, newId: string,
                                expiresAtMs: Option<real>, nowMs: real)
    requires reg.inviteCode in s.invites
    ensures
      var b := StatusBadge(s.invites[reg.inviteCode], expiresAtMs, nowMs);
      var r := DriverService.Register(s, reg, newId).0;
      && (b == InactiveBadge ==> r == DriverService.RegisterFailed(DriverService.InvalidInvite))
      && (b == FullBadge ==> r == DriverService.RegisterFailed(DriverService.InviteFull))
      && (b == UsableBadge ==> r.Registered? || r == DriverService.RegisterFailed(DriverService.PhoneTaken))
      && (b == ExpiredBadge && (s.invites[reg.inviteCode].usedCount as real) < s.invites[reg.inviteCode].maxUses ==>
            r.Registered? || r == DriverService.RegisterFailed(DriverService.PhoneTaken))
  {
  }

  // ---------------------------------------------------------------------
  // Creating a code
  // ---------------------------------------------------------------------

  datatype CodeForm = CodeForm(
    code: string, winId: string, kind: DriverService.InviteType, maxUses: real, expiresAt: string, note: string)

  /** `handleCreateCode`: nothing without a code; an expiry that cannot be
      turned into an ISO timestamp (`toIso` gives `None`) throws before
      anything is stored; otherwise the new code goes first, unused and
      active. Unlike the backend, an existing code is not refused. */
  function CreateCode(codes: seq<DriverService.InviteCode>, form: CodeForm, toIso: string -> Option<string>)
    : (r: seq<DriverService.InviteCode>)
    ensures form.code == "" || toIso(form.expiresAt).None? ==> r == codes
    ensures form.code != "" && toIso(form.expiresAt).Some? ==>
      && |r| == |codes| + 1 && r[1..] == codes
      && r[0] == DriverService.InviteCode(form.code, form.winId, form.kind, form.maxUses, 0,
                                          toIso(form.expiresAt).value, Some(form.note), "ADMIN", true)
  {
    if form.code == "" then codes
    else
      match toIso(form.expiresAt)
      case None => codes
      case Some(iso) =>
        [DriverService.InviteCode(form.code, form.winId, form.kind, form.maxUses, 0, iso, Some(form.note), "ADMIN", true)]
        + codes
  }

  /** A code created with at least one use and a future expiry shows as
      usable. */
  lemma CreatedCodeUsable(codes: seq<DriverService.InviteCode>, form: CodeForm, toIso: string -> Option<string>,
                          expiresAtMs: Option<real>, nowMs: real)
    requires form.code != "" && toIso(form.expiresAt).Some? && form.maxUses >= 1.0
    requires expiresAtMs.None? || expiresAtMs.value >= nowMs
    ensures StatusBadge(CreateCode(codes, form, toIso)[0], expiresAtMs, nowMs) == UsableBadge
  {
  }

  // ---------------------------------------------------------------------
  // Creating a station
  // ---------------------------------------------------------------------

  datatype Station = Station(id: string, name: string, area: string, createdAt: string)

  /** `handleCreateStation`: needs both a name and an area; the new station
      (`newId` stands for `WIN-<now>`) goes last. */
  function CreateStation(stations: seq<Station>, name: string, area: string, newId: string, nowIso: string)
    : (r: seq<Station>)
    ensures name == "" || area == "" ==> r == stations
    ensures name != "" && area != "" ==> r == stations + [Station(newId, name, area, nowIso)]
  {
    if name == "" || area == "" then stations
    else stations + [Station(newId, name, area, nowIso)]
  }

  /** The form never adds a station without a name and an area. */
  lemma StationsKeepNamesAndAreas(stations: seq<Station>, name: string, area: string, newId: string, nowIso: string)
    requires forall i :: 0 <= i < |stations| ==> stations[i].name != "" && stations[i].area != ""
    ensures var r := CreateStation(stations, name, area, newId, nowIso);
      forall i :: 0 <= i < |r| ==> r[i].name != "" && r[i].area != ""
  {
  }
}
