/** The request validators of the backend, as predicates over the request
    records, and what a request that passes them guarantees to the
    operations it reaches. `IsNotEmpty` is "not the empty string"; numbers
    are reals, so the `IsNumber` rejection of NaN and infinities has no
    counterpart. */
module Dtos {
  import opened Util
  import opened Promotion
  import Credit
  import DriverService

  // ---------------------------------------------------------------------
  // Driver going online
  // ---------------------------------------------------------------------

  datatype DriverOnlineDto = DriverOnlineDto(driverId: string, lat: real, lng: real)

  datatype Field = DriverIdField | LatField | LngField

  /** `DriverOnlineDto`: a driver id, a latitude in [-90, 90] and a
      longitude in [-180, 180]. */
  predicate ValidDriverOnline(dto: DriverOnlineDto) {
    && dto.driverId != ""
    && -90.0 <= dto.lat <= 90.0
    && -180.0 <= dto.lng <= 180.0
  }

  /** The fields the validator reports, in declaration order. */
  function OnlineViolations(dto: DriverOnlineDto): (v: seq<Field>)
    ensures DriverIdField in v <==> dto.driverId == ""
    ensures LatField in v <==> dto.lat < -90.0 || dto.lat > 90.0
    ensures LngField in v <==> dto.lng < -180.0 || dto.lng > 180.0
  {
    (if dto.driverId == "" then [DriverIdField] else [])
    + (if -90.0 <= dto.lat <= 90.0 then [] else [LatField])
    + (if -180.0 <= dto.lng <= 180.0 then [] else [LngField])
  }

  /** A request is accepted exactly when no field is reported. */
  lemma OnlineAcceptedIffNoViolation(dto: DriverOnlineDto)
    ensures ValidDriverOnline(dto) <==> OnlineViolations(dto) == []
  {
    if !ValidDriverOnline(dto) {
      var v := OnlineViolations(dto);
      assert DriverIdField in v || LatField in v || LngField in v;
    }
  }

  // ---------------------------------------------------------------------
  // Top-up
  // ---------------------------------------------------------------------

  /** The smallest cash top-up, in baht. */
  const MinTopup: real := 20.0

  datatype TopupDto = TopupDto(passengerId: string, amount: real, paymentMethod: Option<string>)

  predicate ValidTopup(dto: TopupDto) {
    dto.passengerId != "" && dto.amount >= MinTopup
  }

  /** A top-up that passes the validator credits at least the minimum cash
      amount, plus a bonus that is never negative when the configured
      bonuses are not. */
  lemma ValidTopupCreditsAtLeastMinimum(s: Credit.Ledger, dto: TopupDto, paymentId: string, now: real)
    requires ValidTopup(dto)
    requires forall i :: 0 <= i < |s.promos.rules| ==> BonusOf(s.promos.rules[i]) >= 0.0
    ensures
      var (reply, s') := Credit.Topup(s, dto.passengerId, dto.amount, paymentId, now);
      reply.ToppedUp? ==> Credit.Balance(s', dto.passengerId) >= Credit.Balance(s, dto.passengerId) + MinTopup
  {
    var offer := EvaluateTopup(s.promos, dto.passengerId, dto.amount, now);
    if offer.rule.Some? {
      var k :| 0 <= k < |s.promos.rules| && s.promos.rules[k] == offer.rule.value;
      assert offer.bonus == BonusOf(s.promos.rules[k]);
    }
  }

  // ---------------------------------------------------------------------
  // Invite codes
  // ---------------------------------------------------------------------

  /** `CreateInviteCodeDto`: code and station present, at least one use, a
      date string for the expiry (`isDateString` stands for the ISO 8601
      check). */
  predicate ValidCreateInvite(dto: DriverService.CreateInviteCodeDto, isDateString: string -> bool) {
    && dto.code != ""
    && dto.winId != ""
    && dto.maxUses >= 1.0
    && isDateString(dto.expiresAt)
  }

  /** A freshly created, validated code admits its first driver: the
      registration is refused only for a phone that is already taken. */
  lemma ValidInviteAdmitsFirstDriver(s: DriverService.State, dto: DriverService.CreateInviteCodeDto,
                                     isDateString: string -> bool, reg: DriverService.RegisterDto, newId: string)
    requires ValidCreateInvite(dto, isDateString)
    requires dto.code !in s.invites
    requires reg.inviteCode == dto.code
    ensures
      var s1 := s.(invites := DriverService.CreateInviteCode(s.invites, dto).1);
      var r := DriverService.Register(s1, reg, newId).0;
      r.Registered? || r == DriverService.RegisterFailed(DriverService.PhoneTaken)
  {
  }

  /** Validated codes keep every invite within its use limit. */
  lemma ValidInviteKeepsLimit(invites: map<string, DriverService.InviteCode>, dto: DriverService.CreateInviteCodeDto,
                              isDateString: string -> bool)
    requires DriverService.InvitesWithinLimit(invites)
    requires ValidCreateInvite(dto, isDateString)
    ensures DriverService.InvitesWithinLimit(DriverService.CreateInviteCode(invites, dto).1)
  {
    DriverService.CreateKeepsInvitesWithinLimit(invites, dto);
  }

  // ---------------------------------------------------------------------
  // Refunds
  // ---------------------------------------------------------------------

  datatype AdminRefundDto = AdminRefundDto(passengerId: string, points: real, reason: string)

  predicate ValidRefund(dto: AdminRefundDto) {
    dto.passengerId != "" && dto.points >= 1.0 && dto.reason != ""
  }

  /** A validated refund to a passenger with a wallet row raises the
      balance by at least one point. */
  lemma ValidRefundRaisesBalance(s: Credit.Ledger, dto: AdminRefundDto)
    requires ValidRefund(dto)
    requires dto.passengerId in s.wallet
    ensures
      var (reply, s') := Credit.Refund(s, dto.passengerId, dto.points, dto.reason);
      reply.Refunded? ==> Credit.Balance(s', dto.passengerId) >= Credit.Balance(s, dto.passengerId) + 1.0
  {
  }

  // ---------------------------------------------------------------------
  // Per-user promotion limit
  // ---------------------------------------------------------------------

  /** A `maxUsagePerUser` of 0 means unlimited: the usage check passes
      whatever has been logged, and a positive limit is eventually
      reached. */
  lemma ZeroPerUserLimitIsUnlimited(logs: map<string, map<string, int>>, passengerId: string, promoId: string,
                                    limit: real)
    requires limit > 0.0 && limit == limit.Floor as real
    ensures CheckUsageLimit(logs, passengerId, promoId, 0.0)
    ensures CheckUsageLimit(logs[passengerId := map[promoId := limit.Floor]], passengerId, promoId, limit) == false
  {
    assert UsageCount(logs[passengerId := map[promoId := limit.Floor]], passengerId, promoId) == limit.Floor;
  }
}
