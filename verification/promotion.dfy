/** The promotion rule engine: which top-up bonus or ride discount applies
    to a passenger, the usage counters that budget it, and the ROI report.
    The rule list and the per-passenger usage log are the engine's state;
    the clock reading `now` (milliseconds) is a parameter. */
module Promotion {
  import opened Util
  import opened Ordering

  datatype PromoType = TopupBonus | RideDiscount

  datatype Condition = Condition(
    minTopupAmount: Option<real>,
    maxPriorRides: Option<real>,
    startTime: Option<string>,          // "HH:mm"
    endTime: Option<string>,
    allowedAreaIds: Option<seq<string>>)

  datatype Benefit = Benefit(bonusPoints: Option<real>, isFree: Option<bool>, discountAmount: Option<real>)

  datatype PromoStats = PromoStats(usersCount: int, totalPointsGiven: real, revenue: real)

  /** A promotion rule. `startDate`/`endDate` are the parsed dates in
      milliseconds; `None` stands for a date that is absent, empty or does not
      parse (an invalid date compares false both ways, so it never blocks). */
  datatype Rule = Rule(
    id: string,
    name: string,
    kind: PromoType,
    condition: Condition,
    startDate: Option<real>,
    endDate: Option<real>,
    maxUsagePerUser: Option<real>,      // 0 or absent: unlimited
    maxTotalUsage: Option<real>,        // 0 or absent: no global budget
    currentTotalUsage: int,
    benefit: Benefit,
    active: bool,
    stats: PromoStats)

  /** Rules plus the usage log: passenger id to promotion id to uses. */
  datatype Engine = Engine(rules: seq<Rule>, usageLogs: map<string, map<string, int>>)

  // ---------------------------------------------------------------------
  // Activity and quotas
  // ---------------------------------------------------------------------

  predicate QuotaExhausted(p: Rule) {
    p.maxTotalUsage.Some? && p.maxTotalUsage.value > 0.0 &&
    p.currentTotalUsage as real >= p.maxTotalUsage.value
  }

  /** `isPromoActive`: switched on, inside its date range, budget left. */
  predicate IsPromoActive(p: Rule, now: real) {
    && p.active
    && !(p.startDate.Some? && p.startDate.value > now)
    && !(p.endDate.Some? && p.endDate.value < now)
    && !QuotaExhausted(p)
  }

  /** The activity window has no holes: a rule active at two instants is
      active at every instant between them. */
  lemma ActiveWindowIsInterval(p: Rule, t1: real, t2: real, t3: real)
    requires t1 <= t2 <= t3
    requires IsPromoActive(p, t1) && IsPromoActive(p, t3)
    ensures IsPromoActive(p, t2)
  {
  }

  /** Uses of `promoId` recorded for a passenger; a missing entry reads 0. */
  function UsageCount(logs: map<string, map<string, int>>, passengerId: string, promoId: string): int {
    if passengerId in logs && promoId in logs[passengerId] then logs[passengerId][promoId] else 0
  }

  /** `checkUsageLimit`: a positive limit allows strictly fewer uses than
      itself; a limit of 0 (or below) never refuses. */
  function CheckUsageLimit(logs: map<string, map<string, int>>, passengerId: string,
                           promoId: string, limit: real): (ok: bool)
    ensures ok <==> limit <= 0.0 || (UsageCount(logs, passengerId, promoId) as real) < limit
  {
    if limit <= 0.0 then true
    else if passengerId !in logs then true
    else
      var userLog := logs[passengerId];
      var count := if promoId in userLog then userLog[promoId] else 0;
      (count as real) < limit
  }

  // ---------------------------------------------------------------------
  // Top-up bonus: the eligible rule with the highest bonus
  // ---------------------------------------------------------------------

  function BonusOf(p: Rule): real {
    p.benefit.bonusPoints.GetOr(0.0)
  }

  function BonusKey(p: Rule): Key {
    Key(0, BonusOf(p))
  }

  function TopupEligible(e: Engine, passengerId: string, amount: real, now: real): Rule -> bool {
    (p: Rule) =>
      && IsPromoActive(p, now)
      && p.kind == TopupBonus
      && p.condition.minTopupAmount.Some?
      && amount >= p.condition.minTopupAmount.value
      && CheckUsageLimit(e.usageLogs, passengerId, p.id, p.maxUsagePerUser.GetOr(0.0))
  }

  datatype TopupOffer = TopupOffer(rule: Option<Rule>, bonus: real)

  /** The head of the eligible rules once sorted by bonus, highest first
      and stable: the first rule with the highest bonus. */
  function BestBonus(rules: seq<Rule>): (r: TopupOffer)
    ensures r.rule.None? <==> |rules| == 0
    ensures r.rule.None? ==> r.bonus == 0.0
    ensures r.rule.Some? ==>
      && r.rule.value in rules
      && r.bonus == BonusOf(r.rule.value)
      && forall i :: 0 <= i < |rules| ==> BonusOf(rules[i]) <= r.bonus
  {
    var sorted := SortDesc(rules, BonusKey);
    if |sorted| > 0 then
      SortHeadIsFirstMax(rules, BonusKey);
      var k := FirstMax(rules, BonusKey);
      assert forall i :: 0 <= i < |rules| ==> KeyLe(BonusKey(rules[i]), BonusKey(rules[k]));
      TopupOffer(Some(sorted[0]), BonusOf(sorted[0]))
    else TopupOffer(None, 0.0)
  }

  /** `evaluateTopup`: filter the eligible rules, sort them by bonus
      (stable, highest first) and take the head. */
  function EvaluateTopup(e: Engine, passengerId: string, amount: real, now: real): (r: TopupOffer)
    ensures r.rule.None? <==>
      forall i :: 0 <= i < |e.rules| ==> !TopupEligible(e, passengerId, amount, now)(e.rules[i])
    ensures r.rule.None? ==> r.bonus == 0.0
    ensures r.rule.Some? ==>
      && r.rule.value in e.rules
      && TopupEligible(e, passengerId, amount, now)(r.rule.value)
      && r.bonus == BonusOf(r.rule.value)
      && forall i :: 0 <= i < |e.rules| && TopupEligible(e, passengerId, amount, now)(e.rules[i]) ==>
           BonusOf(e.rules[i]) <= r.bonus
  {
    var rules := Filter(e.rules, TopupEligible(e, passengerId, amount, now));
    var r := BestBonus(rules);
    assert r.rule.Some? ==> r.rule.value in rules;
    r
  }

  /** Among equally generous rules the one listed first wins, as a stable
      sort leaves it at the head. */
  lemma TopupPicksFirstBest(e: Engine, passengerId: string, amount: real, now: real)
    ensures
      var rules := Filter(e.rules, TopupEligible(e, passengerId, amount, now));
      |rules| > 0 ==> EvaluateTopup(e, passengerId, amount, now).rule == Some(rules[FirstMax(rules, BonusKey)])
  {
    var rules := Filter(e.rules, TopupEligible(e, passengerId, amount, now));
    if |rules| > 0 {
      SortHeadIsFirstMax(rules, BonusKey);
    }
  }

  // ---------------------------------------------------------------------
  // Ride discount: the first rule that passes every check
  // ---------------------------------------------------------------------

  predicate IsDigit(c: char) {
    '0' <= c <= '9'
  }

  /** The white space `parseInt` skips before a number: tab, vertical tab,
      form feed, the byte-order mark, the line terminators and every Unicode
      space separator (category Zs). */
  predicate IsJsSpace(c: char) {
    c == '\t' || c == '\n' || c == '\r' || c == '\U{000B}' || c == '\U{000C}' ||
    c == '\U{FEFF}' || c == '\U{2028}' || c == '\U{2029}' ||
    c == ' ' || c == '\U{00A0}' || c == '\U{1680}' || '\U{2000}' <= c <= '\U{200A}' ||
    c == '\U{202F}' || c == '\U{205F}' || c == '\U{3000}'
  }

  function TrimStart(s: string): (t: string)
    ensures |t| <= |s| && t == s[|s| - |t|..]
    ensures |t| > 0 ==> !IsJsSpace(t[0])
    ensures forall i :: 0 <= i < |s| - |t| ==> IsJsSpace(s[i])
  {
    if |s| > 0 && IsJsSpace(s[0]) then TrimStart(s[1..]) else s
  }

  /** The value of `c` as a digit in base `radix`, letters of either case
      standing for 10 and up; `None` when it is not such a digit. */
  function DigitIn(c: char, radix: nat): (r: Option<nat>)
    ensures r.Some? ==> r.value < radix
    ensures radix == 10 ==> (r.Some? <==> IsDigit(c))
  {
    var v: int :=
      if '0' <= c <= '9' then (c as int) - ('0' as int)
      else if 'a' <= c <= 'z' then (c as int) - ('a' as int) + 10
      else if 'A' <= c <= 'Z' then (c as int) - ('A' as int) + 10
      else radix;
    if v < radix then Some(v) else None
  }

  predicate IsDigitIn(c: char, radix: nat) {
    DigitIn(c, radix).Some?
  }

  /** The longest prefix of digits in base `radix`. */
  function LeadingDigits(s: string, radix: nat): (ds: string)
    ensures |ds| <= |s| && ds == s[..|ds|]
    ensures forall i :: 0 <= i < |ds| ==> IsDigitIn(ds[i], radix)
    ensures |ds| < |s| ==> !IsDigitIn(s[|ds|], radix)
  {
    if |s| > 0 && IsDigitIn(s[0], radix) then [s[0]] + LeadingDigits(s[1..], radix) else []
  }

  lemma NatProduct(a: nat, b: nat)
    ensures a * b >= 0
  {
  }

  /** Value of a digit string in base `radix`, most significant digit first. */
  function DigitsValue(ds: string, radix: nat): nat
    requires forall i :: 0 <= i < |ds| ==> IsDigitIn(ds[i], radix)
  {
    if |ds| == 0 then 0
    else
      var init := ds[..|ds| - 1];
      assert forall i :: 0 <= i < |init| ==> init[i] == ds[i];
      assert IsDigitIn(ds[|ds| - 1], radix);
      var high: nat := DigitsValue(init, radix);
      NatProduct(high, radix);
      high * radix + DigitIn(ds[|ds| - 1], radix).value
  }

  /** Whether `u` starts with the `0x` or `0X` prefix that makes `parseInt`
      without a radix read base 16. */
  predicate HexPrefixed(u: string) {
    |u| >= 2 && u[0] == '0' && (u[1] == 'x' || u[1] == 'X')
  }

  /** `parseInt(s)` with no radix: skip white space and an optional sign;
      a `0x`/`0X` prefix then selects base 16, anything else base 10; the
      value is that of the leading digits, and `None` (`NaN`) when there is
      not one. */
  function ParseInt(s: string): Option<int>
  {
    var t := TrimStart(s);
    var signed := |t| > 0 && (t[0] == '-' || t[0] == '+');
    var u := if signed then t[1..] else t;
    var radix := if HexPrefixed(u) then 16 else 10;
    var ds := LeadingDigits(if HexPrefixed(u) then u[2..] else u, radix);
    if |ds| == 0 then None
    else if signed && t[0] == '-' then Some(0 - DigitsValue(ds, radix) as int)
    else Some(DigitsValue(ds, radix))
  }

  /** A leading `0x` switches to base 16, so an hour written `0x10` reads
      as 16 where a base-10 reading would stop at the `x` and give 0. */
  lemma HexHourParses()
    ensures ParseInt("0x10") == Some(16)
  {
    var s := "0x10";
    assert !IsJsSpace(s[0]);
    assert TrimStart(s) == s;
    assert HexPrefixed(s) && s[2..] == "10";
    var ds := "10";
    assert IsDigitIn(ds[0], 16) && IsDigitIn(ds[1], 16);
    assert ds[1..][1..] == [];
    assert LeadingDigits(ds[1..], 16) == ds[1..];
    assert LeadingDigits(ds, 16) == ds;
    assert ds[..1] == "1" && "1"[..0] == [];
    assert DigitsValue("1", 16) == 1;
  }

  /** `0x` with no digit after it does not parse at all. */
  lemma BareHexPrefixIsNaN()
    ensures ParseInt("0x") == None
  {
    var s := "0x";
    assert !IsJsSpace(s[0]);
    assert TrimStart(s) == s;
    assert HexPrefixed(s) && s[2..] == [];
  }

  /** `s.split(':')[0]`: everything before the first colon. */
  function BeforeColon(s: string): (h: string)
    ensures |h| <= |s| && h == s[..|h|]
    ensures ':' !in h
    ensures |h| < |s| ==> s[|h|] == ':'
  {
    if |s| == 0 || s[0] == ':' then [] else [s[0]] + BeforeColon(s[1..])
  }

  /** The hour of an "HH:mm" time string, `NaN` as `None`. */
  function HourOf(time: string): Option<int> {
    ParseInt(BeforeColon(time))
  }

  function DigitChar(d: int): char
    requires 0 <= d < 10
  {
    ('0' as int + d) as char
  }

  /** An hour written with two digits, as the admin form produces it. */
  function TwoDigits(h: int): string
    requires 0 <= h < 100
  {
    [DigitChar(h / 10), DigitChar(h % 10)]
  }

  /** Reading the hour back from a well-formed "HH:mm" string gives the
      hour that was written. */
  lemma HourOfTwoDigits(h: int, minutes: string)
    requires 0 <= h < 100
    ensures HourOf(TwoDigits(h) + ":" + minutes) == Some(h)
  {
    BeforeColonOfTwoDigits(h, minutes);
    ParseTwoDigits(h);
  }

  lemma BeforeColonOfTwoDigits(h: int, minutes: string)
    requires 0 <= h < 100
    ensures BeforeColon(TwoDigits(h) + ":" + minutes) == TwoDigits(h)
  {
    var s := TwoDigits(h) + ":" + minutes;
    assert s[0] == DigitChar(h / 10) && s[1] == DigitChar(h % 10) && s[2] == ':';
    assert s[1..][0] == s[1] && s[1..][1..][0] == ':';
    assert BeforeColon(s[1..][1..]) == [];
    assert BeforeColon(s[1..]) == [s[1]];
  }

  lemma ParseTwoDigits(h: int)
    requires 0 <= h < 100
    ensures ParseInt(TwoDigits(h)) == Some(h)
  {
    var b := TwoDigits(h);
    assert TrimStart(b) == b;
    assert !HexPrefixed(b);
    assert b[1..][1..] == [];
    assert LeadingDigits(b[1..], 10) == [b[1]];
    assert LeadingDigits(b, 10) == b;
    assert b[..1] == [b[0]];
    assert DigitsValue(b[..1], 10) == DigitIn(b[0], 10).value;
  }

  /** The hour-window check: with both times set, a parsed start hour is an
      inclusive lower bound and a parsed end hour an exclusive upper bound;
      a time whose hour does not parse bounds nothing. */
  predicate TimeWindowOk(c: Condition, hour: real) {
    if Truthy(c.startTime) && Truthy(c.endTime) then
      var s := HourOf(c.startTime.value);
      var t := HourOf(c.endTime.value);
      !(s.Some? && hour < s.value as real) && !(t.Some? && hour >= t.value as real)
    else true
  }

  /** With well-formed times the check is exactly `startH <= hour < endH`. */
  lemma TimeWindowOfWellFormed(c: Condition, sh: int, eh: int, sm: string, em: string, hour: real)
    requires 0 <= sh < 100 && 0 <= eh < 100
    requires c.startTime == Some(TwoDigits(sh) + ":" + sm)
    requires c.endTime == Some(TwoDigits(eh) + ":" + em)
    ensures TimeWindowOk(c, hour) <==> sh as real <= hour < eh as real
  {
    HourOfTwoDigits(sh, sm);
    HourOfTwoDigits(eh, em);
  }

  /** An area-restricted rule needs an area id, and one it lists. */
  predicate AreaOk(c: Condition, areaId: Option<string>) {
    if c.allowedAreaIds.Some? && |c.allowedAreaIds.value| > 0 then
      Truthy(areaId) && areaId.value in c.allowedAreaIds.value
    else true
  }

  predicate PriorRidesOk(c: Condition, priorRides: real) {
    c.maxPriorRides.Some? ==> priorRides < c.maxPriorRides.value
  }

  function RideQualifies(e: Engine, passengerId: string, priorRides: real, hour: real,
                         areaId: Option<string>, now: real): Rule -> bool {
    (p: Rule) =>
      && IsPromoActive(p, now)
      && p.kind == RideDiscount
      && CheckUsageLimit(e.usageLogs, passengerId, p.id, p.maxUsagePerUser.GetOr(0.0))
      && TimeWindowOk(p.condition, hour)
      && AreaOk(p.condition, areaId)
      && PriorRidesOk(p.condition, priorRides)
  }

  datatype RideOffer = RideOffer(rule: Option<Rule>, discount: real, isFree: bool)

  /** `evaluateRide`: the first active RIDE_DISCOUNT rule, in list order,
      that passes the usage, hour, area and prior-ride checks. */
  function EvaluateRide(e: Engine, passengerId: string, priorRides: real, hour: real,
                        areaId: Option<string>, now: real): (r: RideOffer)
    ensures r.rule.None? <==>
      forall i :: 0 <= i < |e.rules| ==> !RideQualifies(e, passengerId, priorRides, hour, areaId, now)(e.rules[i])
    ensures r.rule.None? ==> r.discount == 0.0 && !r.isFree
    ensures r.rule.Some? ==>
      exists k :: 0 <= k < |e.rules| && e.rules[k] == r.rule.value
        && RideQualifies(e, passengerId, priorRides, hour, areaId, now)(e.rules[k])
        && forall j :: 0 <= j < k ==> !RideQualifies(e, passengerId, priorRides, hour, areaId, now)(e.rules[j])
    ensures r.rule.Some? ==>
      && r.discount == r.rule.value.benefit.discountAmount.GetOr(0.0)
      && (r.isFree <==> r.rule.value.benefit.isFree == Some(true))
  {
    match Lookup(e.rules, RideQualifies(e, passengerId, priorRides, hour, areaId, now))
    case None => RideOffer(None, 0.0, false)
    case Some(p) => RideOffer(Some(p), p.benefit.discountAmount.GetOr(0.0), p.benefit.isFree == Some(true))
  }

  /** A rule whose area list is non-empty is never offered without an area
      id; the ledger's availability and deduction checks pass none. */
  lemma AreaRuleNeedsArea(e: Engine, passengerId: string, priorRides: real, hour: real, now: real)
    ensures var r := EvaluateRide(e, passengerId, priorRides, hour, None, now);
      r.rule.Some? ==> r.rule.value.condition.allowedAreaIds.None? || |r.rule.value.condition.allowedAreaIds.value| == 0
  {
  }

  // ---------------------------------------------------------------------
  // Usage counters
  // ---------------------------------------------------------------------

  function HasPromoId(id: string): Rule -> bool {
    (p: Rule) => p.id == id
  }

  function Used(p: Rule, benefitAmount: real, revenueGenerated: real): (q: Rule)
    ensures q.stats.usersCount == p.stats.usersCount + 1
    ensures q.currentTotalUsage == p.currentTotalUsage + 1
    ensures q.stats.totalPointsGiven == p.stats.totalPointsGiven + benefitAmount
    ensures q.stats.revenue == p.stats.revenue + revenueGenerated
    ensures q.(stats := p.stats, currentTotalUsage := p.currentTotalUsage) == p
  {
    p.(stats := PromoStats(p.stats.usersCount + 1, p.stats.totalPointsGiven + benefitAmount,
                           p.stats.revenue + revenueGenerated),
       currentTotalUsage := p.currentTotalUsage + 1)
  }

  /** The counter update of `logUsage` on the rule list: the first rule with
      that id counts one more use; an unknown id changes nothing. */
  function CountUse(rules: seq<Rule>, promoId: string, benefitAmount: real,
                    revenueGenerated: real): (r: seq<Rule>)
    ensures |r| == |rules|
    ensures FindFirst(rules, HasPromoId(promoId)).None? ==> r == rules
    ensures FindFirst(rules, HasPromoId(promoId)).Some? ==>
      var k := FindFirst(rules, HasPromoId(promoId)).value;
      && r[k] == Used(rules[k], benefitAmount, revenueGenerated)
      && forall i :: 0 <= i < |rules| && i != k ==> r[i] == rules[i]
  {
    match FindFirst(rules, HasPromoId(promoId))
    case None => rules
    case Some(k) => rules[k := Used(rules[k], benefitAmount, revenueGenerated)]
  }

  /** `logUsage` as written: the counters move, the usage log is left as it
      was, so no per-passenger limit can ever take effect. */
  function LogUsageAsWritten(e: Engine, promoId: string, benefitAmount: real,
                             revenueGenerated: real): (e': Engine)
    ensures e'.usageLogs == e.usageLogs
    ensures e'.rules == CountUse(e.rules, promoId, benefitAmount, revenueGenerated)
  {
    e.(rules := CountUse(e.rules, promoId, benefitAmount, revenueGenerated))
  }

  /** The per-passenger record the limit check reads, one use more. */
  function RecordUse(logs: map<string, map<string, int>>, passengerId: string,
                     promoId: string): (logs': map<string, map<string, int>>)
    ensures UsageCount(logs', passengerId, promoId) == UsageCount(logs, passengerId, promoId) + 1
    ensures forall q, id :: (q != passengerId || id != promoId) ==>
              UsageCount(logs', q, id) == UsageCount(logs, q, id)
  {
    var userLog := if passengerId in logs then logs[passengerId] else map[];
    logs[passengerId := userLog[promoId := UsageCount(logs, passengerId, promoId) + 1]]
  }

  /** `logUsage` with the passenger's use recorded, as the usage log and
      `checkUsageLimit` intend: counters as in the source, and one more use
      of a known promotion for this passenger. */
  function LogUsage(e: Engine, passengerId: string, promoId: string, benefitAmount: real,
                    revenueGenerated: real): (e': Engine)
    ensures e'.rules == LogUsageAsWritten(e, promoId, benefitAmount, revenueGenerated).rules
    ensures FindFirst(e.rules, HasPromoId(promoId)).Some? ==>
      UsageCount(e'.usageLogs, passengerId, promoId) == UsageCount(e.usageLogs, passengerId, promoId) + 1
    ensures FindFirst(e.rules, HasPromoId(promoId)).None? ==> e' == e
    ensures forall q, id :: (q != passengerId || id != promoId) ==>
              UsageCount(e'.usageLogs, q, id) == UsageCount(e.usageLogs, q, id)
  {
    var rules := CountUse(e.rules, promoId, benefitAmount, revenueGenerated);
    if FindFirst(e.rules, HasPromoId(promoId)).Some? then
      Engine(rules, RecordUse(e.usageLogs, passengerId, promoId))
    else e
  }

  /** The global budget closes a rule: once the use that reaches
      `maxTotalUsage` is logged, the rule is no longer active. */
  lemma LogUsageExhaustsQuota(rules: seq<Rule>, promoId: string, benefitAmount: real,
                              revenueGenerated: real, now: real)
    requires FindFirst(rules, HasPromoId(promoId)).Some?
    requires
      var p := rules[FindFirst(rules, HasPromoId(promoId)).value];
      p.maxTotalUsage.Some? && p.maxTotalUsage.value > 0.0 &&
      (p.currentTotalUsage + 1) as real >= p.maxTotalUsage.value
    ensures
      var k := FindFirst(rules, HasPromoId(promoId)).value;
      !IsPromoActive(CountUse(rules, promoId, benefitAmount, revenueGenerated)[k], now)
  {
  }

  /** With the use recorded, a passenger who has used a rule `limit` times
      is refused it. */
  lemma PerUserLimitBinds(e: Engine, passengerId: string, promoId: string, benefitAmount: real,
                          revenueGenerated: real)
    requires FindFirst(e.rules, HasPromoId(promoId)).Some?
    ensures
      var limit := (UsageCount(e.usageLogs, passengerId, promoId) + 1) as real;
      var e' := LogUsage(e, passengerId, promoId, benefitAmount, revenueGenerated);
      limit > 0.0 ==> !CheckUsageLimit(e'.usageLogs, passengerId, promoId, limit)
  {
  }

  /** As written, a passenger can take a rule limited to one use per user
      again right after using it: the usage log never changes. The rule is
      an always-on ride discount with `maxUsagePerUser` 1. */
  lemma PerUserLimitNeverBinds()
    ensures
      var p := Rule("PROMO-ONCE", "Once per user", RideDiscount,
                    Condition(None, None, None, None, None), None, None, Some(1.0), None, 0,
                    Benefit(None, None, Some(1.0)), true, PromoStats(0, 0.0, 0.0));
      var e := Engine([p], map[]);
      var first := EvaluateRide(e, "P1", 0.0, 12.0, None, 0.0);
      var e' := LogUsageAsWritten(e, p.id, 1.0, 0.0);
      && first.rule == Some(p)
      && EvaluateRide(e', "P1", 1.0, 12.0, None, 0.0).rule == Some(e'.rules[0])
  {
    var p := Rule("PROMO-ONCE", "Once per user", RideDiscount,
                  Condition(None, None, None, None, None), None, None, Some(1.0), None, 0,
                  Benefit(None, None, Some(1.0)), true, PromoStats(0, 0.0, 0.0));
    var e := Engine([p], map[]);
    assert RideQualifies(e, "P1", 0.0, 12.0, None, 0.0)(p);
    var e' := LogUsageAsWritten(e, p.id, 1.0, 0.0);
    assert e'.rules[0] == Used(p, 1.0, 0.0);
    assert RideQualifies(e', "P1", 1.0, 12.0, None, 0.0)(e'.rules[0]);
  }

  /** The corrected engine refuses that second use. */
  lemma PerUserLimitBindsExample()
    ensures
      var p := Rule("PROMO-ONCE", "Once per user", RideDiscount,
                    Condition(None, None, None, None, None), None, None, Some(1.0), None, 0,
                    Benefit(None, None, Some(1.0)), true, PromoStats(0, 0.0, 0.0));
      var e' := LogUsage(Engine([p], map[]), "P1", p.id, 1.0, 0.0);
      EvaluateRide(e', "P1", 1.0, 12.0, None, 0.0).rule == None
  {
    var p := Rule("PROMO-ONCE", "Once per user", RideDiscount,
                  Condition(None, None, None, None, None), None, None, Some(1.0), None, 0,
                  Benefit(None, None, Some(1.0)), true, PromoStats(0, 0.0, 0.0));
    var e := Engine([p], map[]);
    var e' := LogUsage(e, "P1", p.id, 1.0, 0.0);
    assert UsageCount(e'.usageLogs, "P1", p.id) == 1;
    assert !RideQualifies(e', "P1", 1.0, 12.0, None, 0.0)(e'.rules[0]);
  }

  // ---------------------------------------------------------------------
  // Administration
  // ---------------------------------------------------------------------

  /** `togglePromotion`: flips `active` on the first rule with that id and
      returns it; an unknown id changes nothing. */
  function Toggle(rules: seq<Rule>, id: string): (r: (seq<Rule>, Option<Rule>))
    ensures |r.0| == |rules|
    ensures FindFirst(rules, HasPromoId(id)).None? ==> r == (rules, None)
    ensures FindFirst(rules, HasPromoId(id)).Some? ==>
      var k := FindFirst(rules, HasPromoId(id)).value;
      && r.0[k].active == !rules[k].active
      && r.0[k].(active := rules[k].active) == rules[k]
      && r.1 == Some(r.0[k])
      && forall i :: 0 <= i < |rules| && i != k ==> r.0[i] == rules[i]
  {
    match FindFirst(rules, HasPromoId(id))
    case None => (rules, None)
    case Some(k) =>
      var p := rules[k].(active := !rules[k].active);
      (rules[k := p], Some(p))
  }

  /** Toggling the same id twice restores the rule list. */
  lemma ToggleTwice(rules: seq<Rule>, id: string)
    ensures Toggle(Toggle(rules, id).0, id).0 == rules
  {
    var once := Toggle(rules, id).0;
    if FindFirst(rules, HasPromoId(id)).Some? {
      var k := FindFirst(rules, HasPromoId(id)).value;
      assert HasPromoId(id)(once[k]);
      assert FindFirst(once, HasPromoId(id)) == Some(k);
    }
  }

  datatype CreatePromotionDto = CreatePromotionDto(
    name: string,
    kind: PromoType,
    minTopupAmount: Option<real>,
    bonusPoints: Option<real>,
    isFreeRide: Option<bool>,
    maxUsagePerUser: Option<real>,
    maxTotalUsage: Option<real>,
    startDate: Option<real>,
    endDate: Option<real>,
    startTime: Option<string>,
    endTime: Option<string>,
    allowedAreaIds: Option<seq<string>>)

  /** The rule `createPromotion` builds; `newId` stands for `PROMO-<time>`. */
  function NewRule(dto: CreatePromotionDto, newId: string): (p: Rule)
    ensures p.active && p.currentTotalUsage == 0 && p.stats == PromoStats(0, 0.0, 0.0)
    ensures p.maxUsagePerUser == Some(dto.maxUsagePerUser.GetOr(0.0))
    ensures p.maxTotalUsage == Some(dto.maxTotalUsage.GetOr(0.0))
    ensures p.condition.maxPriorRides.None? && p.benefit.discountAmount.None?
  {
    Rule(newId, dto.name, dto.kind,
         Condition(dto.minTopupAmount, None, dto.startTime, dto.endTime, dto.allowedAreaIds),
         dto.startDate, dto.endDate,
         Some(dto.maxUsagePerUser.GetOr(0.0)), Some(dto.maxTotalUsage.GetOr(0.0)), 0,
         Benefit(dto.bonusPoints, dto.isFreeRide, None),
         true, PromoStats(0, 0.0, 0.0))
  }

  /** `createPromotion` appends the new rule and keeps the others. */
  function CreatePromotion(rules: seq<Rule>, dto: CreatePromotionDto, newId: string): (r: seq<Rule>)
    ensures |r| == |rules| + 1 && r[..|rules|] == rules && r[|rules|] == NewRule(dto, newId)
  {
    rules + [NewRule(dto, newId)]
  }

  /** A freshly created top-up rule applies: when the date range admits
      `now` and the amount reaches its minimum, the offered bonus is at least
      the new rule's. */
  lemma CreatedTopupRuleApplies(e: Engine, dto: CreatePromotionDto, newId: string,
                                passengerId: string, amount: real, now: real)
    requires dto.kind == TopupBonus
    requires dto.minTopupAmount.Some? && amount >= dto.minTopupAmount.value
    requires !(dto.startDate.Some? && dto.startDate.value > now)
    requires !(dto.endDate.Some? && dto.endDate.value < now)
    requires UsageCount(e.usageLogs, passengerId, newId) == 0
    ensures
      var e' := e.(rules := CreatePromotion(e.rules, dto, newId));
      var offer := EvaluateTopup(e', passengerId, amount, now);
      offer.rule.Some? && offer.bonus >= dto.bonusPoints.GetOr(0.0)
  {
    var e' := e.(rules := CreatePromotion(e.rules, dto, newId));
    var p := NewRule(dto, newId);
    assert e'.rules[|e.rules|] == p;
    assert TopupEligible(e', passengerId, amount, now)(e'.rules[|e.rules|]);
  }

  // ---------------------------------------------------------------------
  // ROI report
  // ---------------------------------------------------------------------

  /** Return on investment in percent; 0 when nothing was spent. */
  function Roi(cost: real, revenue: real): (roi: real)
    ensures cost <= 0.0 ==> roi == 0.0
    ensures cost > 0.0 ==> roi * cost == (revenue - cost) * 100.0
    ensures cost > 0.0 ==> (roi > 0.0 <==> revenue > cost) && (roi < 0.0 <==> revenue < cost)
  {
    if cost > 0.0 then ((revenue - cost) / cost) * 100.0 else 0.0
  }

  datatype Report = Report(
    id: string, name: string, usage: int, cost: real, revenue: real,
    profit: real, roi: real, costPerUser: real, isActive: bool)

  /** One row of `getSimulationReport` (one point costs one baht). */
  function ReportOf(p: Rule, now: real): (r: Report)
    ensures r.cost == p.stats.totalPointsGiven && r.revenue == p.stats.revenue
    ensures r.profit == r.revenue - r.cost
    ensures r.roi == Roi(r.cost, r.revenue)
    ensures p.stats.usersCount > 0 ==> r.costPerUser * (p.stats.usersCount as real) == r.cost
    ensures p.stats.usersCount <= 0 ==> r.costPerUser == 0.0
    ensures r.isActive <==> IsPromoActive(p, now)
  {
    var cost := p.stats.totalPointsGiven;
    var revenue := p.stats.revenue;
    Report(p.id, p.name, p.stats.usersCount, cost, revenue, revenue - cost, Roi(cost, revenue),
           if p.stats.usersCount > 0 then cost / (p.stats.usersCount as real) else 0.0,
           IsPromoActive(p, now))
  }

  function SimulationReport(rules: seq<Rule>, now: real): (r: seq<Report>)
    ensures |r| == |rules|
    ensures forall i :: 0 <= i < |rules| ==> r[i] == ReportOf(rules[i], now)
  {
    if |rules| == 0 then [] else [ReportOf(rules[0], now)] + SimulationReport(rules[1..], now)
  }
}
