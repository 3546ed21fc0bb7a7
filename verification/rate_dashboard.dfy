/** The promotion admin screen: the ROI traffic light of each promotion,
    the worst-case cost shown while drafting one, switching promotions on
    and off, the payment-method form and the usage bar. */
module RateDashboard {
  import opened Util
  import Promotion

  datatype DashStats = DashStats(usersCount: int, totalPointsGiven: real, estimatedRevenueGenerated: real)

  datatype DashPromo = DashPromo(
    id: string, name: string, kind: Promotion.PromoType, active: bool,
    startDate: string, endDate: string,
    maxTotalUsage: real, currentTotalUsage: real, stats: DashStats)

  // ---------------------------------------------------------------------
  // ROI traffic light
  // ---------------------------------------------------------------------

  datatype Light = Green | Yellow | Red

  datatype Analysis = Analysis(promoId: string, roiPercent: real, status: Light)

  /** Above 30 % is green, below 0 % red, anything between yellow. */
  function LightOf(roi: real): (l: Light)
    ensures l == Green <==> roi > 30.0
    ensures l == Red <==> roi < 0.0
    ensures l == Yellow <==> 0.0 <= roi <= 30.0
  {
    if roi > 30.0 then Green else if roi < 0.0 then Red else Yellow
  }

  /** One row of `runAIAnalysis`; the ROI is the same figure as the
      backend's simulation report. */
  function Analyze(p: DashPromo): (a: Analysis)
    ensures a.promoId == p.id
    ensures a.roiPercent == Promotion.Roi(p.stats.totalPointsGiven, p.stats.estimatedRevenueGenerated)
    ensures a.status == LightOf(a.roiPercent)
  {
    var roi := Promotion.Roi(p.stats.totalPointsGiven, p.stats.estimatedRevenueGenerated);
    Analysis(p.id, roi, LightOf(roi))
  }

  function RunAnalysis(promos: seq<DashPromo>): (r: seq<Analysis>)
    ensures |r| == |promos|
    ensures forall i :: 0 <= i < |promos| ==> r[i] == Analyze(promos[i])
  {
    seq(|promos|, i requires 0 <= i < |promos| => Analyze(promos[i]))
  }

  /** The light in terms of money: with points given, green means revenue
      above 130 % of the cost and red means revenue below the cost; with
      nothing given the light is always yellow. */
  lemma LightInMoney(p: DashPromo)
    ensures
      var cost := p.stats.totalPointsGiven;
      var rev := p.stats.estimatedRevenueGenerated;
      var l := Analyze(p).status;
      && (cost <= 0.0 ==> l == Yellow)
      && (cost > 0.0 ==> (l == Green <==> rev > 1.3 * cost) && (l == Red <==> rev < cost))
  {
    var cost := p.stats.totalPointsGiven;
    var rev := p.stats.estimatedRevenueGenerated;
    var roi := Analyze(p).roiPercent;
    if cost > 0.0 {
      assert roi * cost == (rev - cost) * 100.0;
      if roi > 30.0 {
        assert roi * cost > 30.0 * cost;
      }
    }
  }

  // ---------------------------------------------------------------------
  // Drafting a promotion
  // ---------------------------------------------------------------------

  datatype Draft = Draft(
    name: string, kind: Promotion.PromoType, minAmount: real, bonus: real, isFree: bool,
    limitPerUser: real, maxTotalUsage: real, startDate: string, endDate: string)

  /** `estimatedMaxCost`: every budgeted use paying the bonus, or 2 points
      per budgeted free ride. */
  function EstimatedMaxCost(d: Draft): (c: real)
    ensures d.kind == Promotion.TopupBonus ==> c == d.bonus * d.maxTotalUsage
    ensures d.kind == Promotion.RideDiscount ==> c == (if d.isFree then 2.0 * d.maxTotalUsage else 0.0)
  {
    if d.kind == Promotion.TopupBonus then d.bonus * d.maxTotalUsage
    else if d.isFree then 2.0 * d.maxTotalUsage else 0.0
  }

  /** The estimate is a true ceiling: any number of uses the budget allows,
      each paying the draft's benefit, costs no more. */
  lemma EstimateBoundsSpend(d: Draft, uses: real)
    requires 0.0 <= uses <= d.maxTotalUsage
    requires d.bonus >= 0.0
    ensures d.kind == Promotion.TopupBonus ==> uses * d.bonus <= EstimatedMaxCost(d)
    ensures d.kind == Promotion.RideDiscount && d.isFree ==> uses * 2.0 <= EstimatedMaxCost(d)
  {
    if d.kind == Promotion.TopupBonus {
      assert uses * d.bonus <= d.maxTotalUsage * d.bonus;
    }
  }

  /** `handleCreate`: appends an active, unused promotion; an empty name
      becomes "Untitled". `newId` stands for `P<now>`. */
  function CreatePromo(promos: seq<DashPromo>, d: Draft, newId: string): (r: seq<DashPromo>)
    ensures |r| == |promos| + 1 && r[..|promos|] == promos
    ensures var p := r[|promos|];
      && p.id == newId && p.active && p.currentTotalUsage == 0.0 && p.stats == DashStats(0, 0.0, 0.0)
      && p.name == (if d.name == "" then "Untitled" else d.name)
      && p.kind == d.kind && p.maxTotalUsage == d.maxTotalUsage
  {
    var name := if d.name == "" then "Untitled" else d.name;
    promos + [DashPromo(newId, name, d.kind, true, d.startDate, d.endDate, d.maxTotalUsage, 0.0, DashStats(0, 0.0, 0.0))]
  }

  // ---------------------------------------------------------------------
  // Switching promotions
  // ---------------------------------------------------------------------

  function HasId(id: string): DashPromo -> bool {
    (p: DashPromo) => p.id == id
  }

  /** `togglePromo`: flips `active` on the promotions with that id only. */
  function TogglePromo(promos: seq<DashPromo>, id: string): (r: seq<DashPromo>)
    ensures |r| == |promos|
    ensures forall i :: 0 <= i < |promos| ==>
      r[i] == if promos[i].id == id then promos[i].(active := !promos[i].active) else promos[i]
  {
    MapWhere(promos, HasId(id), (p: DashPromo) => p.(active := !p.active))
  }

  /** Switching twice puts everything back. */
  lemma ToggleTwiceRestores(promos: seq<DashPromo>, id: string)
    ensures TogglePromo(TogglePromo(promos, id), id) == promos
  {
    var once := TogglePromo(promos, id);
    var twice := TogglePromo(once, id);
    assert forall i :: 0 <= i < |promos| ==> twice[i] == promos[i];
  }

  // ---------------------------------------------------------------------
  // Payment methods
  // ---------------------------------------------------------------------

  datatype PayType = Bank | PromptPay | Qr

  datatype PaymentMethod = PaymentMethod(
    id: string, kind: PayType, providerName: string, accountName: string, accountNumber: string,
    qrImage: Option<string>, isActive: bool)

  datatype PaymentDraft = PaymentDraft(
    kind: Option<PayType>, providerName: string, accountName: string, accountNumber: string, qrImage: Option<string>)

  /** `handleAddPayment`: needs an account number and name; appends one
      active method, a missing type reading BANK and an empty provider
      "Bank". `newId` stands for `PM-<now>`. */
  function AddPayment(methods: seq<PaymentMethod>, draft: PaymentDraft, newId: string): (r: seq<PaymentMethod>)
    ensures draft.accountNumber == "" || draft.accountName == "" ==> r == methods
    ensures draft.accountNumber != "" && draft.accountName != "" ==>
      && |r| == |methods| + 1 && r[..|methods|] == methods
      && r[|methods|] == PaymentMethod(newId, draft.kind.GetOr(Bank),
                                       if draft.providerName == "" then "Bank" else draft.providerName,
                                       draft.accountName, draft.accountNumber, draft.qrImage, true)
  {
    if draft.accountNumber == "" || draft.accountName == "" then methods
    else
      methods + [PaymentMethod(newId, draft.kind.GetOr(Bank),
                               if draft.providerName == "" then "Bank" else draft.providerName,
                               draft.accountName, draft.accountNumber, draft.qrImage, true)]
  }

  /** The form keeps every listed method payable: none has an empty
      account number or name. */
  lemma PaymentsKeepAccounts(methods: seq<PaymentMethod>, draft: PaymentDraft, newId: string)
    requires forall i :: 0 <= i < |methods| ==> methods[i].accountNumber != "" && methods[i].accountName != ""
    ensures var r := AddPayment(methods, draft, newId);
      forall i :: 0 <= i < |r| ==> r[i].accountNumber != "" && r[i].accountName != ""
  {
  }

  // ---------------------------------------------------------------------
  // Usage bar
  // ---------------------------------------------------------------------

  /** Share of the global budget used, in percent; 0 without a budget. */
  function UsagePercent(p: DashPromo): (u: real)
    ensures p.maxTotalUsage <= 0.0 ==> u == 0.0
    ensures p.maxTotalUsage > 0.0 ==> u * p.maxTotalUsage == p.currentTotalUsage * 100.0
  {
    if p.maxTotalUsage > 0.0 then (p.currentTotalUsage / p.maxTotalUsage) * 100.0 else 0.0
  }

  /** The bar's width, capped at a full bar. */
  function BarWidth(p: DashPromo): (w: real)
    ensures w <= 100.0
    ensures w == MinR(100.0, UsagePercent(p))
  {
    MinR(100.0, UsagePercent(p))
  }

  /** The bar is full exactly when the backend would treat the budget as
      spent (a positive cap reached), and empty without a cap. */
  lemma FullBarIffBudgetSpent(p: DashPromo)
    ensures p.maxTotalUsage > 0.0 ==> (BarWidth(p) == 100.0 <==> p.currentTotalUsage >= p.maxTotalUsage)
    ensures p.maxTotalUsage <= 0.0 ==> BarWidth(p) == 0.0
  {
    if p.maxTotalUsage > 0.0 {
      var u := UsagePercent(p);
      var m := p.maxTotalUsage;
      assert u * m == p.currentTotalUsage * 100.0;
      if u < 100.0 {
        assert u * m < 100.0 * m;
      }
      if u > 100.0 {
        assert u * m > 100.0 * m;
      }
    }
  }
}
