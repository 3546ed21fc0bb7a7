/** The passenger wallet ledger: balances, the transaction log, the
    per-passenger credit lock and the promotion engine it consults. Each
    operation takes the lock, works, and releases it on every way out; a
    failed transaction rolls back, so the state after it is the state
    before. The base ride cost, the hour of day and the clock reading are
    parameters. */
module Credit {
  import opened Util
  import opened Promotion

  datatype TxnType = TopupTxn | DeductTxn | RefundTxn

  /** A row of the wallet transaction log. */
  datatype Txn = Txn(passengerId: string, kind: TxnType, pointChange: real, amountBaht: real, reference: string)

  datatype Payment = Payment(passengerId: string, amountBaht: real, paymentId: string)

  datatype Ledger = Ledger(
    wallet: map<string, real>,    // passenger id to point balance
    locks: set<string>,           // passengers whose credit lock is held
    txns: seq<Txn>,
    payments: seq<Payment>,
    promos: Engine)

  // ---------------------------------------------------------------------
  // Lock
  // ---------------------------------------------------------------------

  /** `acquireLock`: set-if-absent on the passenger's lock key. */
  function AcquireLock(locks: set<string>, passengerId: string): (r: (bool, set<string>))
    ensures r.0 <==> passengerId !in locks
    ensures r.1 == locks + {passengerId}
  {
    (passengerId !in locks, locks + {passengerId})
  }

  function ReleaseLock(locks: set<string>, passengerId: string): (r: set<string>)
    ensures passengerId !in r
    ensures forall q :: q != passengerId ==> (q in r <==> q in locks)
  {
    locks - {passengerId}
  }

  /** A lock that was free, taken and released, is free again and no other
      lock changed. */
  lemma AcquireReleaseRestores(locks: set<string>, passengerId: string)
    requires passengerId !in locks
    ensures ReleaseLock(AcquireLock(locks, passengerId).1, passengerId) == locks
  {
  }

  // ---------------------------------------------------------------------
  // Rate, balance, ride count
  // ---------------------------------------------------------------------

  /** `getEffectiveRate`: a cached rate wins (`cached` holds the parsed
      value of a non-empty cache entry); otherwise the newest active
      configuration row, unless it is missing or 0, falls back to 2.0. The
      rate read is written back to the cache. */
  function GetEffectiveRate(cached: Option<real>, configured: Option<real>): (r: (real, Option<real>))
    ensures cached.Some? ==> r == (cached.value, cached)
    ensures cached.None? ==> r.1 == Some(r.0)
    ensures cached.None? && configured.Some? && configured.value != 0.0 ==> r.0 == configured.value
    ensures cached.None? && (configured.None? || configured.value == 0.0) ==> r.0 == 2.0
  {
    if cached.Some? then (cached.value, cached)
    else
      var rate := if configured.Some? && configured.value != 0.0 then configured.value else 2.0;
      (rate, Some(rate))
  }

  /** Once read, the rate is served from the cache: a second read gives
      the same rate whatever the configuration says by then. */
  lemma EffectiveRateStable(cached: Option<real>, configured: Option<real>, later: Option<real>)
    ensures var (rate, cache) := GetEffectiveRate(cached, configured);
      GetEffectiveRate(cache, later) == (rate, cache)
  {
  }

  /** `getBalance`: 0 for a passenger without a wallet row. */
  function Balance(s: Ledger, passengerId: string): real {
    if passengerId in s.wallet then s.wallet[passengerId] else 0.0
  }

  function IsDeductOf(passengerId: string): Txn -> bool {
    (t: Txn) => t.passengerId == passengerId && t.kind == DeductTxn
  }

  /** `getRideCount`: the passenger's DEDUCT rows. */
  function RideCount(s: Ledger, passengerId: string): (n: nat)
    ensures n <= |s.txns|
    ensures n == 0 <==> forall i :: 0 <= i < |s.txns| ==> !IsDeductOf(passengerId)(s.txns[i])
  {
    Count(s.txns, IsDeductOf(passengerId))
  }

  /** What a ride costs under an offer: nothing when free, otherwise the
      base cost less the discount, never below 0. */
  function EffectiveCost(offer: RideOffer, baseCost: real): (c: real)
    ensures c >= 0.0
    ensures offer.isFree ==> c == 0.0
    ensures !offer.isFree ==> c == MaxR(0.0, baseCost - offer.discount)
    ensures c <= MaxR(0.0, baseCost) || offer.discount < 0.0
  {
    if offer.isFree then 0.0 else MaxR(0.0, baseCost - offer.discount)
  }

  /** The ride promotion consulted by the ledger: no area id is passed. */
  function RideOfferFor(s: Ledger, passengerId: string, hour: real, now: real): RideOffer {
    EvaluateRide(s.promos, passengerId, RideCount(s, passengerId) as real, hour, None, now)
  }

  /** `checkAvailability`: a free ride is always available, otherwise the
      balance must cover the discounted cost. */
  function CheckAvailability(s: Ledger, passengerId: string, baseCost: real, hour: real, now: real): (ok: bool)
    ensures RideOfferFor(s, passengerId, hour, now).isFree ==> ok
    ensures !RideOfferFor(s, passengerId, hour, now).isFree ==>
      (ok <==> Balance(s, passengerId) >= MaxR(0.0, baseCost - RideOfferFor(s, passengerId, hour, now).discount))
  {
    var promo := RideOfferFor(s, passengerId, hour, now);
    if promo.isFree then true
    else Balance(s, passengerId) >= MaxR(0.0, baseCost - promo.discount)
  }

  // ---------------------------------------------------------------------
  // Deduction
  // ---------------------------------------------------------------------

  datatype DeductReply = SystemBusy | Deducted(ok: bool)

  /** The committed part of a deduction: take a positive cost from the
      wallet row, log the DEDUCT row, count the applied rule. The rule is
      counted as the source counts it, by `logUsage(rule.id, benefit)`:
      the rule's counters move, no per-passenger use is recorded. */
  function CommitDeduct(s: Ledger, passengerId: string, tripId: string, offer: RideOffer,
                        cost: real, baseCost: real): (s': Ledger)
    requires cost >= 0.0 && (cost > 0.0 ==> passengerId in s.wallet)
    ensures s'.locks == s.locks && s'.payments == s.payments
    ensures Balance(s', passengerId) == Balance(s, passengerId) - cost
    ensures forall q :: q != passengerId ==> Balance(s', q) == Balance(s, q)
    ensures forall q :: q in s'.wallet <==> q in s.wallet
    ensures s'.txns == s.txns + [Txn(passengerId, DeductTxn, -cost, 0.0, tripId)]
    ensures s'.promos.usageLogs == s.promos.usageLogs
    ensures offer.rule.None? ==> s'.promos == s.promos
    ensures offer.rule.Some? ==>
      s'.promos.rules == CountUse(s.promos.rules, offer.rule.value.id,
                                  if offer.isFree then baseCost else offer.discount, 0.0)
  {
    var wallet := if cost > 0.0 then s.wallet[passengerId := s.wallet[passengerId] - cost] else s.wallet;
    var promos :=
      if offer.rule.Some?
      then LogUsageAsWritten(s.promos, offer.rule.value.id, if offer.isFree then baseCost else offer.discount, 0.0)
      else s.promos;
    Ledger(wallet, s.locks, s.txns + [Txn(passengerId, DeductTxn, -cost, 0.0, tripId)], s.payments, promos)
  }

  /** `deductForRide`: under the lock, a non-free ride needs a wallet row
      whose balance covers the cost (otherwise the transaction rolls back
      and the answer is false); the cost is taken when positive, a DEDUCT
      row of minus the cost is logged, and an applied rule counts the
      saving (the base cost for a free ride, the discount otherwise). */
  function DeductForRide(s: Ledger, passengerId: string, tripId: string, baseCost: real,
                         hour: real, now: real): (r: (DeductReply, Ledger))
    ensures r.0 == SystemBusy <==> passengerId in s.locks
    ensures r.0 != Deducted(true) ==> r.1 == s
    ensures r.1.locks == s.locks
    ensures passengerId !in s.locks ==>
      var offer := RideOfferFor(s, passengerId, hour, now);
      (r.0 == Deducted(true) <==>
         offer.isFree ||
         (passengerId in s.wallet && s.wallet[passengerId] >= EffectiveCost(offer, baseCost)))
    ensures r.0 == Deducted(true) ==>
      var offer := RideOfferFor(s, passengerId, hour, now);
      r.1 == CommitDeduct(s, passengerId, tripId, offer, EffectiveCost(offer, baseCost), baseCost)
    ensures r.1.promos.usageLogs == s.promos.usageLogs
  {
    var (acquired, held) := AcquireLock(s.locks, passengerId);
    if !acquired then (SystemBusy, s)
    else
      AcquireReleaseRestores(s.locks, passengerId);
      var offer := RideOfferFor(s, passengerId, hour, now);
      var cost := EffectiveCost(offer, baseCost);
      if !offer.isFree && (passengerId !in s.wallet || s.wallet[passengerId] < cost) then
        (Deducted(false), s.(locks := ReleaseLock(held, passengerId)))
      else
        var s' := CommitDeduct(s, passengerId, tripId, offer, cost, baseCost);
        (Deducted(true), s'.(locks := ReleaseLock(held, passengerId)))
  }

  /** The availability check and the deduction agree: for a passenger whose
      lock is free and who has a wallet row (or rides free), the check says
      yes exactly when the deduction succeeds. */
  lemma AvailabilityMatchesDeduction(s: Ledger, passengerId: string, tripId: string, baseCost: real,
                                     hour: real, now: real)
    requires passengerId !in s.locks
    requires RideOfferFor(s, passengerId, hour, now).isFree || passengerId in s.wallet
    ensures CheckAvailability(s, passengerId, baseCost, hour, now) <==>
            DeductForRide(s, passengerId, tripId, baseCost, hour, now).0 == Deducted(true)
  {
  }

  /** Without a wallet row the two disagree: a discount that covers the
      whole base cost makes the check pass on the default balance of 0,
      while the deduction finds no row and refuses. */
  lemma AvailabilityWithoutWalletRow()
    ensures
      var s := Ledger(map[], {}, [], [], Engine([FullDiscount()], map[]));
      && CheckAvailability(s, "P1", 2.0, 12.0, 0.0)
      && DeductForRide(s, "P1", "T1", 2.0, 12.0, 0.0).0 == Deducted(false)
  {
    var s := Ledger(map[], {}, [], [], Engine([FullDiscount()], map[]));
    FullDiscountOffered(s);
    assert EffectiveCost(RideOfferFor(s, "P1", 12.0, 0.0), 2.0) == 0.0;
  }

  /** A ride rule without conditions taking 2 points off. */
  function FullDiscount(): Rule {
    Rule("PROMO-HALF", "Discount", RideDiscount, Condition(None, None, None, None, None),
         None, None, None, None, 0, Benefit(None, None, Some(2.0)), true, PromoStats(0, 0.0, 0.0))
  }

  lemma FullDiscountOffered(s: Ledger)
    requires s == Ledger(map[], {}, [], [], Engine([FullDiscount()], map[]))
    ensures RideOfferFor(s, "P1", 12.0, 0.0) == RideOffer(Some(FullDiscount()), 2.0, false)
  {
    assert RideQualifies(s.promos, "P1", 0.0, 12.0, None, 0.0)(FullDiscount());
  }

  /** A ride rule without conditions taking 2 points off, at most once per
      passenger. */
  function OncePerPassenger(): Rule {
    Rule("PROMO-ONCE", "Once per passenger", RideDiscount, Condition(None, None, None, None, None),
         None, None, Some(1.0), None, 0, Benefit(None, None, Some(2.0)), true, PromoStats(0, 0.0, 0.0))
  }

  /** The ledger counts uses as the source does, so a rule limited to one
      use per passenger is offered again on the passenger's second ride:
      P1, with 10 points, takes two discounted rides of base cost 2 and
      pays nothing for either. */
  lemma SecondRideStillDiscounted()
    ensures
      var s0 := Ledger(map["P1" := 10.0], {}, [], [], Engine([OncePerPassenger()], map[]));
      var (first, s1) := DeductForRide(s0, "P1", "T1", 2.0, 12.0, 0.0);
      var (second, s2) := DeductForRide(s1, "P1", "T2", 2.0, 12.0, 0.0);
      && first == Deducted(true) && second == Deducted(true)
      && RideOfferFor(s1, "P1", 12.0, 0.0).rule.Some?
      && Balance(s2, "P1") == 10.0
  {
    var s0 := Ledger(map["P1" := 10.0], {}, [], [], Engine([OncePerPassenger()], map[]));
    var p := OncePerPassenger();
    OncePerPassengerOffered(s0, p);
    var (first, s1) := DeductForRide(s0, "P1", "T1", 2.0, 12.0, 0.0);
    assert s1.promos.rules[0] == Used(p, 2.0, 0.0);
    assert s1.promos.usageLogs == map[];
    OncePerPassengerOffered(s1, s1.promos.rules[0]);
  }

  /** With no usage logged, the once-per-passenger rule (however much it
      has been used) gives P1 a ride discount of 2 at noon. */
  lemma OncePerPassengerOffered(s: Ledger, p: Rule)
    requires s.promos.rules == [p] && s.promos.usageLogs == map[]
    requires p == OncePerPassenger().(currentTotalUsage := p.currentTotalUsage, stats := p.stats)
    ensures RideOfferFor(s, "P1", 12.0, 0.0).rule.Some?
    ensures RideOfferFor(s, "P1", 12.0, 0.0).discount == 2.0
  {
    assert !Truthy(p.condition.startTime) && TimeWindowOk(p.condition, 12.0);
    assert RideQualifies(s.promos, "P1", RideCount(s, "P1") as real, 12.0, None, 0.0)(p);
  }

  // ---------------------------------------------------------------------
  // Top-up and refund
  // ---------------------------------------------------------------------

  datatype TopupReceipt = TopupReceipt(pointsAdded: real, bonus: real, paymentId: string)

  datatype TopupReply = TopupBusy | ToppedUp(receipt: TopupReceipt)

  /** The committed part of a top-up; an applied rule is counted by
      `logUsage(rule.id, bonus)`, with no per-passenger use recorded. */
  function CommitTopup(s: Ledger, passengerId: string, amount: real, paymentId: string,
                       offer: TopupOffer): (s': Ledger)
    ensures s'.locks == s.locks
    ensures Balance(s', passengerId) == Balance(s, passengerId) + amount + offer.bonus
    ensures passengerId in s'.wallet
    ensures forall q :: q != passengerId ==> Balance(s', q) == Balance(s, q)
    ensures s'.txns == s.txns + [Txn(passengerId, TopupTxn, amount + offer.bonus, amount, paymentId)]
    ensures s'.payments == s.payments + [Payment(passengerId, amount, paymentId)]
    ensures s'.promos.usageLogs == s.promos.usageLogs
    ensures offer.rule.None? ==> s'.promos == s.promos
    ensures offer.rule.Some? ==> s'.promos.rules == CountUse(s.promos.rules, offer.rule.value.id, offer.bonus, 0.0)
  {
    var total := amount + offer.bonus;
    var promos :=
      if offer.rule.Some? then LogUsageAsWritten(s.promos, offer.rule.value.id, offer.bonus, 0.0)
      else s.promos;
    Ledger(s.wallet[passengerId := Balance(s, passengerId) + total], s.locks,
           s.txns + [Txn(passengerId, TopupTxn, total, amount, paymentId)],
           s.payments + [Payment(passengerId, amount, paymentId)], promos)
  }

  /** `topup`: records the payment (its id is `paymentId`), credits the
      amount plus the best top-up bonus, logs a TOPUP row of the same
      points and counts an applied rule. */
  function Topup(s: Ledger, passengerId: string, amount: real, paymentId: string, now: real): (r: (TopupReply, Ledger))
    ensures r.0 == TopupBusy <==> passengerId in s.locks
    ensures r.0 == TopupBusy ==> r.1 == s
    ensures r.1.locks == s.locks
    ensures r.0.ToppedUp? ==>
      var offer := EvaluateTopup(s.promos, passengerId, amount, now);
      && r.0.receipt == TopupReceipt(amount + offer.bonus, offer.bonus, paymentId)
      && r.1 == CommitTopup(s, passengerId, amount, paymentId, offer)
    ensures r.1.promos.usageLogs == s.promos.usageLogs
  {
    var (acquired, held) := AcquireLock(s.locks, passengerId);
    if !acquired then (TopupBusy, s)
    else
      AcquireReleaseRestores(s.locks, passengerId);
      var offer := EvaluateTopup(s.promos, passengerId, amount, now);
      var s' := CommitTopup(s, passengerId, amount, paymentId, offer);
      assert s'.(locks := ReleaseLock(held, passengerId)) == s';
      (ToppedUp(TopupReceipt(amount + offer.bonus, offer.bonus, paymentId)),
       s'.(locks := ReleaseLock(held, passengerId)))
  }

  datatype RefundReply = RefundBusy | Refunded(points: real)

  /** `refund`: adds the points to an existing wallet row and logs a REFUND
      row whatever the update touched. */
  function Refund(s: Ledger, passengerId: string, points: real, reason: string): (r: (RefundReply, Ledger))
    ensures r.0 == RefundBusy <==> passengerId in s.locks
    ensures r.0 == RefundBusy ==> r.1 == s
    ensures r.1.locks == s.locks
    ensures r.0.Refunded? ==>
      && r.0.points == points
      && Balance(r.1, passengerId) == Balance(s, passengerId) + (if passengerId in s.wallet then points else 0.0)
      && (forall q :: q != passengerId ==> Balance(r.1, q) == Balance(s, q))
      && r.1.txns == s.txns + [Txn(passengerId, RefundTxn, points, 0.0, reason)]
      && r.1.promos == s.promos
  {
    var (acquired, held) := AcquireLock(s.locks, passengerId);
    if !acquired then (RefundBusy, s)
    else
      var wallet := if passengerId in s.wallet then s.wallet[passengerId := s.wallet[passengerId] + points] else s.wallet;
      var txns := s.txns + [Txn(passengerId, RefundTxn, points, 0.0, reason)];
      (Refunded(points), Ledger(wallet, ReleaseLock(held, passengerId), txns, s.payments, s.promos))
  }

  // ---------------------------------------------------------------------
  // The log explains the balances
  // ---------------------------------------------------------------------

  /** Net points a passenger's log rows add up to. */
  function LoggedChange(txns: seq<Txn>, passengerId: string): real {
    if |txns| == 0 then 0.0
    else
      var last := txns[|txns| - 1];
      LoggedChange(txns[..|txns| - 1], passengerId) + (if last.passengerId == passengerId then last.pointChange else 0.0)
  }

  lemma LoggedChangeAppend(txns: seq<Txn>, t: Txn, passengerId: string)
    ensures LoggedChange(txns + [t], passengerId) ==
            LoggedChange(txns, passengerId) + (if t.passengerId == passengerId then t.pointChange else 0.0)
  {
    assert (txns + [t])[..|txns|] == txns;
  }

  /** Every balance equals the sum of the passenger's logged changes. */
  ghost predicate Reconciled(s: Ledger) {
    forall q :: Balance(s, q) == LoggedChange(s.txns, q)
  }

  lemma EmptyLedgerReconciled(promos: Engine)
    ensures Reconciled(Ledger(map[], {}, [], [], promos))
  {
  }

  lemma DeductKeepsReconciled(s: Ledger, passengerId: string, tripId: string, baseCost: real,
                              hour: real, now: real)
    requires Reconciled(s)
    ensures Reconciled(DeductForRide(s, passengerId, tripId, baseCost, hour, now).1)
  {
    var r := DeductForRide(s, passengerId, tripId, baseCost, hour, now);
    if r.0 == Deducted(true) {
      var offer := RideOfferFor(s, passengerId, hour, now);
      var cost := EffectiveCost(offer, baseCost);
      assert r.1 == CommitDeduct(s, passengerId, tripId, offer, cost, baseCost);
      OneRowKeepsReconciled(s, r.1, Txn(passengerId, DeductTxn, -cost, 0.0, tripId));
    }
  }

  /** Logging one row and moving that passenger's balance by its change
      keeps the books straight. */
  lemma OneRowKeepsReconciled(s: Ledger, s': Ledger, t: Txn)
    requires Reconciled(s)
    requires s'.txns == s.txns + [t]
    requires Balance(s', t.passengerId) == Balance(s, t.passengerId) + t.pointChange
    requires forall q :: q != t.passengerId ==> Balance(s', q) == Balance(s, q)
    ensures Reconciled(s')
  {
    forall q
      ensures Balance(s', q) == LoggedChange(s'.txns, q)
    {
      LoggedChangeAppend(s.txns, t, q);
    }
  }

  lemma TopupKeepsReconciled(s: Ledger, passengerId: string, amount: real, paymentId: string, now: real)
    requires Reconciled(s)
    ensures Reconciled(Topup(s, passengerId, amount, paymentId, now).1)
  {
    var r := Topup(s, passengerId, amount, paymentId, now);
    if r.0.ToppedUp? {
      var total := r.0.receipt.pointsAdded;
      forall q
        ensures Balance(r.1, q) == LoggedChange(r.1.txns, q)
      {
        LoggedChangeAppend(s.txns, Txn(passengerId, TopupTxn, total, amount, paymentId), q);
      }
    }
  }

  /** A refund keeps the books straight for a passenger with a wallet row. */
  lemma RefundKeepsReconciled(s: Ledger, passengerId: string, points: real, reason: string)
    requires Reconciled(s)
    requires passengerId in s.wallet
    ensures Reconciled(Refund(s, passengerId, points, reason).1)
  {
    var r := Refund(s, passengerId, points, reason);
    if r.0.Refunded? {
      forall q
        ensures Balance(r.1, q) == LoggedChange(r.1.txns, q)
      {
        LoggedChangeAppend(s.txns, Txn(passengerId, RefundTxn, points, 0.0, reason), q);
      }
    }
  }

  /** For a passenger without a wallet row the refund is logged but never
      credited: the reply and the log say the points were added, the
      balance stays 0. */
  lemma RefundWithoutWalletRowIsLost(promos: Engine)
    ensures
      var s := Ledger(map[], {}, [], [], promos);
      var r := Refund(s, "P1", 10.0, "late driver");
      && r.0 == Refunded(10.0)
      && Balance(r.1, "P1") == 0.0
      && LoggedChange(r.1.txns, "P1") == 10.0
      && !Reconciled(r.1)
  {
    var s := Ledger(map[], {}, [], [], promos);
    var r := Refund(s, "P1", 10.0, "late driver");
    LoggedChangeAppend([], Txn("P1", RefundTxn, 10.0, 0.0, "late driver"), "P1");
    assert [] + [Txn("P1", RefundTxn, 10.0, 0.0, "late driver")] == r.1.txns;
  }

  /** Balances never go negative through rides: a deduction succeeds only
      when the balance covers the cost. */
  lemma DeductKeepsBalancesNonNegative(s: Ledger, passengerId: string, tripId: string, baseCost: real,
                                       hour: real, now: real)
    requires forall q :: q in s.wallet ==> s.wallet[q] >= 0.0
    ensures var s' := DeductForRide(s, passengerId, tripId, baseCost, hour, now).1;
      forall q :: q in s'.wallet ==> s'.wallet[q] >= 0.0
  {
  }
}
