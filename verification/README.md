# MyWin fair dispatch, modelled in Dafny

MyWin is a motorcycle-taxi ("win") app. Drivers wait at stations, and
passengers pay for rides with prepaid points. This project models its
dispatch and money logic as pure Dafny functions and proves properties
about them:

- **Browser-side dispatch.** The fairness score of a driver and the
  dispatch cycle that matches waiting riders to drivers (`Scheduler`). The
  stable sort both rely on is modelled in `Ordering`.
- **Station queues.** Redis sorted sets with a snapshot rank per driver
  (`FairQueue`). Members with equal scores are ordered by name, modelled
  in `Lex`.
- **Driver service.** Invite codes, registration, OTP login, going online,
  queue status and accepting a trip (`DriverService`), over the account
  tables (`Accounts`).
- **Authentication.** Social sign-in, PIN set-up, PIN login and the status
  probe (`Auth`).
- **Promotion engine.** Top-up bonuses, ride discounts, usage counting,
  switching rules on and off, and the ROI report (`Promotion`).
- **Credit service.** Per-passenger locks, the rate cache, the
  availability check, ride deductions, top-ups and refunds over a wallet
  ledger (`Credit`).
- **Admin service.** Queue listing, the queue override, the daily close,
  driver approval and area margins (`Admin`).
- **Request validation.** The rules that requests must pass (`Dtos`).
- **Front-end state.** The admin queue board (`QueueDashboard`), the
  passenger screen (`PassengerApp`), the simulation reducers of the main
  app (`AppReducers`), the invite-code screen (`InviteDashboard`) and the
  promotion screen (`RateDashboard`).

Values the program draws from its environment are parameters:

- the clock (`now`, `nowMs`, ISO strings);
- random ids (`newId`);
- map distances (a `Distance` function);
- date parsing (an `Option<real>` of milliseconds, or a `toIso`/`isDateString` function);
- bcrypt (`hashOf`/`matches`);
- the `ALLOW_TEST_OTP` flag;
- the formatting and parsing of Redis scores.

Redis keys become maps and sets. A sorted set becomes a sequence kept in
`ZREVRANGE` order. A `SET … NX` lock becomes set membership. SQL tables
become sequences, or maps keyed by passenger. An exception becomes an
error constructor of a result datatype, and the state is left as it was.

Points and amounts are `real`. The code uses JavaScript numbers, and
nothing in the modelled paths depends on rounding. Where JavaScript
semantics matter, the model writes them out:

- `||` on a number treats `0` as missing. See `Credit.GetEffectiveRate`.
- `parseInt` without a radix skips leading white space and a sign, reads base 16 after a `0x` or `0X` prefix and base 10 otherwise, and stops at the first non-digit. See `Promotion.ParseInt` and `Promotion.HexHourParses`.
- `Array.prototype.sort` is stable. See `Ordering.SortDesc`.
- A `Date` that does not parse compares false. See `InviteDashboard.StatusBadge`.

## Where the code differs from its own comments

The model follows the code in each of these places:

- **Score scaling.** The dispatch cycle's score multiplies the trip and
  rating terms by 100 and 10. The station queue's stored rank does not. The
  two orders can disagree (`FairQueue.ScalingDivergence`).
- **Station radius.** `findNearestStation` uses a fixed 100 m threshold
  and returns the first station in insertion order, not the nearest. The
  station's own radius is never read (`DriverService.RadiusIgnored`).
- **Timeout penalty.** `handleTimeout` re-runs the join script. That
  returns `ALREADY_QUEUED` for a queued driver, so the promised penalty
  never happens (`FairQueue.TimeoutWhileQueuedIsNoOp`).
- **Queue override.** The backend `overrideQueue` removes the driver from
  the queue while reporting "prioritized" (`Admin.OverrideDoesNotPromote`).
  The simulation's override instead backdates the driver by a day
  (`AppReducers.OverrideRaisesScore`).
- **Unknown driver going online.** `goOnline` writes a stats hash only for a driver with an account row, and ignores the join script's reply. A driver id without a row, inside a geofence, is told QUEUED while the script returned NOT_AVAILABLE (`DriverService.UnknownDriverToldQueued`).
- **One queue per driver is not enforced.** The join script checks ALREADY_QUEUED only against the target station's queue. A driver who goes online near one station and later near another is in both queues (`DriverService.DriverInTwoQueues`); the model keeps this, and states no one-queue-per-driver invariant.
- **Refunds.** A refund for a passenger without a wallet row updates no
  row but still logs the points (`Credit.RefundWithoutWalletRowIsLost`).
- **Availability vs. deduction.** `checkAvailability` treats a missing
  wallet row as balance 0, so a ride discounted to cost 0 is "available".
  `deductForRide` then refuses it for the missing row
  (`Credit.AvailabilityWithoutWalletRow`).
- **Trip lock leak.** When the passenger's credit lock is held,
  `acceptTrip` throws without releasing the trip lock. The trip then
  reads as taken (`DriverService.BusyPassengerLeaksTripLock`).
- **Missing passenger.** A trip hash without a passenger hands
  `deductForRide` a JavaScript `null`. The credit lock key and the usage-log
  lookup read it as the text `"null"`. The SQL queries receive NULL, which
  matches no wallet row and no log row, so only a free ride goes through.
  The model passes the string `"null"` everywhere. The two agree as long as
  no wallet row is named `"null"` (`DriverService.MissingPassengerDebitsNobody`).
- **Social sign-up.** A new social account is saved with the empty phone.
  `phone` is a unique column in both account tables, so once one social
  account exists in a table, the next new provider identity fails to save
  and gets no token (`Auth.SecondSocialPassengerRefused`).
- **Per-user promotion limits.** The credit service counts a used rule with
  `logUsage(rule.id, benefit)`, which never writes the per-passenger usage
  log. The ledger does the same, so a rule limited to one use per passenger
  keeps being offered (`Credit.SecondRideStillDiscounted`). The corrected
  logging is `Promotion.LogUsage` (see "Findings").
- **Invite codes.** Registration ignores an invite's expiry
  (`InviteDashboard.BadgeAgreesWithRegister`). The admin screen's "create
  code" form does not refuse a code that already exists.
- **Trip completion in the simulation.** `TRIP_ACCEPT` clears
  `matchedRiderId`, so `TRIP_COMPLETE` leaves the rider list unchanged
  (`AppReducers.CompleteAfterAcceptKeepsRiders`). The next tick's filter
  drops the rider instead (`AppReducers.ActiveRiders`).

## Model

| member | source | states |
|---|---|---|
| Types.ParseStatus | App.tsx:171 | A status string from a socket event reads as IDLE exactly when it is "IDLE"; the cast keeps any other text unvalidated |
| Ordering.SortDesc | services/scheduler.ts:95 | Sorting by descending key returns a permutation of its input that is ordered by key |
| Ordering.SortHeadIsFirstMax | services/scheduler.ts:95-97 | The sort is stable: its head is the first element of maximal key |
| Scheduler.ScoreNondecreasingInTime | services/scheduler.ts:30-47 | A driver's fairness score never drops as time passes |
| Scheduler.ScoreIncreasingWhileQueued | services/scheduler.ts:30-47 | Once a driver has joined the queue, the score rises strictly with time |
| Scheduler.ScoreNonincreasingInJoinTime | services/scheduler.ts:31 | Joining the queue earlier never lowers the score |
| Scheduler.ScoreNonincreasingInLastTrip | services/scheduler.ts:32 | An older last trip never lowers the score |
| Scheduler.TripsFactorAntitone | services/scheduler.ts:33 | The trip factor 1/max(1, trips) lies in (0, 1] and shrinks as trips grow |
| Scheduler.ScoreNonincreasingInTrips | services/scheduler.ts:33-44 | More trips never raise the score |
| Scheduler.ScoreNondecreasingInRating | services/scheduler.ts:44 | A higher rating never lowers the score |
| Scheduler.IdleDominatesExample | services/scheduler.ts:40-44 | With the ×100 and ×10 scaling, a driver idle 300 s with 10 trips and rating 4.0 scores 153.5 and outranks one idle 60 s with 1 trip and rating 5.0 (47.5) |
| Scheduler.Candidates | services/scheduler.ts:75-86 | The candidates are exactly the available drivers not yet claimed this cycle that are at the rider's target station, or within 3 km when there is none; the list is empty exactly when no such driver exists |
| Scheduler.PickWinner | services/scheduler.ts:88-98 | The winner has the highest score among the candidates and is the earliest candidate with that score |
| Scheduler.PendingRiders | services/scheduler.ts:61-63 | Every idle rider is pending and only idle riders are, the longest wait first |
| Scheduler.AvailableDrivers | services/scheduler.ts:60 | Every idle driver is available and only idle drivers are |
| Scheduler.RunDispatchCycleCorrect | services/scheduler.ts:55-140 | After a cycle, each driver and rider is untouched or MATCHED according to the logs; no driver or rider is matched twice; each match pairs an idle driver with an eligible idle rider; busy drivers and riders are unchanged |
| Scheduler.ServeLogsBestCandidate | services/scheduler.ts:86-134 | A rider who gets a log entry had candidates; the entry records the rider, the time, the wait, the number of rivals, and the winner's score and distance; no candidate scored higher |
| Scheduler.ServeAllExhausted | services/scheduler.ts:72-86 | Once every available driver is claimed, no further matches are logged |
| Scheduler.PendingHead | services/scheduler.ts:63 | The idle rider with the strictly longest wait is served first |
| Scheduler.SoleDriverWins | services/scheduler.ts:86-98 | A single eligible, unclaimed driver is the winner |
| Scheduler.LongestWaitingRiderWins | services/scheduler.ts:60-101 | When one idle driver can serve every idle rider, the cycle makes exactly one match: that driver with the longest-waiting rider |
| FairQueue.ZScore | backend/fair-queue.service.ts:35 | A member's score is absent exactly when the member is not in the set, and otherwise is that member's stored rank |
| FairQueue.Insert | backend/fair-queue.service.ts:91 | Adding a new member keeps the set ordered; the new member has its rank and every other member's score is unchanged |
| FairQueue.RemoveMember | backend/fair-queue.service.ts:117 | Removing a member keeps the set ordered; the member's score is gone, the others are unchanged, and the size drops by one exactly when it was present |
| FairQueue.ZRem | backend/fair-queue.service.ts:117 | Removing a member from one station's queue leaves the store well formed, the stats and every other station untouched |
| FairQueue.StoredRank | backend/fair-queue.service.ts:79-89 | The stored rank plus half the entry time equals the fixed part of the score |
| FairQueue.StoredRankReadsAsLiveScore | backend/fair-queue.service.ts:83-86 | Read back later, the stored rank gives the fixed part plus half the seconds spent in the queue |
| FairQueue.StoredOrderIsLiveOrder | backend/fair-queue.service.ts:75-77 | Comparing two drivers' stored ranks gives the same order as comparing their live scores (the stats snapshot taken at entry plus half the seconds queued since), at any read time |
| FairQueue.Join | backend/fair-queue.service.ts:27-100 | The reply is ALREADY_QUEUED for a queued driver, NOT_AVAILABLE when the stats status is not IDLE, and OK otherwise; only OK changes the store, which stays well formed |
| FairQueue.JoinLeavesMember | backend/fair-queue.service.ts:27-100 | After a join the driver is in the station's queue exactly when it was already there or its status was IDLE; its status is unchanged |
| FairQueue.JoinOk | backend/fair-queue.service.ts:88-98 | On OK, the driver is ranked at the stored rank for the current whole second and the queue grows by one; other members and stations are untouched; the stats hash records the station and join time |
| FairQueue.PopBest | backend/fair-queue.service.ts:105-126 | Popping returns null exactly for an empty queue, which is left unchanged; stats and other stations are never touched |
| FairQueue.PopBestCorrect | backend/fair-queue.service.ts:109-121 | The popped member has the highest rank in the queue and is the only member removed |
| FairQueue.PopManyTakesPrefix | backend/fair-queue.service.ts:105-126 | n pops return the first n members in ZREVRANGE order and leave the rest of the queue |
| FairQueue.DrainQueue | backend/fair-queue.service.ts:105-126 | Popping a whole queue returns each member once, then null |
| FairQueue.TimeoutWhileQueuedIsNoOp | backend/fair-queue.service.ts:132-140 | A timeout for a driver still in the queue changes nothing |
| FairQueue.RejoinRanksLower | backend/fair-queue.service.ts:130-138 | A driver popped and re-joining t seconds later ranks exactly 0.2·t lower than before |
| FairQueue.ScalingDivergence | backend/fair-queue.service.ts:79 | The dispatch score and the queue's stored rank can order two drivers oppositely |
| Accounts.SaveDriver | backend/driver.service.ts:179 | After a save, the row is found by its id; rows with other ids are kept and nothing else is added |
| Accounts.SavePassenger | backend/auth/auth.service.ts:104 | After a save, the row is found by its id; rows with other ids are kept and nothing else is added |
| Auth.SetPin | backend/auth/auth.service.ts:172-184 | Setting a PIN fails exactly when it is not six digits; otherwise only the user's rows in the role's table get the new hash |
| Auth.FindUser | backend/auth/auth.service.ts:188-192 | The user is looked up by phone in the table of the given role |
| Auth.ValidatePinLogin | backend/auth/auth.service.ts:186-213 | A PIN login succeeds exactly when the user exists, has a PIN hash and the PIN matches it, and returns that user's id, name and phone; "user not found" is reported exactly for an unknown phone |
| Auth.SetPinThenLogin | backend/auth/auth.service.ts:172-213 | After a six-digit PIN is set for the user with a given phone, logging in with that PIN succeeds |
| Auth.CheckUserStatus | backend/auth/auth.service.ts:215-225 | The probe reports `exists` exactly for a known phone, and `hasPin` exactly when that user has a PIN hash |
| Auth.PinLoginNeedsPin | backend/auth/auth.service.ts:186-225 | A successful PIN login implies the probe reports both exists and hasPin |
| Auth.FindOrCreateSocialUser | backend/auth/auth.service.ts:77-157 | A linked account is returned unchanged. Otherwise the save fails (no account, tables unchanged) exactly when another row of the role's table already has the empty phone. If not, a new account built from the profile is saved under the new id in the role's table, the other rows of that table are kept, and the other table is left alone |
| Auth.SocialLoginIdempotent | backend/auth/auth.service.ts:84-105 | Once a sign-in has produced an account, signing in again with the same provider identity returns the same account and creates nothing; a failed sign-in changes nothing |
| Auth.SecondSocialPassengerRefused | backend/auth/auth.service.ts:90-104 | With one social passenger already stored under the empty phone, a second provider identity gets no account, because `phone` is unique (entities/passenger.entity.ts:8) |
| Auth.SavedSocialPassengerFound | backend/auth/auth.service.ts:84-104 | A passenger saved with a provider identity is the one found by it afterwards |
| Auth.SavedSocialDriverFound | backend/auth/auth.service.ts:122-142 | A driver saved with a provider identity is the one found by it afterwards |
| Promotion.ActiveWindowIsInterval | backend/promotion.service.ts:93-105 | The times at which a rule is active form an interval |
| Promotion.CheckUsageLimit | backend/promotion.service.ts:107-113 | A positive limit allows strictly fewer uses than itself; a limit of 0 or below never refuses |
| Promotion.BestBonus | backend/promotion.service.ts:126-132 | The chosen rule has the highest bonus among those given, and there is no bonus exactly when there is no rule |
| Promotion.EvaluateTopup | backend/promotion.service.ts:117-135 | No rule is chosen exactly when none is eligible; otherwise the chosen rule is eligible and no eligible rule has a larger bonus |
| Promotion.TopupPicksFirstBest | backend/promotion.service.ts:126-131 | Among eligible rules with equal bonus, the earliest one wins |
| Promotion.HourOfTwoDigits | backend/promotion.service.ts:147-148 | The hour read from "HH:mm" is HH |
| Promotion.HexHourParses | backend/promotion.service.ts:147 | `parseInt` with no radix reads an hour written `0x10` as 16 |
| Promotion.BareHexPrefixIsNaN | backend/promotion.service.ts:147 | `parseInt` of a bare `0x` is NaN |
| Promotion.TimeWindowOfWellFormed | backend/promotion.service.ts:146-150 | For well-formed start and end times, the hour check admits exactly the hours from the start up to but excluding the end |
| Promotion.EvaluateRide | backend/promotion.service.ts:137-172 | The chosen rule is the first, in list order, that qualifies for the ride; the offer carries its discount and free flag; there is no rule, no discount and no free ride exactly when none qualifies |
| Promotion.AreaRuleNeedsArea | backend/promotion.service.ts:153-155 | Without an area, a rule restricted to areas is never chosen |
| Promotion.Used | backend/promotion.service.ts:177-180 | Logging a use adds one user, one use, the benefit and the revenue to the rule's figures and changes nothing else |
| Promotion.CountUse | backend/promotion.service.ts:174-187 | Only the first rule with the id is counted; an unknown id changes nothing |
| Promotion.LogUsageAsWritten | backend/promotion.service.ts:174-187 | As written, logging a use never records it in the per-passenger usage log |
| Promotion.RecordUse | backend/promotion.service.ts:109-111 | Recording a use raises exactly one passenger's count for one promotion by one |
| Promotion.LogUsage | backend/promotion.service.ts:174-187 | Corrected: logging a use for a known rule also raises the passenger's count for it by one |
| Promotion.LogUsageExhaustsQuota | backend/promotion.service.ts:180-185 | A use that reaches a positive global cap switches the rule off |
| Promotion.PerUserLimitBinds | backend/promotion.service.ts:107-113 | With the corrected logging, a passenger at the per-user limit is refused |
| Promotion.PerUserLimitNeverBinds | backend/promotion.service.ts:45-46 | As written, a once-per-user free ride is offered to the same passenger again |
| Promotion.PerUserLimitBindsExample | backend/promotion.service.ts:141-143 | With the corrected logging, the same once-per-user free ride is not offered a second time |
| Promotion.Toggle | backend/promotion.service.ts:82-89 | Toggling flips `active` on the first rule with the id and returns it; other rules are unchanged, and an unknown id changes nothing |
| Promotion.ToggleTwice | backend/promotion.service.ts:82-89 | Toggling twice restores the rules |
| Promotion.NewRule | backend/promotion.service.ts:53-77 | A new rule is active and unused, with zero statistics; missing limits become 0 |
| Promotion.CreatePromotion | backend/promotion.service.ts:52-80 | Creating a promotion appends the new rule and keeps the others |
| Promotion.CreatedTopupRuleApplies | backend/promotion.service.ts:117-124 | A newly created top-up rule in its date window applies to a large enough top-up, which earns at least its bonus |
| Promotion.Roi | backend/promotion.service.ts:266 | ROI is 0 without cost; otherwise it is positive exactly when revenue exceeds cost, and negative exactly when revenue falls short of it |
| Promotion.ReportOf | backend/promotion.service.ts:262-279 | A report row gives cost, revenue, profit, ROI, cost per user (0 without users) and whether the rule is active |
| Promotion.SimulationReport | backend/promotion.service.ts:261-281 | There is one report row per rule, in order |
| Credit.AcquireLock | backend/credit.service.ts:26-30 | The lock is acquired exactly when no one holds it; afterwards it is held |
| Credit.ReleaseLock | backend/credit.service.ts:32-34 | Releasing frees this passenger's lock and no other |
| Credit.AcquireReleaseRestores | backend/credit.service.ts:26-34 | Acquiring and then releasing a free lock restores the lock set |
| Credit.GetEffectiveRate | backend/credit.service.ts:36-48 | A cached rate wins; otherwise the configured rate, with 0 or a missing rate read as 2.0, is returned and cached |
| Credit.EffectiveRateStable | backend/credit.service.ts:38-39 | Once cached, the rate no longer depends on the configuration |
| Credit.RideCount | backend/credit.service.ts:63-71 | The ride count is the passenger's number of DEDUCT rows; it is 0 exactly when there are none |
| Credit.EffectiveCost | backend/credit.service.ts:176 | A free ride costs 0; otherwise the base cost minus the discount, floored at 0 |
| Credit.CheckAvailability | backend/credit.service.ts:76-94 | A free ride is always available; otherwise the balance must cover the discounted cost |
| Credit.CommitDeduct | backend/credit.service.ts:189-211 | A deduction lowers one balance by the cost and logs a DEDUCT row of minus the cost; an applied rule counts one more use and the saving in its totals, and the per-passenger usage log is left unchanged |
| Credit.DeductForRide | backend/credit.service.ts:159-223 | The reply is "system busy" exactly when the lock is held; otherwise the deduction succeeds exactly when the ride is free, or a wallet row covers the cost; only success changes the ledger, and the per-passenger usage log never changes |
| Credit.AvailabilityMatchesDeduction | backend/credit.service.ts:84-93 | For a passenger with a wallet row, or a free ride, the availability check and the deduction agree |
| Credit.AvailabilityWithoutWalletRow | backend/credit.service.ts:180-186 | Without a wallet row, a ride discounted to 0 is reported available but cannot be deducted |
| Credit.SecondRideStillDiscounted | backend/credit.service.ts:205-209 | Because a deduction never records a per-passenger use, a discount limited to one use per passenger is applied to the same passenger's second ride as well |
| Credit.CommitTopup | backend/credit.service.ts:108-142 | A top-up credits the amount plus the bonus, creating the wallet row if needed, and logs the payment and a TOPUP row; an applied rule counts one more use and the bonus, and the per-passenger usage log is left unchanged |
| Credit.Topup | backend/credit.service.ts:99-154 | A top-up is refused exactly when the lock is held; otherwise it credits the amount plus the bonus of the best eligible rule; the per-passenger usage log never changes |
| Credit.Refund | backend/credit.service.ts:226-256 | A refund is refused exactly when the lock is held; otherwise it logs the points and raises the balance only when a wallet row exists |
| Credit.DeductKeepsReconciled | backend/credit.service.ts:189-203 | Deductions keep every balance equal to the sum of its logged point changes |
| Credit.TopupKeepsReconciled | backend/credit.service.ts:121-136 | Top-ups keep every balance equal to the sum of its logged point changes |
| Credit.RefundKeepsReconciled | backend/credit.service.ts:234-245 | Refunds to a passenger with a wallet row keep every balance equal to its logged changes |
| Credit.RefundWithoutWalletRowIsLost | backend/credit.service.ts:235-245 | A refund to a passenger without a wallet row is logged but credited nowhere, so the ledger no longer reconciles |
| Credit.DeductKeepsBalancesNonNegative | backend/credit.service.ts:184-194 | A deduction never drives a balance below zero |
| DriverService.FindNearestStation | backend/driver.service.ts:87-94 | The result is the first station, in insertion order, within 100 m, and null exactly when none is |
| DriverService.RadiusIgnored | backend/driver.service.ts:88-91 | The stations' own radii do not affect the result |
| DriverService.CreateInviteCode | backend/driver.service.ts:73-80 | An existing code is refused with nothing changed; otherwise the code is added unused, active and created by ADMIN, and the other codes are kept |
| DriverService.Register | backend/driver.service.ts:160-188 | Registration fails for a missing or inactive invite, a full invite or a taken phone, each exactly in its case, and then changes nothing; on success the driver is saved PENDING at the invite's station, the other driver rows are kept, and the invite counts one more use |
| DriverService.RegisterKeepsInvitesWithinLimit | backend/driver.service.ts:161-180 | Registration never pushes an invite (with a whole-number limit) past its maximum uses |
| DriverService.CreateKeepsInvitesWithinLimit | backend/driver.service.ts:73-80 | Creating a code with at least one use keeps every invite within its limit |
| DriverService.RequestOtp | backend/driver.service.ts:109-121 | Requesting an OTP stores it for the phone and changes nothing else |
| DriverService.CheckOtp | backend/driver.service.ts:124-133 | The OTP step passes exactly for the test code with the flag on, or for the stored code; a stored code is consumed on success |
| DriverService.LoginAsWritten | backend/driver.service.ts:123-158 | As written, after a passing OTP a registered driver receives a token exactly when it is not PENDING, and waits for approval exactly when it is PENDING; an unknown phone is not registered |
| DriverService.RejectedDriverGetsToken | backend/driver.service.ts:141-157 | As written, a REJECTED driver with a valid OTP receives a token |
| DriverService.Login | backend/driver.service.ts:123-158 | Corrected: a token is issued exactly when the OTP passes and the phone belongs to an APPROVED driver; "not registered" exactly when the OTP passes for an unknown phone |
| DriverService.LoginAgreesOnPendingAndApproved | backend/driver.service.ts:141-143 | When drivers are only PENDING or APPROVED, the corrected and the as-written login agree |
| DriverService.OtpSingleUse | backend/driver.service.ts:129-133 | A requested OTP logs in once and is then refused |
| DriverService.GoOnlineWith | backend/driver.service.ts:190-214 | Going online marks the driver's row IDLE and replies QUEUED exactly when a station is within 100 m, naming that station; the driver is then in that station's queue exactly when it has an account row, was already queued there, or has a stats hash reading IDLE; a ROAMING reply leaves every queue as it was |
| DriverService.GoOnlineAsWritten | backend/driver.service.ts:197-209 | As written, with the last-trip time in milliseconds: replies QUEUED exactly when a station is near, naming it, and the driver is in its queue under the same condition as `GoOnlineWith` |
| DriverService.DriverInTwoQueues | backend/fair-queue.service.ts:27-36 | A driver that goes online near one station and then near another is in both stations' queues |
| DriverService.UnknownDriverToldQueued | backend/driver.service.ts:196-213 | A driver id with no account row and no stats hash is told QUEUED but is not in the station's queue |
| DriverService.GoOnline | backend/driver.service.ts:190-214 | Corrected: the same reply and the same queue membership, with the last-trip time in the queue's seconds |
| DriverService.MillisecondsDecideRank | backend/driver.service.ts:198-203 | As written, the milliseconds within the current second outweigh trips and rating in the queue order |
| DriverService.StatsDecideRank | backend/driver.service.ts:198-209 | Corrected, the driver with fewer trips and a better rating ranks higher |
| DriverService.OnlineRankHasNoRecency | backend/driver.service.ts:198-209 | Corrected, a driver going online is ranked on trips and rating alone, less half the current second |
| DriverService.GetQueueStatus | backend/driver.service.ts:216-224 | A driver with no recorded station is roaming; otherwise the reply gives its 1-based place (every member ahead ranks before it) and its score, both absent when it is not in that queue |
| DriverService.PopMovesQueueUp | backend/driver.service.ts:220-223 | When the head of its queue is popped, a queued driver's place moves up by one |
| DriverService.CommitAccept | backend/driver.service.ts:243-253 | An accepted trip records the driver; the driver is BUSY, leaves its station's queue and loses its station; the ledger and the locks are untouched |
| DriverService.AcceptTrip | backend/driver.service.ts:226-256 | "Trip taken" exactly when the trip lock is held; otherwise the trip is accepted exactly when the passenger's deduction succeeds, and a failed deduction releases the lock; an accepted trip holds the lock, carries the deducted ledger, and has the trip hash ACCEPTED with the driver, the driver BUSY and out of its queue |
| DriverService.MissingPassengerDebitsNobody | backend/driver.service.ts:236-237 | For a trip hash without a passenger, and no wallet row named "null", accepting debits no wallet and succeeds only on a free ride |
| DriverService.SecondAcceptRefused | backend/driver.service.ts:231-233 | Once one driver has taken a trip, a second driver is refused and nothing changes |
| DriverService.BusyPassengerLeaksTripLock | backend/driver.service.ts:231-241 | When the passenger's credit lock is held, the first accept fails and the trip stays locked against everyone else |
| Dtos.OnlineViolations | backend/dtos.ts:51-65 | Each field of a go-online request is reported exactly when it breaks its rule: an empty driver id, latitude outside ±90, longitude outside ±180 |
| Dtos.OnlineAcceptedIffNoViolation | backend/dtos.ts:51-65 | A go-online request is valid exactly when no field is reported |
| Dtos.ValidTopupCreditsAtLeastMinimum | backend/dtos.ts:182-184 | A valid top-up, with no negative bonuses configured, credits at least 20 points |
| Dtos.ValidInviteAdmitsFirstDriver | backend/dtos.ts:105-107 | A newly created valid invite code admits its first driver, unless the phone is taken |
| Dtos.ValidInviteKeepsLimit | backend/dtos.ts:93-115 | Creating a valid invite code keeps every invite within its limit |
| Dtos.ValidRefundRaisesBalance | backend/dtos.ts:196-198 | A valid refund to a passenger with a wallet raises the balance by at least 1 |
| Dtos.ZeroPerUserLimitIsUnlimited | backend/dtos.ts:229 | A per-user limit of 0 never refuses, while a positive limit refuses once it is reached |
| Admin.Flatten | backend/admin.service.ts:21 | The WITHSCORES reply lists each member followed by its formatted score, in queue order |
| Admin.Pairs | backend/admin.service.ts:22-29 | Row i pairs reply entry 2i with the parsed entry 2i+1, absent past the end |
| Admin.GetQueue | backend/admin.service.ts:20-30 | The listing loop produces exactly the pairs of the reply |
| Admin.GetQueueRoundTrip | backend/admin.service.ts:21-29 | When parsing inverts formatting, the listing gives back every queue member with its rank, in order |
| Admin.OverrideQueue | backend/admin.service.ts:32-39 | The override removes the driver from the station's queue, keeps everyone else, and logs the override first |
| Admin.OverrideDoesNotPromote | backend/admin.service.ts:33-38 | After the override, the next driver popped from that station is never the one overridden |
| Admin.PerformDailyClose | backend/admin.service.ts:110-132 | Closing fails for a date other than today and for a day already closed, each exactly in its case; otherwise it seals today with who closed it |
| Admin.ClosedStatus | backend/admin.service.ts:56-82 | The day reads as closed exactly when it has been sealed, and then names who sealed it |
| Admin.CloseOnce | backend/admin.service.ts:110-132 | The first close of today succeeds and shows as closed; a second one is refused |
| Admin.Decide | backend/admin.service.ts:153-191 | A decision fails for an unknown driver or one already decided, each exactly in its case; otherwise only that driver's rows change status, and a rejection is logged with its reason |
| Admin.DecidedAtMostOnce | backend/admin.service.ts:160-162 | A driver can be approved or rejected only once |
| Admin.Performance | backend/admin.service.ts:68-78 | An area's revenue is 2 per ride, its cost is its bonus, and margin plus cost is revenue |
| Admin.AreaTable | backend/admin.service.ts:68-78 | The area table has one row per area, in order, each that area's performance |
| Admin.AreaTableTotals | backend/admin.service.ts:68-78 | Summed over the table, revenue is 2 per ride and margin is 2 per ride less every bonus |
| Admin.SeededAreaMargins | backend/admin.service.ts:61-78 | The three reported areas have margins 2100, 1650 and 600, 4350 in all |
| QueueDashboard.TagsOf | components/AdminQueueDashboard.tsx:33-37 | The top-rated badge appears exactly for rating ≥ 4.8, the hard-working one for more than 15 trips, and the status for a driver not IDLE |
| QueueDashboard.MakeItem | components/AdminQueueDashboard.tsx:29-44 | A row carries its driver and that driver's fairness score now |
| QueueDashboard.Ranked | components/AdminQueueDashboard.tsx:55-58 | Rows are ranked 1 to n in order |
| QueueDashboard.SortedItems | components/AdminQueueDashboard.tsx:29-53 | The station's drivers become scored rows, each listed, in comparator order |
| QueueDashboard.QueueData | components/AdminQueueDashboard.tsx:21-60 | The board lists exactly the selected station's drivers, scored and ranked; idle drivers come first, each class by falling score |
| QueueDashboard.IdleFirstThenScore | components/AdminQueueDashboard.tsx:49-53 | The comparator order puts idle rows first and orders each class by falling score |
| QueueDashboard.OverrideOnlyBelowBetterIdle | components/AdminQueueDashboard.tsx:167 | The override button never shows on the first row, and a row that offers it has an idle row above it scoring at least as much |
| PassengerApp.WithDistances | components/PassengerApp.tsx:151-154 | Each station is paired with its distance from the passenger |
| PassengerApp.SortedByDistance | components/PassengerApp.tsx:151-157 | All stations, each with its distance, nearest first |
| PassengerApp.AvailableStations | components/PassengerApp.tsx:149-162 | No location gives no stations; otherwise the list is nearest first, starts with a nearest station, and holds every station within 2 km and no other besides that nearest one |
| PassengerApp.OutOfZoneIffNoStationNear | components/PassengerApp.tsx:164-165 | The passenger is out of zone exactly when there is a location and stations, and every station is farther than 2 km |
| PassengerApp.FreeRidesLeft | components/PassengerApp.tsx:142-145 | Free rides left are never negative; there are none exactly when three rides are in the history, and otherwise rides taken plus rides left make three |
| PassengerApp.CompleteTrip | components/PassengerApp.tsx:235-268 | A completed trip adds one RIDE entry; it is free among the first three and costs 2 points after |
| PassengerApp.PaidRidesAfterThree | components/PassengerApp.tsx:236-248 | Over n completed trips, only the rides beyond the first three are charged, 2 points each |
| PassengerApp.FreshPassengerCost | components/PassengerApp.tsx:238-245 | A new passenger pays nothing for three rides and 2 points for each further one |
| PassengerApp.RequestRide | components/PassengerApp.tsx:441-476 | A request asks for a top-up exactly when the balance is under 2 with no free ride left; it asks for a station exactly when affordable with none chosen; otherwise it targets the chosen station |
| PassengerApp.AcceptedRequestKeepsBalance | components/PassengerApp.tsx:443-449 | A request that goes through never leads a non-negative balance below zero when the trip completes |
| PassengerApp.FirstBonusAsWritten | components/PassengerApp.tsx:491-492 | As written, the bonus is that of the first top-up card the amount reaches |
| PassengerApp.ConfirmTopupAsWritten | components/PassengerApp.tsx:487-515 | As written, confirming credits the amount plus the first reached card's bonus and logs it; an empty amount does nothing |
| PassengerApp.HundredGetsFirstCard | components/PassengerApp.tsx:25-28 | As written, a 100 top-up credits 110, not the 120 its card advertises |
| PassengerApp.BestBonus | components/PassengerApp.tsx:25-28 | Corrected: the bonus is the largest among the cards the amount reaches |
| PassengerApp.ConfirmTopup | components/PassengerApp.tsx:487-515 | Corrected: confirming credits the amount plus the best reached bonus and logs it; an empty amount does nothing |
| PassengerApp.CardPromiseKept | components/PassengerApp.tsx:25-28 | Corrected: a top-up reaching a card credits at least that card's bonus |
| PassengerApp.HundredGetsAdvertisedBonus | components/PassengerApp.tsx:27 | Corrected: a 100 top-up credits 120 |
| AppReducers.DriverUpdateStatus | App.tsx:162-187 | OFFLINE drops the driver; a known driver takes the new status and the sent location (or the first match's); an unknown driver is appended IDLE at the default station |
| AppReducers.UpdatedDriverPresent | App.tsx:168-185 | After a status update other than OFFLINE, the driver is present; a new one starts IDLE with no trips and rating 5 |
| AppReducers.TripAccept | App.tsx:189-196 | Accepting marks the driver EN_ROUTE and clears its rider; others are unchanged |
| AppReducers.DriverRejectJob | App.tsx:198-206 | Rejecting frees the driver with a fresh last-trip time and returns the rider to IDLE; nothing else changes |
| AppReducers.RejectReturnsPairToPool | App.tsx:198-206 | After a rejection the driver is available and the rider pending for the next dispatch cycle, and the driver's score has not risen |
| AppReducers.TripComplete | App.tsx:208-222 | Completing frees the driver; the rider it held before the update is dropped, and without one the riders are unchanged |
| AppReducers.CompleteAfterAcceptKeepsRiders | App.tsx:189-222 | After an accept, completing the trip leaves the rider list unchanged |
| AppReducers.RideRequest | App.tsx:224-241 | A request replaces any earlier request of the rider with a new IDLE one at the end |
| AppReducers.RequestLeavesOneRider | App.tsx:236-239 | After a request, the rider appears exactly once |
| AppReducers.RideCancel | App.tsx:243-246 | Cancelling removes the rider and frees every driver matched to it |
| AppReducers.CancelFreesDrivers | App.tsx:245 | After a cancel, no driver holds the rider |
| AppReducers.AdminOverride | App.tsx:344-355 | The override backdates only that driver's join and last-trip times by a day |
| AppReducers.OverrideRaisesScore | App.tsx:347-351 | For a driver who joined and last finished a trip within the past day, the override never lowers its score and makes it exactly a day idle |
| AppReducers.ActiveRiders | App.tsx:387-393 | The tick keeps exactly the riders that are unmatched or held by some driver |
| InviteDashboard.StatusBadge | components/AdminInviteDashboard.tsx:104-112 | The badge reads inactive, expired, full or usable, in that priority, each exactly in its case |
| InviteDashboard.BadgeAgreesWithRegister | components/AdminInviteDashboard.tsx:104-112 | Inactive and full badges agree with registration's refusals and a usable code admits a new phone; an expired code with uses left still admits one |
| InviteDashboard.CreateCode | components/AdminInviteDashboard.tsx:49-67 | Without a code, or with an expiry that cannot be converted, nothing is added; otherwise the new code goes first, unused and active |
| InviteDashboard.CreatedCodeUsable | components/AdminInviteDashboard.tsx:52-58 | A created code with at least one use and a future expiry shows as usable |
| InviteDashboard.CreateStation | components/AdminInviteDashboard.tsx:69-83 | A station needs a name and an area and is added last |
| InviteDashboard.StationsKeepNamesAndAreas | components/AdminInviteDashboard.tsx:70 | Every listed station keeps a name and an area |
| RateDashboard.LightOf | components/AdminRateDashboard.tsx:252-267 | The light is green exactly above 30 % ROI, red exactly below 0 %, yellow otherwise |
| RateDashboard.Analyze | components/AdminRateDashboard.tsx:248-268 | The screen's ROI is the backend report's ROI, and the light follows it |
| RateDashboard.RunAnalysis | components/AdminRateDashboard.tsx:245-273 | There is one analysis per promotion, in order |
| RateDashboard.LightInMoney | components/AdminRateDashboard.tsx:249-267 | With points given, green means revenue above 130 % of cost and red revenue below cost; with none, the light is yellow |
| RateDashboard.EstimatedMaxCost | components/AdminRateDashboard.tsx:195-197 | The estimate is the bonus times the budget for top-ups, 2 per budgeted free ride, and 0 otherwise |
| RateDashboard.EstimateBoundsSpend | components/AdminRateDashboard.tsx:195-197 | Any number of uses within the budget costs no more than the estimate |
| RateDashboard.CreatePromo | components/AdminRateDashboard.tsx:203-218 | A new promotion is appended active and unused, named "Untitled" when no name is given |
| RateDashboard.TogglePromo | components/AdminRateDashboard.tsx:199-201 | Toggling flips `active` on the promotions with the id and on no other |
| RateDashboard.ToggleTwiceRestores | components/AdminRateDashboard.tsx:199-201 | Toggling twice restores the list |
| RateDashboard.AddPayment | components/AdminRateDashboard.tsx:220-233 | A method needs an account number and name; it is appended active, with BANK and "Bank" as defaults |
| RateDashboard.PaymentsKeepAccounts | components/AdminRateDashboard.tsx:221 | Every listed payment method keeps an account number and name |
| RateDashboard.UsagePercent | components/AdminRateDashboard.tsx:406 | Usage is the share of the global budget used, in percent, and 0 without a budget |
| RateDashboard.BarWidth | components/AdminRateDashboard.tsx:441 | The bar never exceeds a full bar |
| RateDashboard.FullBarIffBudgetSpent | components/AdminRateDashboard.tsx:406 | With a budget, the bar is full exactly when the budget is spent; without one it is empty |

## Left out

- Haversine distances (both the kilometre and the metre versions) are a `Distance` parameter: floating-point trigonometry has no exact model here.
- Log rounding: the match log's `toFixed(2)` rounding of distance and score, its id and its reason text are left out; the log keeps exact values.
- Date parsing, `Date.now()`, `new Date().getHours()` and ISO formatting are parameters: the clock and the calendar are outside the model.
- `Number`, `parseFloat` and `parseInt` on user input are parameters, except the hour parsing of rule times, which is modelled.
- `analyzePromotions` (an AI call), `getAllPromotions`, `getAllInviteCodes`, `getReport` and `getPendingDrivers` are left out: they only call a remote model or return stored data.
- `rejectTrip`, `completeTrip` and `onModuleInit` seeding of the driver service are left out: stubs and fixture data.
- The `geoadd` of a driver's position in `goOnline` is left out: nothing in the modelled code reads it back.
- The rate: `checkAvailability`, `deductForRide` and `acceptTrip` take the base ride cost as a parameter (`baseCost`). `Credit.GetEffectiveRate` models how the rate is read. The cache write it performs on a miss is not part of the `Credit.Ledger`.
- The SQL `trips` row update in `acceptTrip` (driver and status ACCEPTED) is left out: the model has no trips table, and the Redis trip hash carries the same facts (`DriverService.CommitAccept`).
- SQL row updates by id are modelled as updates of every row with that id: ids are primary keys.
- JWT signing and bcrypt hashing are opaque parameters; only whether a token is issued, and to whom, is modelled.
- Redis key expiry (OTPs, locks, the rate cache) is left out: the model has no clock between calls.
- Concurrency is left out. `popBestDriver`'s retry after a lost race cannot happen in a sequential model, so a pop always removes the head.
- React rendering, toasts, timers, `localStorage`, the simulation's random movement and the mock data generators are left out.
- Wallet double-apply: the passenger screen calls `setBalance` inside the `setHistory` updater. Under React StrictMode that updater may run twice. The model applies each update once.
- The Thai text of badges, descriptions and messages is left out; badges and replies are datatype constructors.
- Scheduler.RunDispatchCycle: its own contract states only that the lists keep their lengths; what it does is stated by `Scheduler.RunDispatchCycleCorrect` and the lemmas after it.
- Scheduler.Assign and Scheduler.Serve: their own contracts state only lengths and that logs are only appended; the match they make is stated by `Scheduler.ServeLogsBestCandidate` and `Scheduler.RunDispatchCycleCorrect`.
- FairQueue.HandleTimeout: its contract states only that the store stays well formed; `FairQueue.TimeoutWhileQueuedIsNoOp` states its effect on a queued driver.
- FairQueue.PopMany: its contract states only the number of pops; `FairQueue.PopManyTakesPrefix` states what they return.
- DriverService.GoOnlineAsWritten: its contract does not describe the driver row or the ROAMING case's queues; `DriverService.GoOnlineWith` does, for both versions.

## Findings

The credit ledger (`Credit`, and `DriverService.AcceptTrip` through it)
counts rule uses as the code does, with `Promotion.LogUsageAsWritten`. The
corrected logging and its binding per-user limit are stated on the
promotion engine itself.

| source | as written | input that shows it | evidently intended | confidence | as-written member | corrected member |
|---|---|---|---|---|---|---|
| backend/promotion.service.ts:174-187 | `logUsage` updates the rule's totals but never writes `usageLogs`, which `checkUsageLimit` reads, so every per-user limit always passes | a RIDE_DISCOUNT free ride with `maxUsagePerUser` 1, used by passenger P1 and then offered to P1 again | each use raises the passenger's count for the promotion, so the limit binds | not executed | Promotion.LogUsageAsWritten, Promotion.PerUserLimitNeverBinds, Credit.SecondRideStillDiscounted | Promotion.LogUsage, Promotion.PerUserLimitBinds |
| backend/driver.service.ts:198-203 | `goOnline` writes `lastTripTime: Date.now()` in milliseconds; the join script subtracts it from a time in seconds, so the recency term is about −3·10¹¹ and the milliseconds decide the order | driver A (1 trip, rating 5.0) online at 1 000 999 ms, driver B (10 trips, rating 4.0) at 1 000 000 ms: B ranks above A | the last-trip time in seconds, as the script's own comment says | not executed | DriverService.GoOnlineAsWritten, DriverService.MillisecondsDecideRank | DriverService.GoOnline, DriverService.StatsDecideRank |
| backend/driver.service.ts:141-157 | `login` refuses a token only to PENDING drivers, so a REJECTED driver still logs in | a driver row with approval REJECTED and a valid OTP | only APPROVED drivers receive a token | not executed | DriverService.LoginAsWritten, DriverService.RejectedDriverGetsToken | DriverService.Login, DriverService.LoginAgreesOnPendingAndApproved |
| components/PassengerApp.tsx:490-492 | the top-up takes the first card whose minimum the amount reaches, so 100 gets the 50-card's bonus of 10 | a top-up of 100 with the cards P1 (50, +10) and P2 (100, +20): 110 credited | the largest bonus reached, 120 for 100 as card P2 advertises | not executed | PassengerApp.ConfirmTopupAsWritten, PassengerApp.HundredGetsFirstCard | PassengerApp.ConfirmTopup, PassengerApp.HundredGetsAdvertisedBonus |
