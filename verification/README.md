# Terme: proofs about a ride-sharing marketplace

A Dafny model of the stateful core of the Terme backend (bookings and seats,
refresh-token sessions, the Telegram dialogue, and a set of small concurrent
protocols and algorithms), with proofs of what that core promises over every run.
`dafny verify dfyconfig.toml` checks all of it.

## What is modelled

**Bookings and seats** (`Bookings`, `BookingInvariants`, `BookingOutcomes`,
`BookingRules`, `BookingRuns`, `BookingCauses`, `BookingSoldOut`, `BookingStore`).
Trips, bookings and users are tables; every transaction of the repository that writes a
booking's status, a trip's seat counter or a penalty is one step: create, accept,
reject, cancel, no-show, viewed, the expiry and closing cron jobs, the admin's
force-cancel, and the driver's own trip cancel, complete, publish, seat adjustment and
accepted offer. Calls that read first and write later (create's key lookup, reject,
no-show, viewed, trip cancel, trip complete) are two steps with a ticket between them,
and anything may happen in between; the ticket names its caller. `BookingRules` states
when each call succeeds and what it leaves over the row fields and literal times alone,
and `BookingCauses` who is behind every change in a run. `BookingStore` is the same work
as methods over mutable fields, each proved to have exactly the effect the runs are
built from.

**Sessions** (`Sessions`, `SessionFamilies`, `SessionRules`, `SessionRaces`,
`SessionRaceRules`, `SessionDead`, `SessionStore`). Refresh-token rows and the in-memory
replay cache. `SessionFamilies` and `SessionRules` treat one call as one step;
`SessionRaces`, `SessionRaceRules` and `SessionDead` split every call at each await, and
a call left alone is proved to be the atomic one. `SessionStore` is the module's mutable
form, with the cache sweep as a loop.

**The Telegram dialogue** (`Dialogue`, `DialogueUndo`, `DialogueRuns`, `DialogueSaid`,
`DialogueDrafts`, `DialogueClock`, `DialogueStore`). Step order, key ownership, skip
rules, every accepted input with its clock rules, history, «Назад», the automatic car
answer and every way a flow opens. A draft's values are a map in which an absent key is
`undefined` and `Null` an explicit null.

**Protocols and windows.** `CronLock` (lease rows shared by scheduler instances), `Otp`
(read, claim, verify, consume as separate steps), `AdminLockout` with `AdminSpells` (its
counters read off the log), `Reveals` (daily cap on distinct people), `WindowLimiter`
and `BotRateLimit` (sliding windows; `Windows` counts moments in an interval).

**Algorithms.** `ImageHeader` (JPEG/PNG dimensions against an encoder), `EditDistance`
(the one-edit test against Levenshtein distance), `Ranking` and `Pagination`.

Time is an integer of milliseconds that never goes back; ratings and penalties are
hundredths. What the database, tokens, hashes and the network answer comes in as
parameters of the steps.

## What does not hold as written

* A sold-out trip can hold waiting requests: the driver's seat adjustment takes the
  last seat off sale without looking at them. `SoldOutMeansDecided` gives the exact
  condition, `HandAdjustmentBreaksTheRule` a run that does it.
* Revoking a family does not kill it at once: an in-grace replay whose pair is no
  longer cached mints again. `RevokedFamilyMintsExactlyWhenForgotten` gives the
  exact condition, `RevokedFamilyMintsAfterRestart` a run; `DeadStaysDead` and
  `DeadUnderRaces` hold once the grace window is over.
* «Назад» after the airport pick keeps the flight type (`BackUndoesAnswer`,
  `AirportPickLeavesFlightType`), and it cannot ask for the car again when fewer than
  two are left (`BackAsksThePrevious`, `CarChoiceCanVanish`).
* A time question can be a dead end late in the day: no time of the chosen day is half
  an hour ahead any more. `AnswerableExactly` gives the exact condition for every
  question, `LateOfferIsStuck` with `QuarterToMidnight` the example.
* The reveal cap fails exactly when a new account's cap exceeds the normal one
  (`CapHoldsExactly`); the configuration does not rule that out.
* The JPEG scan takes a fill byte for a marker and jumps 0xC000 bytes or more:
  `FillBytesDecide` gives the exact condition for files shorter than that,
  `OneFillByteIsEnough` a file.

## Model

| member | source | states |
|---|---|---|
| BookingRuns.SeatsNeverLost | src/modules/bookings/bookings.service.ts:304-340 | in every state any interleaving reaches, no trip is oversold, and on a published trip that was not withdrawn the seats on sale plus the seats of accepted, no-show and completed bookings are the whole car, up to the driver's own net hand adjustment |
| BookingRuns.LedgerIsHandTotal | src/modules/trips/trips.service.ts:739-782 | that hand adjustment is exactly the sum of the successful seat adjustments of the run |
| BookingRuns.TerminalForever | src/modules/bookings/bookings.service.ts:483-487 | a decided booking keeps its status in every later run |
| BookingRuns.NeverTwoLive | src/modules/bookings/bookings.service.ts:177-185 | no passenger ever has two pending, viewed or accepted bookings on one trip |
| BookingRuns.ReplayAlwaysReturnsTheBooking | src/modules/bookings/bookings.service.ts:103-152 | replaying a stored idempotency key, at either of its two lookups and after any run, returns that booking to its passenger, refuses anyone else, and changes nothing |
| BookingRuns.PenaltiesChargedOnce | src/modules/bookings/bookings.service.ts:528-592 | no booking is charged twice; a charge is 0.5 to the passenger of a no-show or 0.3 to the driver of a driver-cancelled booking; every no-show is charged and after departure; each penalty column is the sum of its charges |
| BookingRuns.ChargedExactlyForTheAct | src/modules/bookings/bookings.service.ts:534-592 | over every run each booking is charged 0.3 exactly as often as its driver cancelled it while accepted, 0.5 exactly as often as a no-show was claimed on it while accepted, and either at most once |
| BookingRuns.ClampedRatingIsOneClamp | src/modules/bookings/bookings.service.ts:534-540 | between recalculations the visible rating, floored at 0 after every charge, equals max(0, start − total charged) |
| BookingRuns.RunSafe | src/modules/bookings/bookings.service.ts:98-668 | all of the above invariants and the one-way status graph are kept by every run from every safe state |
| BookingRules.CreateSucceedsExactly | src/modules/bookings/bookings.service.ts:120-231 | a request is inserted exactly when the trip is active, someone else's, in the future, with the seats and a driver neither blocked nor deleted, and the passenger exists, has nothing alive on it, at most two requests waiting and no ride with that driver in the same Bishkek day, and the key is unused: over the row fields and the numbers |
| BookingRules.CreateRefusesTruly | src/modules/bookings/bookings.service.ts:103-215 | every refusal of create names a reason that is true of the rows and changes nothing |
| BookingRules.ClearestReasonFirst | src/modules/bookings/bookings.service.ts:177-215 | a second request for one trip is refused as such, not as a second ride that day |
| BookingRules.CountIsCardinality | src/modules/bookings/bookings.service.ts:187-195 | the counted requests are the set of the passenger's pending and viewed rows |
| BookingCauses.StatusHasCause | src/modules/bookings/bookings.service.ts:266-663 | every change of a booking's status in a step of any safe state has one of the few causes the product knows, by the one entitled to it, at the time it is allowed |
| BookingCauses.EndHasCause | src/cron/jobs/autoCompleteTrips.ts:24-36 | a trip ends by the closing job two hours after the ride, by its driver, or by an admin, and by nothing else |
| BookingCauses.BookingsAreBorn | src/modules/bookings/bookings.service.ts:216-231 | a step adds one booking at most: a request the rules allow, alive for an hour from when it was asked, or an offer taken up before departure |
| BookingCauses.DriverAskedFirst | src/modules/bookings/bookings.service.ts:412-427 | in every run each rejection, no-show and viewed stamp goes back to an earlier call of that trip's driver, made when the rows entitled him |
| BookingCauses.FinishedInTime | src/modules/trips/trips.service.ts:939-1006 | in every run a trip finishes by the closing job after departure, duration and two hours, or by an earlier call of its driver after departure; it is withdrawn by an admin or by an earlier call of its driver |
| BookingCauses.ChargedOnTheDriversWord | src/modules/bookings/bookings.service.ts:561-592 | behind every half-star charge of every run stands a call of that trip's driver, made on an accepted booking after departure |
| BookingCauses.AskExactly | src/modules/bookings/bookings.service.ts:412-663 | each stale read lets the call go on exactly for the entitled caller, and otherwise changes nothing |
| BookingCauses.WrittenWasAsked | src/modules/bookings/bookings.service.ts:561-592 | every guarded write of a run uses a ticket an earlier step asked for, by someone entitled then |
| BookingSoldOut.SoldOutMeansDecided | src/modules/bookings/bookings.service.ts:330-340 | a trip without free seats has no waiting request throughout a run if and only if no step takes the last seat off sale by hand while a request waits |
| BookingSoldOut.StepQuiet | src/modules/trips/trips.service.ts:742-782 | of all steps, exactly that hand adjustment breaks the rule |
| BookingSoldOut.HandAdjustmentBreaksTheRule | src/modules/trips/trips.service.ts:762-779 | a run from empty tables (sign-ups, a one-seat trip, one request) after which it does |
| BookingOutcomes.AcceptSucceedsExactly | src/modules/bookings/bookings.service.ts:281-302 | accept succeeds exactly for the owner of an active trip, on a waiting request the free seats cover; otherwise nothing changes |
| BookingOutcomes.AcceptDecides | src/modules/bookings/bookings.service.ts:304-340 | after accept the passenger waits nowhere else, a sold-out trip has no waiting request, only that trip's counter moved, decided bookings are untouched |
| BookingOutcomes.AcceptSpares | src/modules/bookings/bookings.service.ts:315-340 | a stranger's request survives an accept exactly when it is on another trip or seats remain, and otherwise expires |
| BookingOutcomes.CancelOutcome | src/modules/bookings/bookings.service.ts:480-540 | who may cancel, which of the three cancelled statuses results (late is under two hours before departure), when seats return, and exactly who is charged what |
| BookingOutcomes.CancelUndoesAccept | src/modules/bookings/bookings.service.ts:515-526 | accepting and then cancelling by the passenger restores every trip row and every user row |
| BookingOutcomes.CreateOutcome | src/modules/bookings/bookings.service.ts:187-231 | a create adds one pending request that lives an hour and leaves at most three of the passenger's waiting; a refusal changes nothing |
| BookingOutcomes.OneWriterWins | src/modules/bookings/bookings.service.ts:421-427 | over every run, however the writers race, one step at most takes a booking out of waiting and one at most out of accepted |
| BookingOutcomes.CountsFollowStatus | src/modules/bookings/bookings.service.ts:421-427 | exactly: a waiting booking was decided once if it waits no longer and never otherwise, an accepted one settled once if no longer accepted |
| BookingOutcomes.MissedExpiry | src/cron/jobs/expireBookings.ts:15-18 | a missed expiry pass is made up for by the next one, and repeating a pass changes nothing |
| BookingOutcomes.MissedClosing | src/cron/jobs/autoCompleteTrips.ts:23-44 | a missed closing pass is made up for by the next one |
| BookingOutcomes.WithdrawnStaysEmpty | src/modules/admin/adminTrips.service.ts:194-230 | after a force-cancel, in every later run, the trip stays cancelled and no booking on it is ever live |
| BookingRules.CloseExactly | src/cron/jobs/autoCompleteTrips.ts:23-44 | closing finishes exactly the active and direct trips past departure, duration and two hours, completes exactly their accepted bookings, and changes nothing else |
| BookingRules.ExpireExactly | src/cron/jobs/expireBookings.ts:15-18 | exactly the pending and viewed requests past their time become expired |
| BookingRules.NoShowAllowedExactly | src/modules/bookings/bookings.service.ts:561-572 | a no-show may be claimed exactly by the trip's driver, on an accepted booking, after departure, and each refusal says why |
| BookingRules.RejectAllowedExactly | src/modules/bookings/bookings.service.ts:412-420 | a request may be rejected exactly by the trip's driver while it waits |
| BookingRules.ViewAllowedExactly | src/modules/bookings/bookings.service.ts:648-655 | the stamp goes on exactly for the trip's driver on a pending, unseen request |
| BookingRules.EndAllowedExactly | src/modules/trips/trips.service.ts:939-960 | a trip may be ended exactly by its driver while active or direct, and completed only after departure |
| BookingRules.NoShowOutcome | src/modules/bookings/bookings.service.ts:579-592 | the claim wins exactly on an accepted booking, marks that row, charges its passenger 0.5 and touches nothing else |
| BookingRules.RejectOutcome | src/modules/bookings/bookings.service.ts:421-427 | the flip wins exactly on a waiting request and changes its status alone |
| BookingRules.ViewOutcome | src/modules/bookings/bookings.service.ts:657-663 | the stamp lands exactly on a pending request, with the moment |
| BookingRules.WithdrawOutcome | src/modules/admin/adminTrips.service.ts:194-230 | a withdrawal succeeds exactly on an active or direct trip and cancels every pending, viewed or accepted booking of it and no other |
| BookingRules.FinishOutcome | src/modules/trips/trips.service.ts:939-1006 | completing completes exactly the accepted bookings of an open trip |
| BookingRules.AdjustOutcome | src/modules/trips/trips.service.ts:742-782 | a seat moves exactly on the driver's own active trip, between none and what the accepted bookings leave |
| BookingRules.RecalculateOutcome | src/modules/ratings/ratings.service.ts:393-406 | a recomputed rating is the average less the penalty, kept between 1 and 5, of that user alone |
| BookingRules.FlagsOutcome | src/modules/admin/adminUsers.service.ts:212-246 | blocking changes that user's flags and neither rating nor penalty |
| BookingRules.NewTripOutcome | src/modules/passenger-requests/passenger-requests.service.ts:752-855 | a published trip sells every seat; an accepted offer's trip sells none and seats its passenger |
| BookingInvariants.CreateAdmits | src/modules/bookings/bookings.service.ts:137-231 | what a successful create has established: active foreign trip, future departure, enough seats, no live booking there, unused key |
| BookingInvariants.CreateKeeps | src/modules/bookings/bookings.service.ts:120-242 | create keeps the tables' invariants and moves every row along its status graph |
| BookingInvariants.AcceptSeats | src/modules/bookings/bookings.service.ts:304-313 | accept moves exactly the booking's seats from sale to held on its trip, none on others |
| BookingInvariants.AcceptKeeps | src/modules/bookings/bookings.service.ts:266-343 | accept keeps the tables' invariants and moves every row along its status graph |
| BookingInvariants.RejectKeeps | src/modules/bookings/bookings.service.ts:421-427 | reject's guarded write keeps the tables' invariants and moves every row along its status graph |
| BookingInvariants.CancelKeeps | src/modules/bookings/bookings.service.ts:451-547 | cancel keeps the tables' invariants and moves every row along its status graph |
| BookingInvariants.NoShowKeeps | src/modules/bookings/bookings.service.ts:579-592 | the no-show transaction keeps the tables' invariants and moves every row along its status graph |
| BookingInvariants.ViewKeeps | src/modules/bookings/bookings.service.ts:657-663 | the viewed stamp keeps the tables' invariants and moves every row along its status graph |
| BookingInvariants.ExpireKeeps | src/cron/jobs/expireBookings.ts:15-18 | the expiry update keeps the tables' invariants and moves every row along its status graph |
| BookingInvariants.AutoCompleteKeeps | src/cron/jobs/autoCompleteTrips.ts:23-44 | the closing transaction keeps the invariants and the status graph: no accepted booking is left on a closed trip |
| BookingInvariants.WithdrawKeeps | src/modules/admin/adminTrips.service.ts:194-230 | force-cancel keeps the tables' invariants and moves every row along its status graph |
| BookingInvariants.FinishKeeps | src/modules/trips/trips.service.ts:939-1006 | the driver's complete keeps the tables' invariants and moves every row along its status graph |
| BookingInvariants.AdjustKeeps | src/modules/trips/trips.service.ts:742-782 | a seat adjustment never sells below the accepted seats |
| BookingInvariants.PublishKeeps | src/modules/trips/trips.service.ts:358-390 | publishing keeps the tables' invariants and moves every row along its status graph |
| BookingInvariants.AcceptOfferKeeps | src/modules/passenger-requests/passenger-requests.service.ts:752-855 | accepting a driver's offer keeps the invariants and the status graph: the private trip is born full |
| BookingStore.Store.Create | src/modules/bookings/bookings.service.ts:120-242 | the locked transaction of create has exactly that effect and answer, and keeps the invariants |
| BookingStore.Store.Accept | src/modules/bookings/bookings.service.ts:267-343 | the accept transaction, row by row, has exactly that effect and keeps the invariants |
| BookingStore.Store.RejectRead | src/modules/bookings/bookings.service.ts:412-420 | the stale read refuses or goes on, changing nothing |
| BookingStore.Store.RejectWrite | src/modules/bookings/bookings.service.ts:421-427 | the conditional flip has exactly that effect |
| BookingStore.Store.Cancel | src/modules/bookings/bookings.service.ts:451-547 | the cancel transaction: status, seats and penalty move together |
| BookingStore.Store.NoShowRead | src/modules/bookings/bookings.service.ts:561-572 | the stale read and the passenger it carries across |
| BookingStore.Store.NoShowWrite | src/modules/bookings/bookings.service.ts:579-592 | the claim charges exactly when it wins the transition |
| BookingStore.Store.ViewedRead | src/modules/bookings/bookings.service.ts:648-655 | whether the viewed stamp goes on to its write |
| BookingStore.Store.ViewedWrite | src/modules/bookings/bookings.service.ts:657-663 | the conditional stamp |
| BookingStore.Store.ExpireBookings | src/cron/jobs/expireBookings.ts:11-20 | the row-by-row loop expires what is due and returns exactly the ids of the rows it changed |
| BookingStore.Store.AutoCompleteTrips | src/cron/jobs/autoCompleteTrips.ts:17-44 | closing trips and completing bookings by the returned ids comes to the one-step closing, and returns exactly the due trips |
| BookingStore.Store.CloseTrips | src/cron/jobs/autoCompleteTrips.ts:24-36 | the first update as a loop, with the ids it returns |
| BookingStore.Store.CompleteOn | src/cron/jobs/autoCompleteTrips.ts:37-42 | the second update as a loop, by those ids |
| BookingStore.Store.CancelTrip | src/modules/admin/adminTrips.service.ts:194-230 | the withdrawal transaction |
| BookingStore.Store.CompleteTrip | src/modules/trips/trips.service.ts:939-1006 | the guarded completion; losing the race is silent |
| BookingStore.Store.AdjustSeats | src/modules/trips/trips.service.ts:747-780 | the locked seat adjustment within its bounds |
| BookingStore.Store.PublishTrip | src/modules/trips/trips.service.ts:358-390 | a new active trip sells every seat |
| SessionFamilies.OneLivePerFamily | src/modules/auth/auth.session.ts:121-191 | in any run without restart and without evicting a fresh cache entry, unrevoked tokens plus in-grace used tokens with no cached pair are at most one per family |
| SessionFamilies.OneLiveFromTheStart | src/modules/auth/auth.session.ts:121-191 | so a new process never has two unrevoked tokens in one family |
| SessionFamilies.ColdFamilyStaysCold | src/modules/auth/auth.session.ts:121-191 | a family with neither never has an unrevoked token again in such a run |
| SessionFamilies.SamePairInGrace | src/modules/auth/auth.session.ts:138-147 | every successful refresh of one token inside its grace window returns the same pair and changes nothing |
| SessionFamilies.RefreshSucceedsExactly | src/modules/auth/auth.session.ts:129-191 | a refresh succeeds exactly for a live, unexpired token of an active user, or in grace from the cache, or in grace as a live one when forgotten |
| SessionFamilies.RotationHandsOver | src/modules/auth/auth.session.ts:153-190 | a rotation spends its token, names as successor one new token of the same family and user, and touches no other row |
| SessionRules.LogoutAllExactly | src/modules/auth/auth.session.ts:201-205 | logging out everywhere leaves every token of that user revoked, earlier revocation times standing, and no other user's token, cached pair or id touched |
| SessionRules.LogoutExactly | src/modules/auth/auth.session.ts:193-199 | logging out revokes the one token, once, and touches nothing else |
| SessionRules.RefreshAnswersExactly | src/modules/auth/auth.session.ts:121-191 | every answer a refresh can give, and exactly when it gives it |
| SessionRules.StaleReplayExactly | src/modules/auth/auth.session.ts:79-118 | in enforce mode a stale replay revokes exactly the family if the successor was used, exactly the successor if it is there unused, and nothing otherwise |
| SessionRules.RefusalsTouchNothing | src/modules/auth/auth.session.ts:121-151 | not found, revoked and expired touch no row, and in log mode no stale replay does |
| SessionRules.GoneUserSpendsTheToken | src/modules/auth/auth.session.ts:153-178 | a live token of a blocked or deleted user is spent all the same and nothing is minted |
| SessionRules.ForgottenReplayMints | src/modules/auth/auth.session.ts:145-189 | an in-grace replay whose pair was forgotten mints one live token of that user and family, changes no row, and is remembered |
| SessionRules.ChangeHasCause | src/modules/auth/auth.session.ts:70-205 | in every step each change of each row has its cause: no row of another user, family or token is touched |
| SessionRules.RowIsBorn | src/modules/auth/auth.session.ts:180-187 | a new row is a login's, or a refresh's for the user and family of the token shown |
| SessionRules.LoginExactly | src/modules/auth/auth.helpers.ts:28-41 | a login adds one live row in a family of its own |
| SessionRules.CleanupExactly | src/cron/jobs/cleanupRefreshTokens.ts:12-13 | the nightly job deletes exactly the rows more than a day past their expiry |
| SessionFamilies.DeadStaysDead | src/modules/auth/auth.session.ts:70-151 | once every token of a family is revoked and none is in grace, no run of any kind, restarts included, creates or changes a token in it |
| SessionFamilies.ReuseRevokesTheFamily | src/modules/auth/auth.session.ts:85-117 | a stale replay never mints; in enforce mode it revokes the whole family exactly when the successor was used; in log mode it changes nothing |
| SessionFamilies.RevokedFamilyMintsExactlyWhenForgotten | src/modules/auth/auth.session.ts:138-187 | a fully revoked family mints again exactly on an in-grace, unexpired replay of an active user whose pair is not cached |
| SessionFamilies.RevokedFamilyMintsAfterRestart | src/modules/auth/auth.session.ts:145-187 | a run from the empty table (login, refresh, logout everywhere, restart) after which every token is revoked and a replay inside the minute mints a live one |
| SessionDead.DeadUnderRaces | src/modules/auth/auth.session.ts:121-191 | with calls split at every await: a dead family with no call past its checks stays dead in every interleaving, whatever arrives later |
| SessionFamilies.CacheBounded | src/modules/auth/auth.session.ts:35-48 | the replay cache never exceeds 5000 entries in any run |
| Sessions.FindCachePair | src/modules/auth/auth.session.ts:35-48 | remembering a pair stores it, keeps the bound, and loses no fresh entry unless the cache is full of fresh ones |
| Sessions.OldestIsForgotten | src/modules/auth/auth.session.ts:35-48 | with five thousand fresh pairs, one more forgets the first inserted and no other |
| Sessions.RoomForgetsNothing | src/modules/auth/auth.session.ts:35-48 | with fewer, one more forgets none |
| Sessions.FindSweep | src/modules/auth/auth.session.ts:37-40 | the age sweep hides exactly the entries past their age |
| Sessions.FindLookup | src/modules/auth/auth.session.ts:50-58 | a lookup loses no fresh entry |
| SessionRaces.RotationChainsSound | src/modules/auth/auth.session.ts:153-189 | under any interleaving of split calls: used implies revoked with a successor id, successor ids are never shared, an existing successor has the same family and user |
| SessionRaces.MarksAreForever | src/modules/auth/auth.session.ts:157-160 | used_at, revoked_at and replaced_by_id never change once set |
| SessionRaces.OneWinnerPerToken | src/modules/auth/auth.session.ts:157-161 | at most one of any number of concurrent refreshes wins the mark of a token |
| SessionRaces.ChainsNeverCycle | src/modules/auth/auth.helpers.ts:28-41 | following successors never returns to a token already passed |
| SessionRaceRules.RacesTouchWithCause | src/modules/auth/auth.session.ts:79-205 | under every interleaving each change of a row in a step has its cause |
| SessionRaceRules.RaceRowIsBorn | src/modules/auth/auth.session.ts:180-187 | under every interleaving a new row is a login's or a live one for the user and family of the row the call was shown |
| SessionRaceRules.DecidesExactly | src/modules/auth/auth.session.ts:134-151 | what a call does after its read, by the row, the clock and the cache |
| SessionRaceRules.LoserConverges | src/modules/auth/auth.session.ts:161-174 | a call that loses the mark answers with the winner's pair if remembered, and otherwise mints outside the chain |
| SessionRaceRules.JudgesExactly | src/modules/auth/auth.session.ts:79-118 | a stale replay is judged by its successor: family, successor or nothing |
| SessionRaceRules.LogoutsAmidRaces | src/modules/auth/auth.session.ts:193-205 | a logout between the awaits of other calls does its whole work |
| SessionRaces.RefreshIsOneInterleaving | src/modules/auth/auth.session.ts:121-191 | a call whose steps run without interruption is the atomic refresh |
| SessionStore.Store.Refresh | src/modules/auth/auth.session.ts:121-191 | the whole call has exactly the atomic effect and answer and keeps the session invariants |
| SessionStore.Store.RejectStaleReplay | src/modules/auth/auth.session.ts:70-118 | the decision on a stale replay |
| SessionStore.Store.SweepCache | src/modules/auth/auth.session.ts:38-40 | the deleting walk over the cache leaves exactly the fresh entries in order |
| SessionStore.Store.CachePair | src/modules/auth/auth.session.ts:35-48 | sweep, drop the oldest, insert |
| SessionStore.Store.CachedPairWithinGrace | src/modules/auth/auth.session.ts:50-58 | hit, miss, or a stale entry dropped |
| SessionStore.Store.IssueTokenPair | src/modules/auth/auth.helpers.ts:28-41 | one new row, in the given family or its own |
| SessionStore.Store.SignOut | src/modules/auth/auth.session.ts:193-199 | revokes the one token |
| SessionStore.Store.SignOutEverywhere | src/modules/auth/auth.session.ts:201-205 | revokes the user's tokens |
| DialogueUndo.BackAsksThePrevious | src/bot/flows.ts:120-133 | «Назад» asks exactly the previously asked step, with only that answer and the last history entry gone, if and only if the step is not a car step with fewer than two cars left |
| DialogueUndo.BackUndoesAnswer | src/bot/flows.ts:120-133 | an answer followed by «Назад» restores draft, step and history exactly, but for the flight type after the airport pick |
| DialogueUndo.SameInputRestores | src/bot/flows.ts:120-238 | the same input after «Назад» is accepted whenever it would have been before, writes the same values, and restores draft, step and history exactly |
| DialogueUndo.SameAnswerRestores | src/bot/flows.ts:120-133 | «Назад» and then the stored values of the step written again restore draft, step and history exactly, from any reachable question |
| DialogueUndo.AnswerProgress | src/bot/flows.ts:103-118 | an accepted answer other than the flight-type toggle finishes the flow or asks a step strictly further on, appended to the history |
| DialogueUndo.ToggleStays | src/bot/flows.ts:369-372 | the flight-type toggle asks the same step again and rewrites nothing else |
| DialogueUndo.AskedStepIsBlank | src/bot/flows.ts:36-56 | the step being asked has none of its keys in the draft |
| DialogueUndo.NextIsWhereItStands | src/bot/flows.ts:108-108 | the step found is the one unfilled step all of whose predecessors are filled |
| Dialogue.LaterKeysUnread | src/bot/flows.ts:24-82 | a later step's keys are never read by an earlier step's filled test |
| Dialogue.KeysOverlapAtMain | src/bot/flows.ts:37-56 | two steps of a flow share a key only where it answers the later one |
| Dialogue.FilledReads | src/bot/flows.ts:58-82 | a step's filled test depends on its own key and the keys its skip rule names |
| DialogueRuns.HistoryNeverLies | src/bot/flows.ts:90-133 | from every way the bot opens a flow, after any inputs and any number of «Назад», the history rises strictly in the flow's order and ends with the asked, first unfilled step |
| DialogueRuns.FlowFinishes | src/bot/flows.ts:103-118 | a flow finishes within its step count |
| DialogueSaid.EveryAnswerWasGiven | src/bot/flows.ts:141-406 | at every moment of every chat each answer that stands was given in it, was within its step's bounds by the draft and clock of then, and the draft holds exactly what was said |
| DialogueSaid.AcceptsExactly | src/bot/flows.ts:141-406 | an input is accepted exactly when the asked step takes it: the places, days, times, seats, prices, cars and bags allowed, in numbers |
| DialogueSaid.StoresWhatWasSaid | src/bot/flows.ts:155-397 | an accepted answer is stored as said: the place, day and minute, the car with its own seats, the first 300 characters of a comment, the pickup by the flight's day or the check-in time |
| DialogueSaid.StoresBesides | src/bot/flows.ts:408-413 | an airport brings its kind of flight; a ride from the airport is picked up at arrival |
| DialogueSaid.ToggleSetsTheKind | src/bot/flows.ts:369-372 | the flight-type button is taken at the pickup step alone |
| DialogueDrafts.RideRunsAsChosen | src/bot/flows.ts:281-292 | over whole chats from every opening: with direction "from" the ride runs from the airport to the chosen end, otherwise the reverse, never to itself; from the airport the pickup is the arrival and is not asked |
| DialogueDrafts.OpeningStays | src/bot/listing.ts:37-60 | whatever a flow was opened with (trip, seats, route, day, price, request, airport ride, search) is in the draft until the flow is left |
| DialogueDrafts.PresetHolds | src/bot/flows.ts:417-434 | each opening presets what it was opened for |
| DialogueDrafts.AskedWhereItApplies | src/bot/flows.ts:58-82 | only what applies is asked: flight, sign and luggage of airport rides alone, and nothing already answered |
| DialogueDrafts.NothingIsMissing | src/bot/actions.ts:36-100 | at the confirmation and at the final action of every chat, everything the action reads is there |
| DialogueDrafts.OneCarAnswersItself | src/bot/flows.ts:103-118 | no car ends the flow, one answers for itself with its seats and leaves no history, more are asked |
| DialogueDrafts.BackFromTheFirst | src/bot/flows.ts:121-128 | «Назад» at a first question goes to the airport picker exactly if the flow came from there, and out otherwise |
| DialogueClock.AnswerableExactly | src/bot/flows.ts:141-413 | at every moment of every chat the question asked takes some answer exactly when it is not the confirmation, a car step has a car, a seats step a seat, and at the time, flight-time and pickup steps the last minute of the day, or the minute before the flight, is half an hour ahead (a request may leave its time open) |
| DialogueClock.LateOfferIsStuck | src/bot/format.ts:98-100 | an offer for a request of today, from half past eleven at night on, asks a time and accepts none |
| DialogueClock.QuarterToMidnight | src/bot/format.ts:98-100 | such a moment: a request for 23:50, an offer at 23:45 |
| DialogueClock.PickupBeforeFlight | src/bot/flows.ts:179-183 | a typed pickup lies a minute or more before the flight, the evening before included |
| DialogueClock.MinuteBeforeIsTypable | src/bot/flows.ts:179-183 | the minute before the flight can be typed |
| DialogueRuns.StartGood | src/bot/flows.ts:90-101 | a flow whose preset holds whole steps starts with a sound first question, the automatic car answer included |
| DialogueRuns.PresetIsWhole | src/bot/listing.ts:37-60 | the presets of every opening - booking, offer, published transfer, requests after an empty search - hold whole steps |
| DialogueRuns.OpenGood | src/bot/actions.ts:172-172 | every opening, the stored request that goes on without a start included, asks a sound first question |
| DialogueRuns.CarChoiceCanVanish | src/bot/prompts.ts:111-113 | from the menu: two cars, one chosen, one left, and «Назад» does not ask for the car |
| DialogueRuns.AirportPickLeavesFlightType | src/bot/flows.ts:348-353 | from the menu: after an airport pick and «Назад» the flight type is left in the draft |
| DialogueStore.Conversation.Advance | src/bot/flows.ts:103-118 | the six-round loop asks the first unfilled step or ends, and its guard is never exhausted |
| DialogueStore.Conversation.Start | src/bot/flows.ts:90-101 | starting overwrites the draft, keeps the last search, and asks |
| DialogueStore.Conversation.Back | src/bot/flows.ts:121-133 | «Назад» over the stored draft, with its way back to the airport picker |
| DialogueStore.Conversation.OnInput | src/bot/flows.ts:141-406 | an input is refused without a trace, or written and moved on |
| CronLock.MutualExclusion | src/cron/scheduler.ts:29-46 | over any number of instances, crashes and failed calls: if no run outlives its lease, no job runs twice at once |
| CronLock.TogetherOnlyByOverrun | src/cron/scheduler.ts:29-46 | two runs of one job go on together only if one has outlived its lease |
| CronLock.NeverOverItself | src/cron/scheduler.ts:84-90 | one instance never runs a job over itself |
| CronLock.OthersLockSurvives | src/cron/scheduler.ts:48-52 | no step takes a foreign live lock, and a release takes no foreign lock at all |
| CronLock.StolenMeansOverran | src/cron/scheduler.ts:53-64 | a release that deletes nothing means the run outlived its lease |
| CronLock.FailedCalls | src/cron/scheduler.ts:99-119 | a failed call ends the run and leaves the rows, unless it was written before it failed |
| CronLock.ExpiredCanBeTaken | src/cron/scheduler.ts:33-45 | a tick and its upsert start the job exactly when the instance is not at it and the row is missing or expired |
| CronLock.CrashDelaysUntilLeaseEnds | src/cron/scheduler.ts:13-14 | after an instance dies in a run, whoever tries later starts the job exactly when the dead run's lease has ended |
| CronLock.LockTable.Acquire | src/cron/scheduler.ts:29-46 | takes a missing or expired row, leaves a live one |
| CronLock.LockTable.Release | src/cron/scheduler.ts:48-65 | deletes the own row only and reports a stolen one |
| CronLock.CronScheduler.Fire | src/cron/scheduler.ts:83-91 | a tick starts a run unless one of the job is in flight |
| CronLock.CronScheduler.RunAlone | src/cron/scheduler.ts:99-119 | an uninterrupted run happens exactly when the row is free, and leaves only the row gone |
| Otp.FiveChecksAtMost | src/modules/auth/auth.otp.ts:194-201 | under any interleaving a code takes at most five attempts and five hash checks |
| Otp.OneWinnerPerCode | src/modules/auth/auth.otp.ts:202-206 | at most one guess succeeds on a code, and then it is used |
| Otp.UsedIsFinal | src/modules/auth/auth.otp.ts:196-206 | after a success, in every later run, nothing is claimed on the code and it stays used by the same guess |
| Otp.ExhaustedIsFinal | src/modules/auth/auth.otp.ts:196-200 | an exhausted code takes no further claim in any later run |
| Otp.AloneIsConsumed | src/modules/auth/auth.otp.ts:182-207 | the steps run alone do what the sequential call does |
| Otp.SucceedsExactly | src/modules/auth/auth.otp.ts:182-207 | a guess alone succeeds exactly on the right code of the latest, unused, unexpired row with attempts left |
| Otp.GuessAnswersExactly | src/modules/auth/auth.otp.ts:182-207 | every answer a guess alone gets and exactly when; a guess that reaches the hash check counts one attempt, and nothing else changes |
| Otp.BlockOutlastsCode | src/modules/auth/auth.otp.ts:186-193 | after five attempts every later guess at that code is refused: blocked for 15 minutes, then used or expired |
| Otp.OtpTable.ConsumeOtp | src/modules/auth/auth.otp.ts:182-207 | the sequential call over the table has exactly that outcome |
| Otp.OtpTable.Create | src/modules/auth/auth.otp.ts:164-167 | a new unused code with ten minutes to live |
| Otp.OtpTable.Claim | src/modules/auth/auth.otp.ts:194-200 | the conditional increment |
| Otp.OtpTable.MarkUsed | src/modules/auth/auth.otp.ts:202-206 | the conditional consume |
| AdminLockout.EightInFifteenMinutes | src/modules/auth/auth.admin.ts:41-64 | between successful logins of a pair no half-open fifteen minutes hold more than eight recorded failures |
| AdminLockout.EightHappen | src/modules/auth/auth.admin.ts:41-64 | eight is reached |
| AdminLockout.LockedOnlyAfterFive | src/modules/auth/auth.admin.ts:56-61 | a pair is locked only within fifteen minutes of a fifth failure inside fifteen minutes |
| AdminSpells.LockedExactly | src/modules/auth/auth.admin.ts:41-61 | after any run a pair is locked exactly while its last spell of failures since its last success has five and the fifth is less than fifteen minutes old |
| AdminSpells.VerdictDecides | src/modules/auth/auth.admin.ts:115-158 | a login not locked out is counted if wrong, clears its pair if right, and moves no email counter otherwise |
| AdminLockout.LockedChangesNothing | src/modules/auth/auth.admin.ts:122-125 | while locked every attempt is refused and no counter moves |
| AdminLockout.OtherPairsUntouched | src/modules/auth/auth.admin.ts:24-28 | no login affects another pair's counter or lock |
| AdminLockout.AlertMeansSpray | src/modules/auth/auth.admin.ts:63-71 | every alert came at a twentieth failure for the email within fifteen minutes, and the email counter never locks |
| AdminSpells.AlertExactly | src/modules/auth/auth.admin.ts:63-71 | in every run an alert is raised at exactly the twentieth failure of a spell of an email |
| AdminLockout.Lockout.AdminLogin | src/modules/auth/auth.admin.ts:115-158 | check, verdict and bookkeeping of one login |
| AdminLockout.Lockout.RecordAdminFail | src/modules/auth/auth.admin.ts:56-72 | one failure on both counters |
| AdminLockout.Lockout.PairState | src/modules/auth/auth.admin.ts:41-54 | the current counter, an elapsed one deleted |
| Reveals.CapHoldsExactly | src/modules/contacts/contacts.service.ts:40-65 | at every instant of every run the distinct people shown in 24 hours are within the cap in force, if and only if the new-account cap is at most the normal cap |
| Reveals.AllowedExactly | src/modules/contacts/contacts.service.ts:23-60 | a tap is allowed exactly for a person shown within the day, or below the normal cap for an existing, grown-up, travelled viewer and below the new cap for everyone else |
| Reveals.RepeatIsFree | src/modules/contacts/contacts.service.ts:54-63 | a person shown within the day can always be shown again, and counts once |
| Reveals.SeenMeans | src/modules/contacts/contacts.service.ts:49-53 | the counted people are exactly those with a row since the moment |
| Reveals.Contacts.AuditWithinLimit | src/modules/contacts/contacts.service.ts:46-65 | allows and appends exactly for a person already shown or while the cap leaves room |
| WindowLimiter.AcceptsExactly | src/ws/socketServer.ts:43-53 | a call is accepted exactly when fewer than `limit` accepted calls lie in the last window |
| WindowLimiter.NeverCrowded | src/ws/socketServer.ts:43-53 | no closed interval of that length holds more than `limit` accepted calls |
| WindowLimiter.Limiter.Call | src/ws/socketServer.ts:46-52 | the shifting loop and the push |
| BotRateLimit.RepliesAsPromised | src/bot/rateLimit.ts:10-14 | whatever was pruned, an update passes exactly under thirty passes in the last minute; above it one notice, then silence until one passes |
| BotRateLimit.PruningInvisible | src/bot/rateLimit.ts:18-28 | pruning changes no decision and no notice compared with a map that is never pruned |
| BotRateLimit.PrunedExactly | src/bot/rateLimit.ts:18-22 | pruning keeps exactly the users with a pass in the last minute |
| BotRateLimit.BotRateLimiter.OnUpdate | src/bot/rateLimit.ts:24-48 | one update over the mutable map |
| BotRateLimit.BotRateLimiter.Prune | src/bot/rateLimit.ts:18-22 | the pruning loop deletes exactly the stale users |
| ImageHeader.JpegRoundTrip | src/lib/uploads.ts:67-98 | any frameless segments, a frame header, anything: the scan returns that frame's height and width (section B.2.2 of ITU-T T.81) |
| ImageHeader.PngRoundTrip | src/lib/uploads.ts:56-65 | a PNG's width and height are read back (section 4.1.1 of RFC 2083) |
| ImageHeader.ScanSound | src/lib/uploads.ts:67-98 | dimensions found stand in a frame header that is there |
| ImageHeader.MarkersExactly | src/lib/uploads.ts:76-90 | which markers start a frame and which stand alone, one by one |
| ImageHeader.SignaturesDecide | src/lib/uploads.ts:29-64 | a type is detected exactly by its signature, and dimensions are read only off a buffer that starts like one |
| ImageHeader.FillBytesDecide | src/lib/uploads.ts:67-98 | fill bytes before any segments and the frame, common markers, under 0xC000 bytes after the start marker: the frame's dimensions are returned if there is no fill byte, and nothing otherwise |
| ImageHeader.OneFillByteIsEnough | src/lib/uploads.ts:67-98 | a whole small file with one fill byte whose dimensions are not found |
| ImageHeader.ReadImageDimensions | src/lib/uploads.ts:55-100 | the byte loop ends on every buffer, stays inside it, and returns what the scan defines |
| ImageHeader.LargeEnoughEitherWay | src/lib/uploads.ts:107-129 | a photo passes exactly when readable and large enough in one of its two orientations |
| EditDistance.Lev1IsDistanceAtMostOne | scripts/cities/build-cities.py:168-175 | the fast test holds exactly for words of length five or more at Levenshtein distance at most one |
| EditDistance.Lev1Symmetric | scripts/cities/build-cities.py:168-175 | it is symmetric |
| Ranking.RankIsOrderedPermutation | src/lib/airport.ts:52-64 | the ranking is the one arrangement of the input rows strictly ordered by distance, time and input position |
| Ranking.RankedExactly | src/lib/airport.ts:47-64 | over the rows: each once, the closer first, then the earlier, then input order; near means at most two hours |
| Ranking.NearFirst | src/lib/airport.ts:47-64 | the rows within two hours of the target come first |
| Pagination.FollowingYieldsAll | src/lib/pagination.ts:15-41 | over a fixed list with unique ids, following cursors with any page sizes yields every row once, in order, and runs out exactly at the end |
| Pagination.OffsetsYieldAll | src/modules/trips/trips.service.ts:530-537 | following offset cursors over a ranked list yields its rest once, in order |
| Pagination.OffsetPageIsFull | src/modules/trips/trips.service.ts:530-537 | an offset page is full while rows remain, and has a next one exactly then |

## Left out

- Prisma, SQL text, HTTP, sockets, Telegram and WhatsApp delivery, notifications, loyalty points, logging: effects outside the modelled state.
- Signatures, JWT and hash internals: a presented token stands for its row, a hash check is an arbitrary boolean.
- Each transaction is one atomic step; weaker isolation inside one transaction is not modelled. Two creates of one passenger on different trips that overlap can both pass the three-pending and same-driver-same-day checks, and with one key the second meets the unique index instead of a replay.
- BookingOutcomes.CreateOutcome: the three-pending bound is stated for one create after another, for the reason above.
- The unique-index error path of create (bookings.service.ts:232-240) and of accepting an offer.
- The other checks of publishing a trip (one active trip per kind, daily limits, car and verification) and of answering a passenger request; a published trip starts active with every seat free.
- Recalculating a rating is one step with an arbitrary average; the source reads the penalty before it writes the rating, so a charge in between shows only at the next recalculation.
- Widths of the numeric columns.
- `direct` trips stand outside seat conservation: cancelling their booking returns no seats.
- The clock is shared and monotone; skew between scheduler instances or between the process and the database is not modelled. A synchronous stretch of code reads one instant.
- SessionFamilies.OneLivePerFamily: excludes restarts and evictions of fresh entries, where the source itself promises no deduplication.
- AdminLockout.EightInFifteenMinutes: is about logins that follow one another; the source checks and counts in separate stretches of code.
- The throttles on sending codes; more codes can only be sent in the model than in the source.
- Parsing typed bot text (dates, times, prices, flight numbers), place search and travel times: inputs arrive parsed and typed, and lookups as their answers. A date typed without a year arrives as the day it means.
- What happens in a chat after a flow's final action (its result, a failed action leaving the draft, the six-hour expiry of a draft), and the sign-in flow, which does not use `advance`.
- Hard deletion of a viewer and cap changes while the process runs, for the reveal cap.
- The bot limiter's bypass for updates without a sender or with limits disabled.
- ImageHeader.FillBytesDecide: in files of 0xC000 bytes and more, what a fill byte leads to depends on the bytes the scan lands on; the rare markers below 0xC0 (TEM and the reserved ones) are outside it.
- Upload size limits and file writes.
- `transferMinutes`, haversine distance, other list filters, and the complaint list, which sorts again after paging.
