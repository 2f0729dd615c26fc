# Verified model of the HOST booking platform's protocol cores

A Dafny model of the five parts of the HOST short-stay booking platform where a wrong step
costs money or a double booking, with proofs of what they promise. Every operation that the
source runs step by step on rows, arrays or buffers is a method here, proved equal to a
function on values; the properties are then proved about these functions, over every input
and every run. `dafny verify dfyconfig.toml` checks the whole project.

**Off-session charging** (`Charge*.dfy`). Sweep runs and webhook deliveries compete to charge
one booking. The model is a step system: the booking row, its attempt rows, any number of
workers with their program counter and claim token, Stripe with every intent that was made and
a memory of idempotency keys that can forget, and a clock. Each transaction body is one atomic
step; the Stripe call and the crash of a worker are steps of their own, so every interleaving of
duplicate sweeps, lease expiries, lost answers, forgotten keys and webhooks is a run. `ChargeStore` runs the same transactions statement by statement.

**The availability table of one property** (`Availability*.dfy`, `PropertyCalendars.dfy`).
Booking, cancelling, expiring, discarding, host blocks and calendar feeds all write one
date-keyed table. The property's advisory lock, the locked booking rows and the writes that
become visible at commit are part of the state, and the table is proved to be the view of
three layers at every moment, also as days pass. Requests that repeat an idempotency key and the
status writes of refund and dispute webhooks are events of the same runs (`AvailabilityRepeats`,
`AvailabilityRefunds`, `AvailabilityOversold`); where statuses and feeds come from is in
`AvailabilityStatuses` and `AvailabilityFeeds`.

**The iCalendar printer and parser** (`Text`, `TextFacts`, `CivilDates`, `DayNumbers`,
`DateGrouping`, `Folding`, `ICalParser`, `ICalGuarantee`, `ICalEvents`, `ICalRefusals`, `ICalText`,
`CalendarExport`, `CalendarEventLines`, `BrokenLines`, `CalendarRoundTrip`, `CalendarNames`; from the
availability table, `AvailabilityExport`). Text is
handled character by character: escaping, folding at 73, CRLF, unfolding, content lines, dates
(sections 3.1 and 3.6.1 of RFC 5545). Nights are day numbers from 0000-01-01 and their ISO
text is proved to keep their order.

**Refunds** (`Refunds`, `RefundRetries`, `Rounding`, `PriceEngine`, `RefundReversal`,
`ReversalHistory`). The retry protocol against Stripe, in which every statement of a call can be
its last, and the reversal of ledger lines by cumulative targets, tied to the price engine.

**SQL splitting and migrations** (`SqlSplitter`, `SqlSplitting`, `SqlTexts`, `SqlDialect`,
`SchemaSnapshots`, `SchemaDifferences`, `MigrationRunner`, `MigrationRuns`, `MigrationBootstraps`). The character loop that splits a file
into statements, its tokens beside those of PostgreSQL, the schema check, and the runner with its
ledger and savepoints. What the database makes of a statement is a parameter.

## Findings

Each of these is a lemma, with the condition under which the code behaves as promised.

- The guest can be charged twice in two ways, each told by a run. An error answer other than an
  idempotency error is recorded as a failure, and a later attempt opens a new key, although the answer
  may hide a charge (`ChargeTwice.LostAnswerChargesTwice`). And a `processing` attempt, which has no
  lease and no retry time, is called again under its old key by every daily sweep of its 72 hours of
  grace; Stripe keeps a key for about a day (lib/payments/refund.ts:38-42), and a forgotten key makes
  a second charge on the same attempt (`ChargeTwice.ForgottenKeyChargesTwice`). In every run, with keys
  forgotten at any time, of two intents that have charged or can charge the earlier key belongs to an
  attempt recorded failed on an error answer or was called anew after Stripe forgot it
  (`ChargeOnce.SecondChargeExplained`); the latter are exactly the keys with two intents
  (`ChargeOnce.MadeTwiceIff`). A second charge has come or can still come exactly when some call made an
  intent that was not declined while another one had charged or could (`ChargeOnce.CanChargeTwiceIff`).
  If no key of the two kinds is charged, one intent at most charges the guest
  (`ChargeOnce.AtMostOneCharge`).
- The setup webhook reads the charge timing and clears the hold in separate statements. When the
  hold is cleared after the timing has become immediate, an established grace deadline is lost
  (`ChargeGrace.LateClearingLosesDeadline`), and the booking then stays pending until money
  arrives or somebody cancels it (`ChargeGrace.StrandedForever`). `ChargeGrace.DeadlineMovesIff`
  says that no other step can do this.
- The decision to charge never looks at the booking's status (`ChargeRetries.DecisionIgnoresStatus`).
  A cancelled booking is still charged when the setup webhook comes again, and since no retry time is
  written for it, no number bounds its attempts (`ChargeRetries.CancelledBookingHasNoBound`).
- Refund and dispute webhooks write the booking's status whatever it was. The status goes on telling
  whether the nights were released exactly when they were not (`AvailabilityRefunds.StatusTellsNightsIff`).
  A partial refund of a cancelled booking makes it releasable again, and no other such write does
  (`AvailabilityRefunds.ReleasableStaysLiveIff`). A second cancellation then frees the nights of whoever
  booked them since (`AvailabilityRefunds.SecondCancellationFreesOthers`), and they can be sold twice
  (`AvailabilityRefunds.NightIsSoldTwice`). A run from an empty property, without any interleaving, does so
  with any night (`AvailabilityOversold.OversoldFromTheStart`). Over whole runs this is the only way
  to lose the view (`AvailabilityRefunds.ViewStandsIff`). A booking refunded in full without a
  cancellation keeps its nights (`AvailabilityRefunds.RefundedStayKeepsNights`).
- A property name with a bare carriage return puts lines of its own into the exported title. For
  every name, an exported calendar reads back as its ranges exactly when these lines, read alone, are
  accepted and leave no event but such that the exported ones replace
  (`CalendarRoundTrip.ExportThenImportIff`). One such name that every reader imports and one that none
  can are in `CalendarNames`.
- The reader undoes the escapes of a text value one after the other, line breaks first. A backslash before
  the letter n, correctly escaped, is therefore read as a backslash and a blank (`ICalText.LostLetter`); a
  text comes back as itself exactly if it has none (`ICalText.EscapedComesBackIff`).
- A cancelled event with a start or an end that is no date refuses the whole calendar, though a cancelled
  one without any start or end is dropped (`ICalEvents.UnreadableLines`, `ICalEvents.EventOfLines`).
- A refund retry looks at the twenty newest refunds of the payment intent only. A row can be
  refunded twice exactly when its refund has twenty newer ones and Stripe has forgotten the key
  (`RefundRetries.SecondRefundIff`, `RefundRetries.TwentyNewerRefunds`).
- The splitter of SQL files knows neither quoted identifiers nor nested comments, escape strings, dollar
  tags with digits, names with dollar signs, and line comments that end at a carriage return. Its tokens
  start where PostgreSQL's do exactly when none of these is met (`SqlDialect.SameTokensIff`), and then it
  cuts at PostgreSQL's semicolons (`SqlDialect.CutsArePostgresSemicolons`). A quoted identifier with a
  semicolon is cut in two (`SqlDialect.QuotedIdentifierIsCut`).
- A run of the migrations over a database that has them all, but not in its ledger, stops at the
  first file whose definitions a later migration has changed (`MigrationBootstraps.StopsAtChangedFile`). It
  bootstraps every file exactly when each manifest entry is still satisfied
  (`MigrationBootstraps.BootstrapsAllIff`).
- The comment of `createBooking` (lib/booking/createBooking.ts:35-38) promises the original booking
  for a repeated idempotency key. A request gets it exactly when the original was committed at the
  request's first read (`AvailabilityRepeats.FirstReadDecides`). A request that came earlier is
  refused: for its dates when a night is taken at its check, and for its key otherwise
  (`AvailabilityRepeats.RepeatIsRefused`). A duplicate submit for the same nights therefore hears
  that the dates are gone (`AvailabilityRepeats.DuplicateSubmitFindsNightsTaken`).

## Model

| member | source | states |
|---|---|---|
| ChargeTransactions.DecideChargeTiming | lib/payments/scheduledCharges.ts:36-44 | a charge is immediate exactly when check-in is less than 61 days ahead; a deferred date lies a day or more ahead and before check-in |
| ChargeTransactions.LatestIndex | lib/payments/scheduledCharges.ts:258-262 | the row with the greatest attempt number, among all rows |
| ChargeStores.ChargeStore.DecideAndReserve | lib/payments/scheduledCharges.ts:230-300 | the locked phase, check by check, has the rows and the decision of the decision transaction |
| ChargeStores.ChargeStore.RecordChargeOutcome | lib/payments/scheduledCharges.ts:127-182 | the compare-and-set on claim and success, with the grace period set once and the retry time set for failures only |
| ChargeStores.ChargeStore.AttemptScheduledCharge | lib/payments/scheduledCharges.ts:184-382 | nothing while charging is disabled; otherwise decide, call, record without interleaving: a worker told to charge always records, and reports the outcome of Stripe's answer |
| ChargeStores.ChargeStore.OnPaymentSucceeded | lib/payments/newFlowWebhookHandling.ts:34-66 | the success webhook's rows; nothing for a confirmed booking |
| ChargeStores.ChargeStore.ConfirmAndSavePaymentMethod | lib/payments/setupIntentFlow.ts:109-129 | the method is stored; the retry clock is cleared exactly when the method changes |
| ChargeStores.ChargeStore.OnSetupIntentSucceeded | lib/payments/newFlowWebhookHandling.ts:100-162 | old-flow and unpriced bookings and unconfirmed methods change nothing; long-lead bookings lose their hold, others are charged |
| ChargeStores.ChargeStore.ReleaseExpiredHold | lib/booking/createBooking.ts:217-251 | a pending booking past a hold that is not NULL is cancelled, and no other |
| ChargeInvariants.StepKeepsLog | lib/payments/scheduledCharges.ts:230-300 | every step of every worker, of Stripe and of a webhook keeps the shape of the attempt log, unique claims and reserved keys |
| ChargeInvariants.AttemptLogShape | lib/payments/scheduledCharges.ts:258-299 | in every run attempts are numbered 1..n with distinct keys, all but the last are closed, and at most one is unresolved |
| ChargeClaims.SuccessIsAbsorbing | lib/payments/scheduledCharges.ts:137-155 | a succeeded attempt stays succeeded in every run |
| ChargeClaims.SettledLogIsFrozen | lib/payments/scheduledCharges.ts:233-282 | nothing is appended after a success or after an attempt that requires action |
| ChargeClaims.StaleRecordIsInert | lib/payments/scheduledCharges.ts:145-155 | a worker that lost its claim changes no row when it records |
| ChargeClaims.PreemptedOwnerIsStale | lib/payments/newFlowWebhookHandling.ts:43-50 | a takeover and a success webhook make the present owner stale |
| ChargeClaims.StaleStaysStale | lib/payments/scheduledCharges.ts:264-277 | a stale claim never becomes current again, in any further run |
| ChargeClaims.PreemptedWorkerIsInert | lib/payments/scheduledCharges.ts:137-155 | in every run: a worker whose attempt was taken over or reported succeeded at any earlier point changes no row when it later records under that claim |
| ChargeClaims.LeaseIsExclusive | lib/payments/scheduledCharges.ts:264-299 | in every run at most one worker holds an unexpired lease on an attempt |
| ChargeClaims.OneOutcomePerClaim | lib/payments/scheduledCharges.ts:145-155 | in every run each claim records at most one outcome |
| ChargeOnce.StepExplained | lib/payments/scheduledCharges.ts:314-381 | every step keeps it that a failed or superseded attempt has a declined intent, or failed on an error answer |
| ChargeOnce.MadeTwiceIff | lib/payments/scheduledCharges.ts:264-276 | in every run: a key has two intents exactly when it was called anew, which happens to forgotten keys only |
| ChargeOnce.SecondChargeExplained | lib/payments/scheduledCharges.ts:230-381 | in every interleaving, with keys forgotten at any time: of two intents that have charged or can charge, the one with the smaller attempt number is of an attempt recorded failed on an error answer or of a key called anew; so is every charged intent of a failed attempt |
| ChargeOnce.CanChargeTwiceIff | lib/payments/scheduledCharges.ts:314-327 | for every run: the guest is or can still be charged twice exactly when a call made an intent that was not declined, its key not being remembered, while another intent had charged or could |
| ChargeOnce.AtMostOneCharge | lib/payments/scheduledCharges.ts:230-381 | in every interleaving at most one intent charges the guest, and no charged attempt is recorded failed, if neither an attempt recorded failed on an error answer nor a key called anew is charged |
| ChargeOnce.NoChargedFailureIff | lib/payments/scheduledCharges.ts:314-381 | in every run no failure was recorded for a charged key exactly when none was recorded for one on an error answer, and none for one that was called anew |
| ChargeOnce.ErrorsFinalChargeOnce | lib/payments/scheduledCharges.ts:325-381 | the promises of AtMostOneCharge if Stripe answers with an error only for keys that never charge and no key called anew is charged |
| ChargeTwice.LostAnswerChargesTwice | lib/payments/scheduledCharges.ts:346-348 | a run in which an error answer hides a charge and a second key is charged, with every key remembered |
| ChargeTwice.ForgottenKeyChargesTwice | lib/payments/scheduledCharges.ts:264-276 | a run of two daily sweeps without any error answer: the attempt left processing is called again under its forgotten key, and both intents charge |
| ChargeGrace.GraceDeadlineIsFixed | lib/payments/scheduledCharges.ts:157-166 | once set, the grace start and the hold 72 hours later never change in a run in which the hold is cleared while its timing still stands |
| ChargeGrace.GraceHasItsDeadline | lib/payments/scheduledCharges.ts:157-166 | in every such run of a fresh booking, charging begins only at immediate timing and a grace period has its hold 72 hours after its start |
| ChargeGrace.DeadlineMovesIff | lib/payments/newFlowWebhookHandling.ts:131-148 | one step moves an established deadline exactly when it clears the hold of a pending booking |
| ChargeGrace.DeadlineStandsIff | lib/payments/newFlowWebhookHandling.ts:131-148 | for every run: an established deadline stands in each of its states exactly when no step clears the hold of a pending booking |
| ChargeGrace.NoAttemptAfterDeadline | lib/payments/scheduledCharges.ts:254-256 | 72 hours after the grace start no attempt is reserved or claimed any more, in any run, whether the hold still stands or was cleared |
| ChargeGrace.LateClearingLosesDeadline | lib/payments/newFlowWebhookHandling.ts:129-147 | two deliveries at the edge of 61 days: the late clearing removes an established deadline |
| ChargeGrace.StrandedForever | lib/payments/scheduledCharges.ts:388-401 | a pending booking without its deadline is neither expired nor charged again by any run without payment, cancellation or discard |
| ChargeRetries.RetryBound | lib/payments/scheduledCharges.ts:173-179 | while the booking is pending, at most 3 + k attempts, k being the payment methods replaced by another |
| ChargeRetries.RetryClockMoves | lib/payments/setupIntentFlow.ts:120-127 | only a recorded failure, a changed payment method or a discard moves the retry time, and to what |
| ChargeRetries.RetryBoundIsReached | lib/payments/scheduledCharges.ts:284-299 | a run with three attempts and one payment method: the bound is tight |
| ChargeRetries.DecisionIgnoresStatus | lib/payments/scheduledCharges.ts:238-256 | the decision is the same whatever the booking's status |
| ChargeRetries.CancelledBookingHasNoBound | lib/payments/scheduledCharges.ts:173-179 | for every number there is a run that makes as many attempts for a cancelled booking with one payment method, all at one instant |
| ChargePayments.PaymentConfirms | lib/payments/newFlowWebhookHandling.ts:34-50 | a payment confirms a pending booking, leaves any other status and every other field, and unless the booking was confirmed makes exactly the paid attempt a success |
| ChargePayments.PaidAttemptExists | lib/payments/newFlowWebhookHandling.ts:43-48 | in every reachable state the webhook names one of the booking's attempts, by its key |
| ChargePayments.PaidBookingStays | lib/payments/newFlowWebhookHandling.ts:50-50 | after a payment, in every further run: confirmed, unless it was cancelled before or somebody cancels it; never pending, and no sweep and no discard takes it away |
| ChargePayments.OnlyPaymentsConfirm | lib/payments/newFlowWebhookHandling.ts:34-50 | in every run a booking is confirmed only if money has moved on some intent |
| ChargePayments.RecordedAnswer | lib/payments/scheduledCharges.ts:127-182 | what each of Stripe's answers makes of attempt and booking: status, 72 hours of grace set once, a retry a day ahead for failures only, nothing for a booking that is not pending |
| ChargePayments.AnsweredWaitsInGrace | lib/payments/scheduledCharges.ts:157-166 | in every run a pending booking with an answer that was not a success has its grace period |
| ChargeHolds.HoldIsHonoured | lib/booking/createBooking.ts:217-251 | in every run no sweep takes a booking away within 15 minutes of its creation |
| ChargeHolds.AbandonedIsReleased | lib/booking/createBooking.ts:217-251 | in every run without a payment method there is no attempt, and from 15 minutes on a sweep cancels the booking |
| ChargeHolds.GivenUpIff | lib/booking/discardUnpaidBooking.ts:14-70 | which bookings a sweep and a discard change, and that they change nothing but the status, and the discard the retry time |
| ChargeHolds.SelectedIff | lib/payments/scheduledCharges.ts:388-401 | which pending bookings the charging sweep selects from their charge date on |
| ChargeHolds.SelectedIsCharged | lib/payments/scheduledCharges.ts:230-300 | query and decision agree: for a selected booking a decision at the same moment calls Stripe exactly if taxes, customer and method are there and the latest attempt allows it |
| ChargeHolds.LeaseLastsTwoMinutes | lib/payments/scheduledCharges.ts:264-277 | for two minutes every other decision refuses; from then on the same attempt is taken over under the same key |
| ChargeHolds.CrashIsMadeGood | lib/payments/scheduledCharges.ts:264-277 | a worker that crashes after its claim is made good two minutes later, by a call for the same attempt under the same key |
| ChargeHolds.TermsOverRuns | lib/payments/setupIntentFlow.ts:109-129 | in every run: a customer exactly after a setup intent, a method exactly after one was saved, and dates and terms as they were |
| ChargeHolds.ReportedIsRecorded | lib/payments/scheduledCharges.ts:314-381 | the reported outcome is the recorded status, but for an error answer |
| AvailabilityTable.ReportPartitions | lib/hosts/hostAvailability.ts:126-197 | blocked and skipped nights partition the range, each in date order, with the reason by who occupies the night |
| AvailabilityTable.HostActionsSpareOthers | lib/hosts/hostAvailability.ts:126-212 | booking rows stay as they are, host rows change inside the range only, and exactly where the host may write |
| AvailabilityTable.BlockThenUnblock | lib/hosts/hostAvailability.ts:76-212 | block and then unblock of a range is unblock alone |
| AvailabilityTable.ReconcileIsIdempotent | lib/calendar/calendarSync.ts:338-378 | reconciling again on the same day changes nothing |
| AvailabilityTable.UpsertAllBooks | lib/booking/createBooking.ts:126-134 | the upsert loop books the nights of the stay and no others |
| AvailabilityTable.MutateAllMutates | lib/hosts/hostAvailability.ts:126-197 | the host loop writes the writable nights of the range and no others |
| AvailabilityTable.DeletesAt | lib/booking/discardUnpaidBooking.ts:48-55 | a cancellation deletes the nights of the stay by source, a release by source and status |
| AvailabilityTransactions.LayersSpelledOut | lib/calendar/calendarSync.ts:349-374 | the layered view read row by row: booking, host and imported rows |
| AvailabilityTransactions.CommitGivesOutcome | lib/booking/createBooking.ts:110-134 | committing a transaction's writes where they were computed gives what the transaction saw |
| AvailabilityTransactions.OutcomeKeepsLayers | lib/calendar/calendarSync.ts:338-378 | each of the nine transactions keeps the layered view, also when days passed since it began |
| AvailabilityLocks.StepKeepsLocks | lib/booking/createBooking.ts:110-134 | every event, status writes of webhooks included, keeps lock ownership, locked rows, current writes and unique keys |
| AvailabilityLocks.StepKeepsView | lib/calendar/calendarSync.ts:338-378 | every event but the confirming of a released booking keeps the layered view |
| AvailabilityLocks.TableIsLayeredView | lib/booking/createBooking.ts:110-134 | in every reachable state of every interleaving in which no partial refund confirms a released booking: no double booking, booking rows are the nights of live bookings, imported rows exactly where an active feed covers a free night from today on |
| AvailabilityLocks.LockIsExclusive | lib/booking/createBooking.ts:110-111 | at most one transaction is past waiting |
| AvailabilityLocks.CancellationFreesItsOwnNights | lib/booking/cancelBooking.ts:41-70 | a committed cancellation, expiry or discard frees exactly its own nights and shows the imported block there |
| AvailabilityLocks.UnserialisedCreates | lib/booking/createBooking.ts:91-109 | without the lock two creates double-book exactly when their nights overlap |
| AvailabilityStatuses.StayAfter | lib/booking/createBooking.ts:163-182 | what each event makes of each booking: created pending with the key and dates asked for, cancelled by its release alone, given a status by its own status writes, untouched otherwise |
| AvailabilityStatuses.StatusIsLastGiven | lib/booking/createBooking.ts:163-182 | in every reachable state a booking has the status given to it last, and is pending until then; its nights are given up exactly if a release of it was committed |
| AvailabilityStatuses.PendingIff | lib/booking/createBooking.ts:169-169 | in every reachable state the pending bookings are exactly those without a status write and without a release |
| AvailabilityStatuses.ConfirmedWasConfirmed | lib/booking/createBooking.ts:169-169 | in every reachable state a confirmed booking was confirmed by an event of its own |
| AvailabilityStatuses.ReleaseBeginsIff | lib/booking/cancelBooking.ts:24-41 | which bookings a cancellation, a release of an expired hold and a discard may begin on |
| AvailabilityStatuses.ReleasedAsBegun | lib/booking/createBooking.ts:217-251 | in every interleaving the booking is still such a one when its release is committed |
| AvailabilityStatuses.EveryStayHasANight | lib/booking/createBooking.ts:40-46 | in every reachable state every booking ends after it begins |
| AvailabilityFeeds.RefusedIff | lib/calendar/calendarSync.ts:190-240 | which transactions throw, each with its reason |
| AvailabilityFeeds.FeedsAfter | lib/calendar/calendarSync.ts:256-336 | what each transaction makes of the feeds, and that it leaves all others alone |
| AvailabilityFeeds.AtMostTenFeeds | lib/calendar/calendarSync.ts:205-225 | no interleaving of requests gives a property more than ten feeds |
| AvailabilityRefunds.ViewStandsIff | lib/payments/webhookHandler.ts:287-290 | for every run: the layered view stands in each of its states exactly when no commit releases a released booking whose nights another booking has by then |
| AvailabilityRefunds.StatusTellsNightsIff | lib/payments/webhookHandler.ts:287-290 | after a refund's or dispute's status write the status tells whether the nights were released exactly when they were not |
| AvailabilityRefunds.ReleasableStaysLiveIff | lib/payments/webhookHandler.ts:287-290 | of these writes only `confirmed` over a released booking makes it releasable again |
| AvailabilityRefunds.SecondCancellationFreesOthers | lib/booking/cancelBooking.ts:41-70 | such a booking can be cancelled again, and the nights of another booking show free |
| AvailabilityRefunds.NightIsSoldTwice | lib/booking/createBooking.ts:113-134 | such a night can be booked again, and two live bookings have it |
| AvailabilityOversold.OversoldFromTheStart | lib/payments/webhookHandler.ts:287-290 | from every empty property and for every night from today on: three guests, one cancellation, one partial refund and a second cancellation, one after the other, end with two live bookings of the night |
| AvailabilityRefunds.RefundedStayKeepsNights | lib/payments/webhookHandler.ts:431-431 | a booking refunded in full, disputed or completed without a cancellation keeps its nights in every run in which no partial refund confirms it |
| AvailabilityRepeats.FirstReadDecides | lib/booking/createBooking.ts:46-49 | in every run a request is answered with the original booking exactly when that was committed at its first read |
| AvailabilityRepeats.RepeatIsRefused | lib/booking/createBooking.ts:110-182 | otherwise it is refused for its dates exactly when a night is taken at its check, and for its key exactly when its nights are free and the key is committed by then |
| AvailabilityRepeats.DuplicateSubmitFindsNightsTaken | lib/booking/createBooking.ts:113-121 | with a night of the original among its own it is refused for its dates |
| AvailabilityRepeats.DoneIffCommitted | lib/booking/createBooking.ts:110-182 | in every run a request hears that it is done exactly if its transaction was committed |
| PropertyCalendars.EnumerateDates | lib/booking/createBooking.ts:253-262 | the nights from check-in up to check-out, in order |
| PropertyCalendars.PropertyCalendar.ReconcileCalendarAvailability | lib/calendar/calendarSync.ts:338-378 | imported rows are deleted and rebuilt where no other row stands; the number inserted |
| PropertyCalendars.PropertyCalendar.CreateBooking | lib/booking/createBooking.ts:40-182 | a bad range is refused, a known key gives its booking; otherwise check, upsert loop and insert have the transaction's outcome, or the night that is taken and no change |
| PropertyCalendars.PropertyCalendar.CancelBooking | lib/booking/cancelBooking.ts:24-70 | accepted exactly for confirmed and pending bookings; the transaction's outcome, or the error and no change |
| PropertyCalendars.PropertyCalendar.ReleaseExpiredHold | lib/booking/createBooking.ts:217-251 | released exactly when pending with a hold that is not NULL and not later than now; the transaction's outcome or no change |
| PropertyCalendars.PropertyCalendar.DiscardUnpaidBooking | lib/booking/discardUnpaidBooking.ts:14-70 | the guard's four errors in order, another guest's booking counting as not found, or the transaction's outcome |
| PropertyCalendars.PropertyCalendar.MutateAvailability | lib/hosts/hostAvailability.ts:76-212 | the loop over the dates, the report and the reconciliation |
| PropertyCalendars.PropertyCalendar.SetCalendarFeedActive | lib/calendar/calendarSync.ts:256-305 | the feed's flag and the reconciled table, or not found |
| PropertyCalendars.PropertyCalendar.DeleteCalendarFeed | lib/calendar/calendarSync.ts:307-336 | the feed and its events gone and the table reconciled, or not found |
| PropertyCalendars.PropertyCalendar.ReplaceFeedEvents | lib/calendar/calendarSync.ts:380-468 | the feed's events replaced and the table reconciled |
| CivilDates.CivilIncreasing | lib/calendar/calendarExport.ts:31-44 | stepping days gives ever later dates |
| CivilDates.HasDayNumber | lib/calendar/calendarExport.ts:31-44 | every Gregorian date is reached by stepping days |
| CivilDates.ReadIsoOfIso | lib/calendar/ical.ts:68-79 | the ISO text of a date is accepted and reads back as the date |
| CivilDates.RealDateIff | lib/calendar/ical.ts:68-79 | a text is accepted exactly when it is the ISO form of a Gregorian date |
| CivilDates.IsoOrder | lib/calendar/ical.ts:117-122 | the order of ISO texts is the order of dates |
| CivilDates.CompactIsoDate | lib/calendar/calendarExport.ts:46-48 | removing the dashes leaves the eight digits of the date |
| DayNumbers.CivilIffEpochDay | lib/calendar/calendarExport.ts:31-44 | counting day by day gives the dates that ECMA-262 computes from day numbers (DayFromYear, section 21.4.1) |
| TextFacts.TrimIff | lib/calendar/ical.ts:98-98 | trimming gives the one text without blanks at its ends that the original surrounds with blanks |
| TextFacts.SpacesAre | lib/calendar/ical.ts:98-98 | the blanks are the 25 white space and line terminator characters of ECMA-262 |
| TextFacts.Utf8SizeIsLeast | lib/calendar/ical.ts:203-210 | the bytes of a character are the fewest that UTF-8 has for it |
| DateGrouping.GroupConsecutiveDates | lib/calendar/calendarExport.ts:89-123 | the one-pass loop gives the grouping of the unique sorted days |
| DateGrouping.GroupingIsCanonical | lib/calendar/calendarExport.ts:89-123 | for every list, in any order and with repeats: ranges in order, apart, never adjacent, and covering exactly the given nights |
| DateGrouping.CanonicalIsUnique | lib/calendar/calendarExport.ts:89-123 | there is only one such list of ranges for a set of nights |
| DateGrouping.GroupingDependsOnNightsOnly | lib/calendar/calendarExport.ts:96-96 | order and repeats of the input do not matter |
| Folding.FoldLine | lib/calendar/calendarExport.ts:58-87 | the loop with `remaining` and `first` gives the folded lines |
| Folding.PhysicalLinesFit | lib/calendar/calendarExport.ts:58-87 | every physical line has at most 73 characters and no line break |
| Folding.PhysicalUnitsFit | lib/calendar/calendarExport.ts:58-87 | in the basic plane the 73 are UTF-16 code units |
| Folding.UnfoldLines | lib/calendar/ical.ts:19-40 | the loop gives the unfolded lines |
| Folding.UnfoldFoldAll | lib/calendar/ical.ts:27-37 | unfolding folded lines is unfolding the lines themselves, whatever they are |
| Folding.FoldUnfoldRoundTrip | lib/calendar/calendarExport.ts:166-171 | for nonempty lists of lines without line breaks: the text reads back as the lines and one empty line exactly when no line but the first starts with a blank |
| Folding.NoLinesReadAsTwo | lib/calendar/ical.ts:19-40 | the empty list is the exception |
| Folding.AnyFoldIsUndone | lib/calendar/ical.ts:27-37 | a line cut anywhere by another writer, going on behind blanks or tabs, is read whole |
| ICalParser.ReadLines | lib/calendar/ical.ts:233-321 | the loop over the lines with its map and its pending event has the result of the state machine, every error included |
| ICalParser.ParseICalendar | lib/calendar/ical.ts:200-334 | size check, header check, loop and sort |
| ICalGuarantee.AcceptedIff | lib/calendar/ical.ts:233-321 | lines are accepted exactly when event markers are matched and unnested, every body makes an event or a cancelled one, and at most 5000 keys remain; the events are those of the bodies |
| ICalGuarantee.LastEventWins | lib/calendar/ical.ts:265-265 | the map holds exactly the last event of each key |
| ICalGuarantee.SortSorts | lib/calendar/ical.ts:323-333 | the sort keeps the events and orders them by start, whatever the locale's order of keys |
| ICalGuarantee.EventIsWellDated | lib/calendar/ical.ts:134-198 | an event has real dates and starts before it ends |
| ICalGuarantee.ParserGuarantee | lib/calendar/ical.ts:200-334 | every accepted text: matched markers, at most 5000 events with distinct keys, real dates, start before end, sorted by start, and exactly the last uncancelled event of each key |
| ICalEvents.ContentLineIs | lib/calendar/ical.ts:42-66 | name, parameters and value of a content line |
| ICalEvents.DateReadIff | lib/calendar/ical.ts:81-107 | a date is read exactly from a value that begins with the eight digits of a Gregorian date; the two errors |
| ICalEvents.BodyGathers | lib/calendar/ical.ts:274-315 | lines are read exactly if all their dates are, and the last value of each property counts; otherwise the first unreadable date does |
| ICalEvents.EventOfLines | lib/calendar/ical.ts:134-198 | lines make no event exactly if their last STATUS is CANCELLED in any letter case, whatever else they hold; the exact condition of each other error; and what the event is |
| ICalEvents.UnreadableLines | lib/calendar/ical.ts:81-107 | lines with an unreadable date are refused for the first one, even if they are cancelled |
| ICalEvents.AcceptedEventsAreLastMade | lib/calendar/ical.ts:200-334 | for every accepted text: exactly the events made by uncancelled lines with no later uncancelled lines under their key |
| ICalEvents.SortedByStartAndKey | lib/calendar/ical.ts:323-333 | where the locale orders keys, the events are in order of start and then key |
| ICalEvents.PutKeepsPlaces | lib/calendar/ical.ts:265-265 | a repeated key keeps its place in the map, a new one goes to the end |
| ICalRefusals.RefusedForTheFirst | lib/calendar/ical.ts:233-321 | lines are refused with exactly the error of the first line that offends, or for an event left open when none does |
| ICalRefusals.RefusedText | lib/calendar/ical.ts:200-231 | a text is refused for its size first, then for want of a calendar, then for its first offending line |
| CalendarExport.BuildCalendar | lib/calendar/calendarExport.ts:125-172 | the loops over ranges and lines give the calendar text |
| CalendarExport.EscapedIsOneLineIff | lib/calendar/calendarExport.ts:50-56 | an escaped text is one line exactly when every carriage return in it comes before a line feed |
| ICalText.EscapeIsOnePass | lib/calendar/calendarExport.ts:50-56 | the four replacements are one pass over the characters, as section 3.3.11 of RFC 5545 has it |
| ICalText.EscapedIsReadBack | lib/calendar/ical.ts:109-116 | for every text: what the reader's four replacements make of the escaped text |
| ICalText.EscapedComesBackIff | lib/calendar/ical.ts:109-116 | an escaped text comes back as itself, line breaks as blanks and trimmed, exactly if no backslash in it stands before an n |
| CalendarRoundTrip.UidLineIsFolded | lib/calendar/calendarExport.ts:147-147 | a UID line is folded exactly when the property identifier has 24 characters or more |
| CalendarEventLines.UidsAreUnique | lib/calendar/calendarExport.ts:147-147 | a UID tells its property and both dates |
| BrokenLines.OneBrokenLine | lib/calendar/ical.ts:19-40 | among lines without breaks, one with carriage returns reads as what it reads as alone |
| CalendarRoundTrip.CalendarRead | lib/calendar/ical.ts:233-321 | the reading of any printed calendar, told by the reading of its title line alone |
| CalendarRoundTrip.ExportThenImportIff | lib/calendar/calendarExport.ts:125-172 | for every name, within 2 MB and 5000 ranges: a printed calendar reads back as exactly its ranges in order if and only if its title, read alone, leaves no event but such that the printed ones replace |
| CalendarRoundTrip.ExportThenImport | lib/calendar/calendarExport.ts:125-172 | for every name without a bare carriage return: refused above 2 MB or 5000 ranges, otherwise exactly its ranges in order |
| CalendarRoundTrip.RefusedTitle | lib/calendar/ical.ts:233-321 | a title that is refused alone makes every calendar refused, with the same error, below 2 MB |
| CalendarNames.HarmlessName | lib/calendar/calendarExport.ts:50-56 | a name with a bare carriage return whose calendars all read back as their ranges |
| CalendarNames.BrokenName | lib/calendar/calendarExport.ts:50-56 | a name with a bare carriage return whose calendars are all refused |
| CalendarRoundTrip.RecognisedAsOwn | lib/calendar/calendarSync.ts:13-20 | every exported event is recognised as HOST's own |
| CalendarRoundTrip.OwnIff | lib/calendar/calendarSync.ts:13-20 | an event is HOST's own exactly if its trimmed UID ends with the domain in any letter case |
| CalendarRoundTrip.StoredAreOthers | lib/calendar/calendarSync.ts:537-542 | a sync stores exactly the events of others |
| CalendarRoundTrip.ExportedNightsComeBack | lib/calendar/calendarSync.ts:537-542 | from any list of nights and any name: the ranges cover exactly these nights, read back exactly when the title is harmless, and a feed that syncs them stores nothing |
| AvailabilityExport.UnavailableAreTaken | lib/calendar/calendarExport.ts:195-203 | in every reachable state the query of the export finds exactly the nights from today on with a booking, a host block or an imported event |
| AvailabilityExport.ExportShowsTakenNights | lib/calendar/calendarExport.ts:174-220 | in every reachable state, for every harmless name within the limits: the exported calendar is accepted, the dates that its events occupy are exactly those nights, and a feed that syncs it stores nothing |
| AvailabilityExport.SyncedElsewhere | lib/calendar/calendarSync.ts:338-378 | from any reachable state of one property to the table of another that syncs its ranges: from its own today on it blocks exactly the nights that the first one has taken |
| CalendarRoundTrip.ImportedIsInjective | lib/calendar/calendarExport.ts:145-163 | different ranges read back as different dates |
| Refunds.Unresolved | lib/payments/refund.ts:52-72 | the row that a call continues is pending and has no provider refund |
| Refunds.Find | lib/payments/refund.ts:84-85 | the newest refund with the identifier among the listed ones, or none of them has it |
| Refunds.RefundStore.InitiateRefund | lib/payments/refund.ts:51-108 | the call, up to any statement after which it crashes, has the rows and refunds of the value-level call |
| RefundRetries.StepKeepsInv | lib/payments/refund.ts:51-108 | every call and every event between calls keeps: no second refund, rows and keys linked to their own refunds, only the newest row open |
| RefundRetries.NoDoubleRefund | lib/payments/refund.ts:51-108 | over every run with complete refund lists, no `host_refund_id` has two refunds and at most one row is unresolved |
| RefundRetries.RetriedRefundIsMadeOnce | lib/payments/refund.ts:62-105 | a refund interrupted anywhere, retried any number of times and completed is made exactly once, on one row |
| RefundRetries.NewRowIff | lib/payments/refund.ts:62-80 | a call opens a row of its own exactly when none is unresolved |
| RefundRetries.AnswerIsTheRowsRefund | lib/payments/refund.ts:82-108 | a call answers only at its end, with the Stripe refund of its own row as the row records it; the row stays pending and no other changes |
| RefundRetries.FewRefundsAreListed | lib/payments/refund.ts:84-84 | with at most twenty refunds the list is complete |
| RefundRetries.SecondRefundIff | lib/payments/refund.ts:82-103 | one call gives a row a second refund exactly when its refund has twenty newer ones, the key is forgotten, and the creation is reached |
| RefundRetries.TwentyNewerRefunds | lib/payments/refund.ts:84-84 | after a lost answer and a forgotten key, the retry refunds twice from twenty newer refunds on and not before |
| Rounding.RoundIs | lib/payments/refundReversal.ts:106-106 | half-up rounding is the one nearest integer |
| PriceEngine.WhoGetsWhat | lib/booking/priceEngine.ts:17-59 | under launch pricing host and HOST share what the guest pays, penny for penny; under historic pricing all but the taxes; no share is negative at a commission of at most 100% |
| PriceEngine.PriceOrError | lib/booking/priceEngine.ts:17-33 | when each of the two errors comes, and the nights and the version of a price |
| PriceEngine.OneMoreNight | lib/booking/priceEngine.ts:24-24 | one night costs the nightly price, and every further one adds it |
| PriceEngine.EveryLineAtItsRate | lib/booking/priceEngine.ts:24-46 | cleaning, guest fee, each VAT, historic tax and commission: the nearest minor unit at its own rate of its own amount |
| PriceEngine.OneStayOrTwo | lib/booking/priceEngine.ts:24-46 | under launch pricing a stay costs what it costs cut in two, but for one cleaning with its VAT and two minor units at most; the commission differs by one at most |
| RefundReversal.ComputeRefundReversalEntries | lib/payments/refundReversal.ts:84-115 | the loop over the categories, its errors, its rows and the payout increment |
| RefundReversal.TargetRange | lib/payments/refundReversal.ts:104-107 | a target lies between nothing and the original, never falls, and is the original at full refund |
| RefundReversal.GuestLinesNearRefund | lib/payments/refundReversal.ts:104-107 | the guest's four lines together are within one below and two above the refunded amount |
| RefundReversal.GuestLinesReachBothEnds | lib/payments/refundReversal.ts:104-107 | both ends are reached |
| RefundReversal.PayoutAndRevenueMatchRefund | lib/payments/refundReversal.ts:104-110 | payout and revenue that share the charge reverse the refunded amount, or one unit more exactly when the payout falls half way |
| RefundReversal.ReversedIff | lib/payments/refundReversal.ts:84-115 | when each error comes; one row for the guest and one for each category in turn, the last being the payout's increment |
| ReversalHistory.BookingLedger.OnRefundEvent | lib/payments/webhookHandler.ts:243-380 | the transaction for one succeeded refund: rows inserted and payout reduced or cancelled, or nothing at an error |
| ReversalHistory.EventHitsTargets | lib/payments/webhookHandler.ts:307-336 | whatever was reversed before, after an accepted event each category stands at its target |
| ReversalHistory.ReversedIsRoundedShare | lib/payments/refundReversal.ts:46-73 | over every history, refused events included, each category's total is round(original × cumulative / charge), at most the original, all of it at full refund |
| ReversalHistory.OrderDoesNotMatter | lib/payments/refundReversal.ts:70-74 | histories with the same total reverse the same amounts |
| ReversalHistory.PayoutIsWhatIsLeft | lib/payments/webhookHandler.ts:354-379 | the scheduled payout is what the ledger has left for the host, and it is cancelled at full refund |
| ReversalHistory.PayoutAfterEvent | lib/payments/webhookHandler.ts:354-379 | full refunds cancel a scheduled payout and leave its amount, partial ones take the host's share off it, others stay; a refused event changes nothing |
| ReversalHistory.SettledPayoutStays | lib/payments/webhookHandler.ts:360-379 | over every history a payout that was cancelled or paid never changes |
| ReversalHistory.PricedStayReversal | lib/booking/priceEngine.ts:24-44 | for every priced stay and every history: the guest's lines within -1..+2, and payout with revenue the refunded amount or one more under launch pricing |
| ReversalHistory.PricedLinesReversed | lib/payments/webhookHandler.ts:307-336 | for every priced stay and every history, each line of the price is reversed by its own share |
| SqlSplitter.SplitSqlStatements | scripts/migrate.ts:157-231 | the character loop gives the trimmed, filtered segments |
| SqlSplitting.TokenShape | scripts/migrate.ts:165-221 | what a line comment, a block comment, a string and a dollar quote are, closed or not |
| SqlSplitting.SplittingIsLossless | scripts/migrate.ts:157-229 | the segments concatenate to the text |
| SqlSplitting.CutsAreCodeSemicolons | scripts/migrate.ts:217-223 | segments end exactly behind the semicolons that are tokens of the loop, outside single quotes, dollar quotes and comments as it reads them |
| SqlDialect.SameTokensIff | scripts/migrate.ts:165-228 | for every text: the loop's tokens start where PostgreSQL's do exactly when nothing is odd: no quoted identifier, escape string, nested comment that ends, dollar sign in a name that looks like a tag, tag with digits, carriage return in a line comment |
| SqlDialect.CutsArePostgresSemicolons | scripts/migrate.ts:217-223 | a text with nothing odd is cut exactly behind PostgreSQL's semicolon tokens |
| SqlDialect.QuotedIdentifierIsCut | scripts/migrate.ts:217-223 | every double-quoted identifier with a semicolon, plain otherwise, is cut in two though it is one token |
| SqlSplitting.SegmentsAreComplete | scripts/migrate.ts:157-229 | every segment but the last is one complete statement, and in the last no statement ends |
| SqlSplitting.SplitIsUnique | scripts/migrate.ts:157-229 | complete statements and an open remainder are what their concatenation is cut into |
| SqlSplitting.FilterKeepsTerminated | scripts/migrate.ts:229-230 | the comment filter drops no terminated statement, and the remainder exactly when nothing but comments and blanks is left |
| SqlTexts.DollarTagIff | scripts/migrate.ts:206-216 | a dollar tag is two dollar signs with letters and underscores between them, or nothing |
| SqlTexts.HasCodeIff | scripts/migrate.ts:230-230 | a statement stays exactly if a character that is no blank stands outside its line comments |
| SqlSplitting.SplittingIsStable | scripts/migrate.ts:157-231 | the statements joined by line feeds split into the same statements |
| SchemaSnapshots.SchemaSatisfies | scripts/schemaSnapshot.ts:147-192 | the reports are exactly what is missing or different, and there are none exactly when everything required is there with its definition |
| SchemaSnapshots.WhatIsMissing | scripts/schemaSnapshot.ts:147-192 | what each report means, with the first difference of a column |
| SchemaSnapshots.DiffSchemaSnapshots | scripts/schemaSnapshot.ts:104-131 | the loops give the difference |
| SchemaSnapshots.DiffIsExact | scripts/schemaSnapshot.ts:100-131 | any database satisfies the later snapshot exactly when it satisfies the difference and still has what was left alone: the difference leaves nothing out |
| SchemaSnapshots.AfterSatisfiesDiff | scripts/schemaSnapshot.ts:100-131 | a database satisfies itself and the difference that led to it |
| SchemaDifferences.SameHasNoDifference | scripts/schemaSnapshot.ts:100-131 | equal snapshots have an empty difference |
| SchemaDifferences.DifferenceIsNew | scripts/schemaSnapshot.ts:104-131 | the difference has exactly the tables, columns, definitions of the four kinds and extensions of the later snapshot that were not in the earlier one as they are |
| SchemaDifferences.ChangedInOrder | scripts/schemaSnapshot.ts:112-116 | a table's new and changed columns, in the order of the table |
| SchemaDifferences.DifferenceIsLeast | scripts/schemaSnapshot.ts:100-131 | every snapshot that is exact for all databases has all of the difference |
| MigrationRunner.MigrationDatabase.VerifyOrCompleteStatementByStatement | scripts/migrate.ts:250-326 | the savepoint loop, the schema check and the ledger insert, or no change when aborted |
| MigrationRunner.MigrationDatabase.MigrateFile | scripts/migrate.ts:333-380 | one file: skipped, applied whole, completed statement by statement, or an error |
| MigrationRunner.MigrationDatabase.RunMigrations | scripts/migrate.ts:328-383 | the loop over the files with its results, stopping at the first error |
| MigrationRuns.NothingNewIff | scripts/migrate.ts:256-276 | the pass finds nothing new exactly when every statement collides with what is there; the schema is then unchanged |
| MigrationRuns.StoppedIff | scripts/migrate.ts:333-376 | the exact condition of each error that a file can stop a run with |
| MigrationRuns.ListedOnce | scripts/migrate.ts:357-357 | a file that is listed once never collides with the ledger |
| MigrationRuns.LedgerIsPrefix | scripts/migrate.ts:328-383 | after any run, also one that throws, the ledger is the old one and a prefix of the pending files |
| MigrationRuns.EveryFileKeeps | scripts/migrate.ts:344-372 | each recorded file had its manifest entry satisfied at commit, a bootstrapped one left the schema unchanged, a skipped one changed nothing |
| MigrationRuns.ErrorChangesNothing | scripts/migrate.ts:357-376 | the file that stops a run leaves schema and ledger as they were |
| MigrationRuns.RerunContinues | scripts/migrate.ts:328-336 | a second run goes on at the file where the first one stopped; after a success it changes nothing |
| MigrationRuns.PartialFileIsCompleted | scripts/migrate.ts:233-248 | a file that an earlier run got part way through ends in the schema of the whole file, and counts as bootstrapped exactly when nothing of it was new |
| MigrationBootstraps.PresentFiles | scripts/migrate.ts:333-380 | a run over files that are all present leaves the schema alone and gets through exactly the files before the first one that is neither recorded nor satisfied, with its outcome for each and its error |
| MigrationBootstraps.BootstrapsAllIff | scripts/migrate.ts:233-248 | with an empty ledger every file is bootstrapped exactly when the present schema satisfies each manifest entry |
| MigrationBootstraps.StopsAtChangedFile | scripts/migrate.ts:304-316 | on a database built by the migrations themselves, to which the unrecorded files bring nothing new, a run stops, if it does, at the first unrecorded file with a definition that a later migration has changed |

## Left out

- ChargeStores.ChargeStore.AttemptScheduledCharge: the texts of the reasons, the identifiers and failure codes that Stripe returns, and a missing booking row.
- ChargeStores.ChargeStore.OnPaymentSucceeded: the entitlement computed from the price and the cancellation policy.
- ChargeStores.ChargeStore.OnSetupIntentSucceeded: why a SetupIntent could not be confirmed, and the log lines.
- ChargeStores.ChargeStore.ReleaseExpiredHold: the booking row only; the nights it frees are those of PropertyCalendars.PropertyCalendar.ReleaseExpiredHold.
- ChargeOnce.AtMostOneCharge: under a condition on two kinds of keys; what holds without it are ChargeOnce.SecondChargeExplained and ChargeOnce.CanChargeTwiceIff.
- ChargeOnce.ErrorsFinalChargeOnce: under a hypothesis about Stripe; without it, the same two.
- ChargeGrace.GraceDeadlineIsFixed: for runs in which the hold is cleared while its timing still stands; the step that breaks it otherwise is characterised by an if-and-only-if.
- ChargeRetries.RetryBound: while the booking is pending, because afterwards there is no bound (ChargeRetries.CancelledBookingHasNoBound).
- AvailabilityLocks.TableIsLayeredView: for runs in which no partial refund confirms a released booking; when the view stands in any run is AvailabilityRefunds.ViewStandsIff.
- PropertyCalendars.PropertyCalendar.CreateBooking: the checks of property, guests and length of stay, the price and the policy snapshot.
- PropertyCalendars.PropertyCalendar.CancelBooking: the cancellation outcome and the refund that follows the commit.
- PropertyCalendars.PropertyCalendar.DiscardUnpaidBooking: the queries behind the payment facts, which are arguments.
- PropertyCalendars.PropertyCalendar.ReplaceFeedEvents: events are intervals, without their texts, and the feed's sync fields are left out.
- Folding.FoldLine: a character outside the basic plane counts as one unit, where the source counts two; Folding.PhysicalUnitsFit tells when the two agree.
- Folding.PhysicalLinesFit: characters, see Folding.PhysicalUnitsFit for code units.
- ICalParser.ReadLines: markers and property names are upper-cased for ASCII letters only.
- ICalParser.ParseICalendar: markers and property names are upper-cased for ASCII letters only.
- CalendarRoundTrip.ExportThenImport: for property identifiers without backslash and line breaks and of at most 454 characters, and for days up to the year 9999.
- AvailabilityExport.ExportShowsTakenNights: under the condition of AvailabilityLocks.TableIsLayeredView, for days up to the year 9999.
- RefundRetries.NoDoubleRefund: with complete refund lists at each call; what happens beyond twenty refunds is characterised by an if-and-only-if.
- ReversalHistory.BookingLedger.OnRefundEvent: the payment's status; the booking's is AvailabilityLocks' WebhookStatus.
- MigrationBootstraps.StopsAtChangedFile: for files that collide with or leave alone the present schema, and a manifest that holds what each file added to the one before.
- SqlDialect.SameTokensIff: the lexical rules alone, with standard strings; semicolons between the statements of one function body or rule are tokens for PostgreSQL too, and the loop cuts there.
- SchemaSnapshots.SchemaSatisfies: which reports there are, not their order.
- SchemaDifferences.DifferenceIsLeast: definitions up to their formatting, since that is all the check looks at.
- ICalEvents.SortedByStartAndKey: for a locale whose comparison is a total preorder; ICalGuarantee.SortSorts holds for any.
- AvailabilityExport.SyncedElsewhere: the second property is on a platform that stores our events; HOST's own sync skips them.
- PriceEngine.OneStayOrTwo: for launch pricing; historic pricing taxes nights and cleaning in one sum.
- The immediate PaymentIntent path (`lib/payments/newFlowPaymentIntent.ts`) and the legacy payment flow: they write attempts outside the advisory lock.
- Entitlements and transfers to hosts, dispute and connected-account events, notifications, audit rows.
- When a hold expires, as seen by the availability table: there any pending booking may be released; the clock is part of the charging protocol.
- Stripe beyond this: a call makes one intent at most, a remembered key replays its first answer or fails, keys may be forgotten at any time, money moves later only on an intent left processing or waiting for the customer, and never on a declined one.
- Postgres internals, SHA-256 (taken as injective), fresh claim tokens, advisory-lock hash collisions, which only serialise more.
- HTTP, feed fetching and its limits, feature flags other than that of off-session charging, the LIMIT 200 of the sweep queries, display states (`deriveGuestPaymentStatus`).
- Price overrides and cancellation tiers.
- Unicode: letter case is that of ASCII letters, a character outside the basic plane counts as one unit, and `localeCompare` of event keys is a parameter.
- Floating point: rates are ten-thousandths and rounding is exact half up.
- `normalizeDefinition` is a parameter of the schema check, and what a statement does to the schema is a parameter of the runner.
