/**
 * The database side of the off-session charging protocol for one booking:
 * its row, its payment attempts, and every transaction body that reads or
 * writes them. Each transaction is a function from the rows before to the
 * rows after; `ChargeStore` runs the same transactions statement by statement.
 *
 * Times are milliseconds since the epoch.
 */
module ChargeTransactions {
  import opened Wrappers

  type Time = nat
  type Token = nat

  const HOUR: nat := 3_600_000
  const DAY: nat := 86_400_000
  const GRACE_PERIOD: nat := 72 * HOUR
  const RETRY_DELAY: nat := 24 * HOUR
  const EXECUTION_LEASE: nat := 120_000
  const CHECKOUT_HOLD: nat := 900_000

  datatype BookingStatus = PendingPayment | Confirmed | Cancelled

  datatype Booking = Booking(
    status: BookingStatus,
    checkIn: Time,
    newFlow: bool,
    taxConfigured: bool,
    hasCustomer: bool,
    paymentMethod: Option<nat>,
    scheduledChargeDate: Option<Time>,
    graceStart: Option<Time>,
    holdExpires: Option<Time>,
    nextRetry: Option<Time>)

  datatype AttemptStatus = Pending | Processing | Succeeded | Failed | RequiresAction

  /** The idempotency key: the hash of the booking and the attempt number, taken as injective. */
  datatype Key = Sha256(attemptNumber: nat)

  datatype Attempt = Attempt(number: nat, status: AttemptStatus, key: Key, claim: Option<Token>, lease: Option<Time>)

  /** The rows of one booking. An attempt's id is its position in insertion order. */
  datatype Rows = Rows(booking: Booking, attempts: seq<Attempt>)

  /** What the decision transaction tells its worker to do. */
  datatype Decision = AlreadySucceeded | Refuse | Charge(attempt: nat, key: Key, token: Token)

  // ----- charge timing

  datatype ChargeTiming = ChargeTiming(immediate: bool, scheduledChargeDate: Option<Time>)

  /** More than 60 whole days ahead is deferred to the instant 60 days before check-in. */
  function DecideChargeTiming(checkIn: Time, now: Time): (timing: ChargeTiming)
    ensures timing.immediate <==> checkIn < now + 61 * 86_400_000
    ensures !timing.immediate ==>
              timing.scheduledChargeDate.Some? && now + 86_400_000 <= timing.scheduledChargeDate.value < checkIn
  {
    var daysUntilCheckIn := (checkIn - now) / DAY;
    if daysUntilCheckIn > 60 then ChargeTiming(false, Some(checkIn - 60 * DAY)) else ChargeTiming(true, None)
  }

  // ----- queries

  predicate HasSucceeded(attempts: seq<Attempt>) {
    exists i | 0 <= i < |attempts| :: attempts[i].status == Succeeded
  }

  /** The row that `ORDER BY attempt_number DESC LIMIT 1` returns. */
  function LatestIndex(attempts: seq<Attempt>): (latest: nat)
    requires attempts != []
    ensures latest < |attempts|
    ensures forall i | 0 <= i < |attempts| :: attempts[i].number <= attempts[latest].number
  {
    var last := |attempts| - 1;
    if last == 0 then 0
    else
      var best := LatestIndex(attempts[..last]);
      if attempts[last].number >= attempts[best].number then last else best
  }

  /** `COALESCE(MAX(attempt_number), 0)`. */
  function MaxNumber(attempts: seq<Attempt>): nat {
    if attempts == [] then 0 else attempts[LatestIndex(attempts)].number
  }

  /** `new Date(hold_expires_at)`: a NULL column reads as the epoch. */
  function HoldAsDate(booking: Booking): Time {
    if booking.holdExpires.Some? then booking.holdExpires.value else 0
  }

  /** The sweep's query: is this booking due for a scheduled charge? */
  predicate DueForScheduledCharge(rows: Rows, now: Time) {
    var b := rows.booking;
    && b.newFlow
    && b.status == PendingPayment
    && b.scheduledChargeDate.Some? && b.scheduledChargeDate.value <= now
    && (b.graceStart.None? || (b.holdExpires.Some? && now < b.holdExpires.value))
    && (b.nextRetry.None? || b.nextRetry.value <= now)
    && !HasSucceeded(rows.attempts)
  }

  // ----- the decision transaction

  predicate MayCharge(b: Booking, now: Time) {
    && b.newFlow
    && b.taxConfigured
    && b.hasCustomer
    && b.paymentMethod.Some?
    && !(b.graceStart.Some? && HoldAsDate(b) <= now)
  }

  predicate LeaseActive(attempt: Attempt, now: Time) {
    attempt.lease.Some? && now < attempt.lease.value
  }

  function Claimed(attempt: Attempt, token: Token, now: Time): Attempt {
    attempt.(claim := Some(token), lease := Some(now + EXECUTION_LEASE))
  }

  function NewAttempt(attempts: seq<Attempt>, token: Token, now: Time): Attempt {
    var number := MaxNumber(attempts) + 1;
    Claimed(Attempt(number, Pending, Sha256(number), None, None), token, now)
  }

  /** Decision, attempt reservation and execution claim, under the booking's advisory lock. */
  function Decide(rows: Rows, now: Time, token: Token): (Rows, Decision) {
    var attempts := rows.attempts;
    if HasSucceeded(attempts) then (rows, AlreadySucceeded)
    else if !MayCharge(rows.booking, now) then (rows, Refuse)
    else if attempts != [] && attempts[LatestIndex(attempts)].status in {Pending, Processing} then
      var i := LatestIndex(attempts);
      if LeaseActive(attempts[i], now) then (rows, Refuse)
      else (rows.(attempts := attempts[i := Claimed(attempts[i], token, now)]), Charge(i, attempts[i].key, token))
    else if attempts != [] && attempts[LatestIndex(attempts)].status == RequiresAction then (rows, Refuse)
    else if attempts != [] && attempts[LatestIndex(attempts)].status == Failed
            && rows.booking.nextRetry.Some? && now < rows.booking.nextRetry.value then (rows, Refuse)
    else
      var attempt := NewAttempt(attempts, token, now);
      (rows.(attempts := attempts + [attempt]), Charge(|attempts|, attempt.key, token))
  }

  // ----- the record transaction

  /** The compare-and-set guard: the claim is still this worker's and no success is overwritten. */
  predicate OwnsClaim(attempts: seq<Attempt>, id: nat, token: Token) {
    id < |attempts| && attempts[id].claim == Some(token) && attempts[id].status != Succeeded
  }

  function WithGracePeriod(b: Booking, now: Time): Booking {
    if b.status == PendingPayment && b.graceStart.None?
    then b.(graceStart := Some(now), holdExpires := Some(now + GRACE_PERIOD))
    else b
  }

  function WithNextRetry(b: Booking, now: Time): Booking {
    if b.status == PendingPayment then b.(nextRetry := Some(now + RETRY_DELAY)) else b
  }

  function BookingAfterOutcome(b: Booking, outcome: AttemptStatus, now: Time): Booking {
    match outcome
    case Succeeded => b
    case Failed => WithNextRetry(WithGracePeriod(b, now), now)
    case _ => WithGracePeriod(b, now)
  }

  function Record(rows: Rows, now: Time, id: nat, token: Token, outcome: AttemptStatus): (Rows, bool) {
    if !OwnsClaim(rows.attempts, id, token) then (rows, false)
    else
      (Rows(BookingAfterOutcome(rows.booking, outcome, now),
            rows.attempts[id := rows.attempts[id].(status := outcome, claim := None, lease := None)]), true)
  }

  // ----- webhooks and sweeps

  /** payment_intent.succeeded for the attempt named in the intent's metadata. */
  function PaymentSucceeded(rows: Rows, id: nat): Rows {
    if rows.booking.status == Confirmed then rows
    else
      Rows(if rows.booking.status == PendingPayment then rows.booking.(status := Confirmed) else rows.booking,
           if id < |rows.attempts| then rows.attempts[id := rows.attempts[id].(status := Succeeded)] else rows.attempts)
  }

  predicate ChangesPaymentMethod(b: Booking, card: nat) {
    b.paymentMethod != Some(card)
  }

  /** Persists the confirmed payment method; a different one clears the retry clock. */
  function SavePaymentMethod(b: Booking, card: nat): Booking {
    b.(paymentMethod := Some(card), nextRetry := if ChangesPaymentMethod(b, card) then None else b.nextRetry)
  }

  /** The setup webhook's update for a booking whose charge is deferred. */
  function ClearHold(b: Booking): Booking {
    if b.status == PendingPayment then b.(holdExpires := None) else b
  }

  predicate HoldExpired(b: Booking, now: Time) {
    b.status == PendingPayment && b.holdExpires.Some? && b.holdExpires.value <= now
  }

  /** The expiry sweep's transaction, as far as the booking row is concerned. */
  function ReleaseExpired(b: Booking, now: Time): Booking {
    if HoldExpired(b, now) then b.(status := Cancelled) else b
  }

  /** A cancellation by guest, host or admin. */
  function Cancel(b: Booking): Booking {
    b.(status := Cancelled)
  }

  /** A guest discarding an unpaid checkout. */
  function Discard(rows: Rows): Booking {
    if rows.booking.status == PendingPayment && !HasSucceeded(rows.attempts)
    then rows.booking.(status := Cancelled, nextRetry := None)
    else rows.booking
  }

  // ----- Stripe's answers

  /** What `paymentIntents.create` came back with. `Declined` stands for every other intent status. */
  datatype Answer = AnswerSucceeded | AnswerRequiresAction | AnswerProcessing | AnswerDeclined
                  | AnswerIdempotencyError | AnswerApiError

  /** The status that the worker asks the record transaction to write. */
  function OutcomeOf(answer: Answer): AttemptStatus {
    match answer
    case AnswerSucceeded => Succeeded
    case AnswerRequiresAction => RequiresAction
    case AnswerProcessing => Processing
    case AnswerIdempotencyError => Processing
    case AnswerDeclined => Failed
    case AnswerApiError => Failed
  }

  /** The outcome that a worker whose record was accepted reports. */
  datatype ReportedOutcome = AsRecorded(status: AttemptStatus) | ApiError

  function Reported(answer: Answer): ReportedOutcome {
    if answer == AnswerApiError then ApiError else AsRecorded(OutcomeOf(answer))
  }
}
