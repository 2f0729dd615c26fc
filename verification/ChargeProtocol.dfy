/**
 * The charging protocol as a step system: any number of workers (sweep runs
 * and webhook deliveries) interleave transactions, Stripe calls, crashes and
 * clock ticks on one booking, and Stripe forgets keys at any time. A transaction
 * body is one atomic step; the Stripe call happens between two of them, outside
 * every lock.
 */
module ChargeProtocol {
  import opened Wrappers
  import opened ChargeTransactions

  type WorkerId = nat

  /** Where a worker stands; a worker without a counter is idle or has crashed. */
  datatype Counter =
    | MethodSaved                                        // payment method stored, timing not yet decided
    | Deferring                                          // timing was deferred, hold not yet cleared
    | Selected                                           // about to enter the decision transaction
    | Reserved(attempt: nat, key: Key, token: Token, until: Time)   // holds a lease, about to call Stripe
    | Answered(attempt: nat, token: Token, answer: Answer)

  /** A payment intent: the key of the call that made it, its first answer, and whether money has moved. */
  datatype Intent = Intent(key: Key, first: Answer, charged: bool)

  /** What Stripe remembers of a key: the intent that it made, by position, or an error. */
  datatype Memo = Made(intent: nat) | Refused

  /**
   * Idempotency keys are remembered for a while only (lib/payments/refund.ts:38-42 speaks of about
   * 24 hours); every intent that was ever made stays.
   */
  datatype Stripe = Stripe(memory: map<Key, Memo>, intents: seq<Intent>)

  /** What a call does to Stripe, beside its answer. */
  datatype Effect = Nothing | Refuses | Makes(first: Answer)

  datatype Outcome = Outcome(token: Token, attempt: nat, status: AttemptStatus)

  datatype State = State(
    now: Time,
    rows: Rows,
    nextToken: Token,
    workers: map<WorkerId, Counter>,
    stripe: Stripe,
    outcomes: seq<Outcome>,    // history: every outcome that a record transaction wrote
    replacements: nat)         // history: stored payment methods replaced by a different one

  datatype Event =
    | Tick(elapsed: nat)
    | CreateSetupIntent
    | SavePaymentMethodFor(worker: WorkerId, card: nat)
    | DecideTiming(worker: WorkerId)
    | ClearHoldFor(worker: WorkerId)
    | FindDue(worker: WorkerId)
    | DecideFor(worker: WorkerId)
    | CallStripe(worker: WorkerId, answer: Answer, effect: Effect)
    | RecordFor(worker: WorkerId)
    | Crash(worker: WorkerId)
    | KeyForgotten(key: Key)
    | Settle(intent: nat)
    | PaymentWebhook(intent: nat)
    | ExpirySweep
    | CancelBooking
    | DiscardBooking

  // ----- Stripe

  predicate IsError(answer: Answer) {
    answer == AnswerIdempotencyError || answer == AnswerApiError
  }

  /**
   * A call with a key that Stripe does not remember makes at most one intent, whose answer may be
   * lost on the way; a call with a remembered key makes nothing and replays the first answer, or fails.
   */
  predicate StripeCall(stripe: Stripe, key: Key, answer: Answer, effect: Effect) {
    match effect
    case Nothing => IsError(answer) || Replays(stripe, key, answer)
    case Refuses => key !in stripe.memory && answer == AnswerApiError
    case Makes(first) => key !in stripe.memory && !IsError(first) && answer in {first, AnswerApiError}
  }

  predicate Replays(stripe: Stripe, key: Key, answer: Answer) {
    && key in stripe.memory && stripe.memory[key].Made? && stripe.memory[key].intent < |stripe.intents|
    && answer == stripe.intents[stripe.memory[key].intent].first
  }

  function AfterCall(stripe: Stripe, key: Key, effect: Effect): Stripe {
    match effect
    case Nothing => stripe
    case Refuses => stripe.(memory := stripe.memory[key := Refused])
    case Makes(first) =>
      Stripe(stripe.memory[key := Made(|stripe.intents|)], stripe.intents + [Intent(key, first, first == AnswerSucceeded)])
  }

  /** Money has moved on some intent of this key. */
  predicate IsCharged(stripe: Stripe, key: Key) {
    exists i | 0 <= i < |stripe.intents| :: stripe.intents[i].key == key && stripe.intents[i].charged
  }

  /** Money can move later only on an intent left processing or waiting for the customer. */
  predicate CanSettle(stripe: Stripe, i: nat) {
    i < |stripe.intents| && stripe.intents[i].first in {AnswerProcessing, AnswerRequiresAction}
  }

  // ----- steps

  predicate At(s: State, w: WorkerId, counter: Counter) {
    w in s.workers && s.workers[w] == counter
  }

  predicate Enabled(s: State, e: Event) {
    match e
    case SavePaymentMethodFor(w, _) => w !in s.workers && s.rows.booking.newFlow
    case DecideTiming(w) => At(s, w, MethodSaved)
    case ClearHoldFor(w) => At(s, w, Deferring)
    case FindDue(w) => w !in s.workers && DueForScheduledCharge(s.rows, s.now)
    case DecideFor(w) => At(s, w, Selected)
    case CallStripe(w, answer, effect) =>
      w in s.workers && s.workers[w].Reserved? && StripeCall(s.stripe, s.workers[w].key, answer, effect)
    case RecordFor(w) => w in s.workers && s.workers[w].Answered?
    case Crash(w) => w in s.workers
    case Settle(i) => CanSettle(s.stripe, i)
    case PaymentWebhook(i) =>
      i < |s.stripe.intents| && s.stripe.intents[i].charged && s.stripe.intents[i].key.attemptNumber > 0
    case _ => true
  }

  function Move(s: State, w: WorkerId, counter: Counter): State {
    s.(workers := s.workers[w := counter])
  }

  function Leave(s: State, w: WorkerId): State {
    s.(workers := s.workers - {w})
  }

  function WithBooking(s: State, b: Booking): State {
    s.(rows := s.rows.(booking := b))
  }

  function Apply(s: State, e: Event): State
    requires Enabled(s, e)
  {
    var b := s.rows.booking;
    match e
    case Tick(elapsed) => s.(now := s.now + elapsed)
    case CreateSetupIntent => WithBooking(s, b.(hasCustomer := true))
    case SavePaymentMethodFor(w, card) =>
      var replaced := b.paymentMethod.Some? && ChangesPaymentMethod(b, card);
      Move(WithBooking(s, SavePaymentMethod(b, card)), w, MethodSaved)
      .(replacements := s.replacements + if replaced then 1 else 0)
    case DecideTiming(w) =>
      Move(s, w, if DecideChargeTiming(b.checkIn, s.now).immediate then Selected else Deferring)
    case ClearHoldFor(w) => Leave(WithBooking(s, ClearHold(b)), w)
    case FindDue(w) => Move(s, w, Selected)
    case DecideFor(w) => ApplyDecide(s, w)
    case CallStripe(w, answer, effect) =>
      Move(s, w, Answered(s.workers[w].attempt, s.workers[w].token, answer))
      .(stripe := AfterCall(s.stripe, s.workers[w].key, effect))
    case RecordFor(w) => ApplyRecord(s, w)
    case Crash(w) => Leave(s, w)
    case KeyForgotten(key) => s.(stripe := s.stripe.(memory := s.stripe.memory - {key}))
    case Settle(i) => s.(stripe := s.stripe.(intents := s.stripe.intents[i := s.stripe.intents[i].(charged := true)]))
    case PaymentWebhook(i) => s.(rows := PaymentSucceeded(s.rows, s.stripe.intents[i].key.attemptNumber - 1))
    case ExpirySweep => WithBooking(s, ReleaseExpired(b, s.now))
    case CancelBooking => WithBooking(s, Cancel(b))
    case DiscardBooking => WithBooking(s, Discard(s.rows))
  }

  function ApplyDecide(s: State, w: WorkerId): State {
    var (rows, decision) := Decide(s.rows, s.now, s.nextToken);
    var t := s.(rows := rows, nextToken := s.nextToken + 1);
    if decision.Charge? then Move(t, w, Reserved(decision.attempt, decision.key, decision.token, s.now + EXECUTION_LEASE)) else Leave(t, w)
  }

  function ApplyRecord(s: State, w: WorkerId): State
    requires w in s.workers && s.workers[w].Answered?
  {
    var c := s.workers[w];
    var (rows, recorded) := Record(s.rows, s.now, c.attempt, c.token, OutcomeOf(c.answer));
    Leave(s, w).(
    rows := rows,
    outcomes := if recorded then s.outcomes + [Outcome(c.token, c.attempt, OutcomeOf(c.answer))] else s.outcomes)
  }

  // ----- runs

  ghost predicate Valid(s: State, run: seq<Event>)
    decreases |run|
  {
    run == [] || (Enabled(s, run[0]) && Valid(Apply(s, run[0]), run[1..]))
  }

  ghost function Exec(s: State, run: seq<Event>): State
    requires Valid(s, run)
    decreases |run|
  {
    if run == [] then s else Exec(Apply(s, run[0]), run[1..])
  }

  /** Runs can be extended at the end. */
  lemma {:induction false} Snoc(s: State, run: seq<Event>, e: Event)
    requires Valid(s, run) && Enabled(Exec(s, run), e)
    ensures Valid(s, run + [e]) && Exec(s, run + [e]) == Apply(Exec(s, run), e)
    decreases |run|
  {
    if run == [] {
      assert ([e])[1..] == [];
    } else {
      Snoc(Apply(s, run[0]), run[1..], e);
      assert (run + [e])[1..] == run[1..] + [e];
    }
  }

  /** A booking just created: unpaid, on its checkout hold, its timing decided. */
  ghost predicate Initial(s: State) {
    var b := s.rows.booking;
    && b.status == PendingPayment
    && b.scheduledChargeDate == DecideChargeTiming(b.checkIn, s.now).scheduledChargeDate
    && b.paymentMethod == None && b.graceStart == None && b.nextRetry == None
    && b.holdExpires == Some(s.now + CHECKOUT_HOLD)
    && s.rows.attempts == [] && s.workers == map[] && s.stripe == Stripe(map[], [])
    && s.outcomes == [] && s.replacements == 0
  }

  // ----- error answers

  /** The key whose attempt a step records failed on account of an error answer, if it does. */
  ghost function FailedByError(s: State, e: Event): set<Key>
    requires Enabled(s, e)
  {
    if e.RecordFor? && s.workers[e.worker].answer == AnswerApiError
       && OwnsClaim(s.rows.attempts, s.workers[e.worker].attempt, s.workers[e.worker].token)
    then {Sha256(s.workers[e.worker].attempt + 1)}
    else {}
  }

  ghost function ErrorFailures(s: State, run: seq<Event>): set<Key>
    requires Valid(s, run)
    decreases |run|
  {
    if run == [] then {} else FailedByError(s, run[0]) + ErrorFailures(Apply(s, run[0]), run[1..])
  }

  /** The keys for which some call of the run was answered with an error. */
  ghost function ErrorAnswers(s: State, run: seq<Event>): set<Key>
    requires Valid(s, run)
    decreases |run|
  {
    if run == [] then {}
    else
      (if run[0].CallStripe? && run[0].answer == AnswerApiError then {s.workers[run[0].worker].key} else {}) +
      ErrorAnswers(Apply(s, run[0]), run[1..])
  }

  /** None of these keys is charged. */
  ghost predicate NoneCharged(s: State, keys: set<Key>) {
    forall key | key in keys :: !IsCharged(s.stripe, key)
  }

  // ----- forgotten keys

  /** The key of a call that makes an intent although an earlier call with it has made one, if the step is one. */
  ghost function MadeAnew(s: State, e: Event): set<Key>
    requires Enabled(s, e)
  {
    if e.CallStripe? && e.effect.Makes?
       && exists i | 0 <= i < |s.stripe.intents| :: s.stripe.intents[i].key == s.workers[e.worker].key
    then {s.workers[e.worker].key}
    else {}
  }

  ghost function CalledAnew(s: State, run: seq<Event>): set<Key>
    requires Valid(s, run)
    decreases |run|
  {
    if run == [] then {} else MadeAnew(s, run[0]) + CalledAnew(Apply(s, run[0]), run[1..])
  }
}
