/** How many attempts the off-session path reserves for a pending booking. */
module ChargeRetries {
  import opened Wrappers
  import opened ChargeTransactions
  import opened ChargeProtocol
  import opened ChargeInvariants
  import opened ChargeRuns

  /**
   * While the booking is pending: no failure without a grace period; inside one, every attempt
   * that no replaced payment method pays for stands a full retry delay after the one before it.
   */
  ghost predicate SpacedRetries(s: State) {
    var b := s.rows.booking;
    var n, k := |s.rows.attempts|, s.replacements;
    b.status == PendingPayment ==>
      match b.graceStart
      case None => n == 0 || (n == 1 && s.rows.attempts[0].status in {Pending, Succeeded})
      case Some(start) =>
        && n >= 1
        && start + RETRY_DELAY * (n - 1 - k) <= s.now
        && (s.rows.attempts[n - 1].status == Failed ==>
              start + RETRY_DELAY * (n - k) <= if b.nextRetry.Some? then b.nextRetry.value else s.now)
        && (b.holdExpires.Some? ==> b.holdExpires.value == start + GRACE_PERIOD)
        && n <= 3 + k
  }

  /** Attempts need a payment method, so a first save is never a replacement. */
  ghost predicate MethodBeforeAttempt(s: State) {
    s.rows.attempts != [] ==> s.rows.booking.paymentMethod.Some?
  }

  lemma DecideKeepsSpacing(s: State, w: WorkerId)
    requires LogInv(s) && SpacedRetries(s) && MethodBeforeAttempt(s) && At(s, w, Selected)
    ensures SpacedRetries(ApplyDecide(s, w)) && MethodBeforeAttempt(ApplyDecide(s, w))
  {
    hide Claims, KeysReserved;
    if s.rows.attempts != [] {
      LatestIsLast(s.rows.attempts);
    }
  }

  lemma RecordKeepsMethod(s: State, w: WorkerId)
    requires MethodBeforeAttempt(s) && Enabled(s, RecordFor(w))
    ensures MethodBeforeAttempt(ApplyRecord(s, w))
  {}

  lemma RecordKeepsSpacing(s: State, w: WorkerId)
    requires LogInv(s) && SpacedRetries(s) && MethodBeforeAttempt(s) && Enabled(s, RecordFor(w))
    ensures SpacedRetries(ApplyRecord(s, w)) && MethodBeforeAttempt(ApplyRecord(s, w))
  {
    RecordKeepsMethod(s, w);
    hide MethodBeforeAttempt;
    assert Holds(s, w, s.workers[w].token) && ClaimOk(s, w, s.workers[w].token);
    hide LogInv, Claims, KeysReserved, Holds, ClaimOk;
  }

  lemma StepKeepsSpacing(s: State, e: Event)
    requires LogInv(s) && SpacedRetries(s) && MethodBeforeAttempt(s) && Enabled(s, e)
    ensures SpacedRetries(Apply(s, e)) && MethodBeforeAttempt(Apply(s, e))
  {
    match e
    case DecideFor(w) => DecideKeepsSpacing(s, w);
    case RecordFor(w) => RecordKeepsSpacing(s, w);
    case _ =>
  }

  lemma {:induction false} RunKeepsSpacing(s: State, run: seq<Event>)
    requires LogInv(s) && SpacedRetries(s) && MethodBeforeAttempt(s) && Valid(s, run)
    ensures SpacedRetries(Exec(s, run))
    decreases |run|
  {
    if run != [] {
      StepKeepsLog(s, run[0]);
      StepKeepsSpacing(s, run[0]);
      RunKeepsSpacing(Apply(s, run[0]), run[1..]);
    }
  }

  /** At most three attempts, and one more for every replaced payment method. */
  lemma RetryBound(s: State, run: seq<Event>)
    requires Initial(s) && Valid(s, run)
    ensures var end := Exec(s, run);
            end.rows.booking.status == PendingPayment ==> |end.rows.attempts| <= 3 + end.replacements
  {
    InitialLog(s);
    RunKeepsSpacing(s, run);
  }

  /** Who moves the retry clock: a recorded failure, a replaced payment method, a discarded booking. */
  lemma RetryClockMoves(s: State, e: Event)
    requires Enabled(s, e) && Apply(s, e).rows.booking.nextRetry != s.rows.booking.nextRetry
    ensures
      var before, after := s.rows.booking, Apply(s, e).rows.booking;
      || (e.RecordFor? && OutcomeOf(s.workers[e.worker].answer) == Failed && before.status == PendingPayment
          && OwnsClaim(s.rows.attempts, s.workers[e.worker].attempt, s.workers[e.worker].token)
          && after == WithGracePeriod(before, s.now).(nextRetry := Some(s.now + 24 * HOUR)))
      || (e.SavePaymentMethodFor? && before.paymentMethod != after.paymentMethod && after.nextRetry == None)
      || (e.DiscardBooking? && after.status == Cancelled && after.nextRetry == None)
  {
    if e.RecordFor? {
      var c := s.workers[e.worker];
      assert OwnsClaim(s.rows.attempts, c.attempt, c.token);
    }
  }

  // ----- the bound is reached

  /** An idle booking, timing immediate, whose n attempts all failed and whose retry is due. */
  ghost predicate RetryDue(t: State, n: nat) {
    var b := t.rows.booking;
    && 0 !in t.workers && t.replacements == 0 && b.status == PendingPayment
    && b.newFlow && b.taxConfigured && b.hasCustomer && b.checkIn == 30 * DAY
    && (b.paymentMethod.Some? ==> b.paymentMethod == Some(1))
    && t.now == RETRY_DELAY * n
    && (b.graceStart.Some? ==> b.graceStart == Some(0) && b.holdExpires == Some(GRACE_PERIOD))
    && (n > 0 ==> b.graceStart.Some?)
    && (b.nextRetry.None? || b.nextRetry.value <= t.now)
    && |t.rows.attempts| == n && Numbered(t.rows.attempts)
    && (forall i | 0 <= i < n :: t.rows.attempts[i].status == Failed)
    && (forall key | key in t.stripe.memory :: key.attemptNumber <= n)
  }

  /** A declined answer recorded, and a retry delay later the retry is due. */
  lemma RecordDeclined(t: State, n: nat)
    requires n < 3 && 0 in t.workers && t.workers[0].Answered? && t.workers[0].attempt == n
    requires t.workers[0].answer == AnswerDeclined && |t.rows.attempts| == n + 1
    requires OwnsClaim(t.rows.attempts, n, t.workers[0].token) && t.rows.attempts[n].number == n + 1
    requires t.rows.attempts[n].key == Sha256(n + 1)
    requires RetryDue(t.(workers := map[], rows := t.rows.(attempts := t.rows.attempts[..n]), stripe := t.stripe.(memory := t.stripe.memory - {Sha256(n + 1)})), n)
    requires t.rows.booking.paymentMethod == Some(1)
    ensures RetryDue(Apply(Apply(t, RecordFor(0)), Tick(RETRY_DELAY)), n + 1)
  {}

  /** The state in which the same card is saved again and the booking is selected for a charge. */
  function SelectedAgain(t: State): State {
    Move(WithBooking(t, SavePaymentMethod(t.rows.booking, 1)), 0, Selected)
  }

  lemma DueIsReady(t: State, n: nat)
    requires RetryDue(t, n) && n < 3
    ensures 0 !in t.workers && t.rows.booking.newFlow && t.rows.booking.checkIn < t.now + 61 * DAY
    ensures t.rows.booking.paymentMethod.Some? ==> !ChangesPaymentMethod(t.rows.booking, 1)
    ensures At(SelectedAgain(t), 0, Selected) && ReadyForNext(SelectedAgain(t))
    ensures Sha256(|t.rows.attempts| + 1) !in t.stripe.memory
  {}

  /** The declined call of a booking whose retry is due. */
  function DeclinedCall(t: State): State {
    var u, n := SelectedAgain(t), |t.rows.attempts|;
    u.(rows := u.rows.(attempts := t.rows.attempts + [Next(u)]), nextToken := t.nextToken + 1,
       workers := u.workers[0 := Answered(n, t.nextToken, AnswerDeclined)],
       stripe := AfterCall(t.stripe, Sha256(n + 1), Makes(AnswerDeclined)))
  }

  lemma DeclinedCallRecorded(t: State, n: nat)
    requires RetryDue(t, n) && n < 3
    ensures Enabled(DeclinedCall(t), RecordFor(0))
    ensures RetryDue(Apply(Apply(DeclinedCall(t), RecordFor(0)), Tick(RETRY_DELAY)), n + 1)
  {
    var x := DeclinedCall(t);
    assert x.rows.attempts[..n] == t.rows.attempts;
    assert x.stripe.memory - {Sha256(n + 1)} == t.stripe.memory;
    RecordDeclined(x, n);
  }

  lemma DeclinedOnce(s: State, run: seq<Event>, n: nat) returns (run': seq<Event>)
    requires Valid(s, run) && RetryDue(Exec(s, run), n) && n < 3
    ensures Valid(s, run') && RetryDue(Exec(s, run'), n + 1)
  {
    hide RetryDue, Exec, Valid, ReadyForNext, Numbered;
    var t := Exec(s, run);
    DueIsReady(t, n);
    var run1 := SaveAndSelect(s, run, 0, 1);
    var run2 := DecideAndCall(s, run1, 0, AnswerDeclined, AnswerDeclined);
    assert Exec(s, run2) == DeclinedCall(t);
    DeclinedCallRecorded(t, n);
    run' := RecordAndWait(s, run2);
  }

  lemma RecordAndWait(s: State, run: seq<Event>) returns (run': seq<Event>)
    requires Valid(s, run) && Enabled(Exec(s, run), RecordFor(0))
    ensures Valid(s, run') && Exec(s, run') == Apply(Apply(Exec(s, run), RecordFor(0)), Tick(RETRY_DELAY))
  {
    Snoc(s, run, RecordFor(0));
    Snoc(s, run + [RecordFor(0)], Tick(RETRY_DELAY));
    run' := run + [RecordFor(0)] + [Tick(RETRY_DELAY)];
    hide ApplyRecord, Exec, Valid;
  }

  /** Three declined attempts with one payment method do fit in the grace period. */
  lemma RetryBoundIsReached()
    ensures exists s, run :: Initial(s) && Valid(s, run)
              && Exec(s, run).rows.booking.status == PendingPayment
              && |Exec(s, run).rows.attempts| == 3 && Exec(s, run).replacements == 0
  {
    var s := FreshBooking(30 * DAY);
    var run1 := DeclinedOnce(s, [], 0);
    var run2 := DeclinedOnce(s, run1, 1);
    var run3 := DeclinedOnce(s, run2, 2);
    assert Initial(s) && Valid(s, run3);
  }

  // ----- beyond pending bookings

  /** The decision transaction never looks at the booking's status. */
  lemma DecisionIgnoresStatus(rows: Rows, now: Time, token: Token, status: BookingStatus)
    ensures var other := rows.(booking := rows.booking.(status := status));
            && Decide(other, now, token).1 == Decide(rows, now, token).1
            && Decide(other, now, token).0.attempts == Decide(rows, now, token).0.attempts
  {}

  /** A cancelled booking that has lost its pace: all attempts failed, and no retry time was written. */
  ghost predicate Unpaced(t: State, n: nat) {
    var b := t.rows.booking;
    && t.now == 0 && 0 !in t.workers && t.replacements == 0 && b.status == Cancelled
    && b.newFlow && b.taxConfigured && b.hasCustomer && b.checkIn == 30 * DAY
    && (b.paymentMethod.Some? ==> b.paymentMethod == Some(1))
    && b.graceStart == None && b.nextRetry == None
    && |t.rows.attempts| == n && Numbered(t.rows.attempts)
    && (forall i | 0 <= i < n :: t.rows.attempts[i].status == Failed)
    && (forall key | key in t.stripe.memory :: key.attemptNumber <= n)
  }

  lemma UnpacedIsReady(t: State, n: nat)
    requires Unpaced(t, n)
    ensures t.rows.booking.paymentMethod.Some? ==> !ChangesPaymentMethod(t.rows.booking, 1)
    ensures ReadyForNext(SelectedAgain(t)) && Sha256(|t.rows.attempts| + 1) !in t.stripe.memory
  {}

  lemma UnpacedRecorded(t: State, n: nat)
    requires Unpaced(t, n)
    ensures Enabled(DeclinedCall(t), RecordFor(0)) && Unpaced(Apply(DeclinedCall(t), RecordFor(0)), n + 1)
  {
    var x := DeclinedCall(t);
    assert forall i | 0 <= i < n :: x.rows.attempts[i] == t.rows.attempts[i];
  }

  /** One more delivery of the setup webhook, with the card that is stored already. */
  lemma OneMoreAttempt(s: State, run: seq<Event>, n: nat) returns (run': seq<Event>)
    requires Valid(s, run) && Unpaced(Exec(s, run), n)
    ensures Valid(s, run') && Unpaced(Exec(s, run'), n + 1)
  {
    var t := Exec(s, run);
    UnpacedIsReady(t, n);
    hide Exec, Valid, ReadyForNext, Numbered;
    var run1 := SaveAndSelect(s, run, 0, 1);
    var run2 := DecideAndCall(s, run1, 0, AnswerDeclined, AnswerDeclined);
    assert Exec(s, run2) == DeclinedCall(t);
    UnpacedRecorded(t, n);
    Snoc(s, run2, RecordFor(0));
    run' := run2 + [RecordFor(0)];
  }

  lemma CancelledAtOnce()
    ensures Valid(FreshBooking(30 * DAY), [CancelBooking]) && Unpaced(Exec(FreshBooking(30 * DAY), [CancelBooking]), 0)
  {
    var s := FreshBooking(30 * DAY);
    assert [CancelBooking][1..] == [];
    assert Exec(Apply(s, CancelBooking), []) == Apply(s, CancelBooking);
  }

  lemma {:induction false} UnpacedRun(n: nat) returns (run: seq<Event>)
    ensures Valid(FreshBooking(30 * DAY), run) && Unpaced(Exec(FreshBooking(30 * DAY), run), n)
  {
    hide Exec, Valid, Unpaced, FreshBooking;
    if n == 0 {
      CancelledAtOnce();
      run := [CancelBooking];
    } else {
      var before := UnpacedRun(n - 1);
      run := OneMoreAttempt(FreshBooking(30 * DAY), before, n - 1);
    }
  }

  /**
   * The bound needs its condition: a cancelled booking is still reserved for charges, and no number
   * of them is too many, with one payment method and no time between them.
   */
  lemma CancelledBookingHasNoBound(n: nat)
    ensures exists s, run :: Initial(s) && Valid(s, run)
              && Exec(s, run).rows.booking.status == Cancelled && Exec(s, run).now == s.now
              && |Exec(s, run).rows.attempts| == n && Exec(s, run).replacements == 0
  {
    var s := FreshBooking(30 * DAY);
    var run := UnpacedRun(n);
    assert Initial(s) && s.now == 0;
  }
}
