/** Building blocks for concrete runs: what one uninterrupted worker does. */
module ChargeRuns {
  import opened Wrappers
  import opened ChargeTransactions
  import opened ChargeProtocol
  import opened ChargeInvariants

  /** A booking created at time 0. */
  function FreshBooking(checkIn: Time): State {
    var now := 0;
    State(now,
          Rows(Booking(PendingPayment, checkIn, true, true, true, None, DecideChargeTiming(checkIn, now).scheduledChargeDate,
                       None, Some(now + CHECKOUT_HOLD), None), []),
          0, map[], Stripe(map[], []), [], 0)
  }

  /** The setup webhook of an immediate booking stores the card and selects the booking for a charge. */
  lemma SaveAndSelect(s: State, run: seq<Event>, w: WorkerId, card: nat) returns (run': seq<Event>)
    requires Valid(s, run)
    requires var t := Exec(s, run);
             w !in t.workers && t.rows.booking.newFlow && t.rows.booking.checkIn < t.now + 61 * DAY
    ensures run' == run + [SavePaymentMethodFor(w, card), DecideTiming(w)] && Valid(s, run')
    ensures var t, u := Exec(s, run), Exec(s, run');
            var replaced := t.rows.booking.paymentMethod.Some? && ChangesPaymentMethod(t.rows.booking, card);
            u == Move(WithBooking(t, SavePaymentMethod(t.rows.booking, card)), w, Selected)
                 .(replacements := t.replacements + if replaced then 1 else 0)
  {
    var t := Exec(s, run);
    Snoc(s, run, SavePaymentMethodFor(w, card));
    var run1 := run + [SavePaymentMethodFor(w, card)];
    var t1 := Exec(s, run1);
    Snoc(s, run1, DecideTiming(w));
    run' := run1 + [DecideTiming(w)];
    assert t1.workers[w := Selected] == t.workers[w := Selected];
  }

  /** Every attempt so far failed and the retry clock allows another. */
  ghost predicate ReadyForNext(t: State) {
    && MayCharge(t.rows.booking, t.now)
    && (t.rows.booking.nextRetry.None? || t.rows.booking.nextRetry.value <= t.now)
    && Numbered(t.rows.attempts) && (forall i | 0 <= i < |t.rows.attempts| :: t.rows.attempts[i].status == Failed)
  }

  function Next(t: State): Attempt {
    var n := |t.rows.attempts| + 1;
    Claimed(Attempt(n, Pending, Sha256(n), None, None), t.nextToken, t.now)
  }

  lemma DecideReserves(t: State, w: WorkerId)
    requires At(t, w, Selected) && ReadyForNext(t)
    ensures
      var n := |t.rows.attempts|;
      ApplyDecide(t, w) == t.(
      rows := t.rows.(attempts := t.rows.attempts + [Next(t)]), nextToken := t.nextToken + 1,
      workers := t.workers[w := Reserved(n, Sha256(n + 1), t.nextToken, t.now + EXECUTION_LEASE)])
  {}

  /** A selected worker reserves the next attempt and makes an intent with its key. */
  lemma DecideAndCall(s: State, run: seq<Event>, w: WorkerId, answer: Answer, first: Answer) returns (run': seq<Event>)
    requires Valid(s, run) && At(Exec(s, run), w, Selected) && ReadyForNext(Exec(s, run))
    requires StripeCall(Exec(s, run).stripe, Sha256(|Exec(s, run).rows.attempts| + 1), answer, Makes(first))
    ensures run' == run + [DecideFor(w), CallStripe(w, answer, Makes(first))] && Valid(s, run')
    ensures
      var t := Exec(s, run);
      var n := |t.rows.attempts|;
      Exec(s, run') == t.(
      rows := t.rows.(attempts := t.rows.attempts + [Next(t)]), nextToken := t.nextToken + 1,
      workers := t.workers[w := Answered(n, t.nextToken, answer)],
      stripe := AfterCall(t.stripe, Sha256(n + 1), Makes(first)))
  {
    var t := Exec(s, run);
    var n := |t.rows.attempts|;
    DecideReserves(t, w);
    Snoc(s, run, DecideFor(w));
    var run1 := run + [DecideFor(w)];
    Snoc(s, run1, CallStripe(w, answer, Makes(first)));
    run' := run1 + [CallStripe(w, answer, Makes(first))];
    assert ApplyDecide(t, w).workers[w := Answered(n, t.nextToken, answer)] == t.workers[w := Answered(n, t.nextToken, answer)];
  }
}
