/** What a payment does to its booking, and what a recorded answer does, in every run. */
module ChargePayments {
  import opened Wrappers
  import opened ChargeTransactions
  import opened ChargeProtocol
  import opened ChargeInvariants

  /** In every reachable state the webhook's intent names one of the booking's attempts. */
  lemma PaidAttemptExists(start: State, before: seq<Event>, i: nat)
    requires Initial(start) && Valid(start, before) && Enabled(Exec(start, before), PaymentWebhook(i))
    ensures var s := Exec(start, before);
            var key := s.stripe.intents[i].key;
            var n := key.attemptNumber;
            1 <= n <= |s.rows.attempts| && s.rows.attempts[n - 1].key == key
  {
    InitialLog(start);
    RunKeepsLog(start, before);
  }

  /**
   * A payment confirms a pending booking and leaves any other status, and nothing else of the booking
   * changes. Unless the booking was confirmed before, exactly the paid attempt becomes a success.
   */
  lemma PaymentConfirms(s: State, i: nat)
    requires LogInv(s) && Enabled(s, PaymentWebhook(i))
    ensures var t := Apply(s, PaymentWebhook(i));
            var b, attempts := s.rows.booking, s.rows.attempts;
            && t.rows.booking == (if b.status == PendingPayment then b.(status := Confirmed) else b)
            && |t.rows.attempts| == |attempts|
            && (forall k | 0 <= k < |attempts| :: t.rows.attempts[k] ==
                  if b.status != Confirmed && attempts[k].key == s.stripe.intents[i].key
                  then attempts[k].(status := Succeeded) else attempts[k])
            && t == s.(rows := t.rows)
  {}

  // ----- a paid booking

  lemma PaidStep(s: State, e: Event)
    requires Enabled(s, e) && s.rows.booking.status != PendingPayment
    ensures Apply(s, e).rows.booking.status == if e == CancelBooking then Cancelled else s.rows.booking.status
  {}

  lemma {:induction false} PaidRun(s: State, run: seq<Event>)
    requires Valid(s, run) && s.rows.booking.status != PendingPayment
    ensures Exec(s, run).rows.booking.status == if CancelBooking in run then Cancelled else s.rows.booking.status
    decreases |run|
  {
    hide Apply, Enabled;
    if run != [] {
      PaidStep(s, run[0]);
      PaidRun(Apply(s, run[0]), run[1..]);
      assert CancelBooking in run <==> run[0] == CancelBooking || CancelBooking in run[1..];
    }
  }

  /**
   * After a payment, in every further run with whatever webhooks, sweeps and workers: the booking is
   * confirmed unless it was cancelled before the payment or somebody cancels it. No sweep and no
   * discard takes a paid booking away.
   */
  lemma PaidBookingStays(s: State, i: nat, run: seq<Event>)
    requires Enabled(s, PaymentWebhook(i)) && Valid(Apply(s, PaymentWebhook(i)), run)
    ensures Exec(Apply(s, PaymentWebhook(i)), run).rows.booking.status ==
            if s.rows.booking.status == Cancelled || CancelBooking in run then Cancelled else Confirmed
  {
    PaidRun(Apply(s, PaymentWebhook(i)), run);
  }

  ghost predicate ConfirmedIsPaid(s: State) {
    s.rows.booking.status == Confirmed ==> exists i | 0 <= i < |s.stripe.intents| :: s.stripe.intents[i].charged
  }

  lemma StepKeepsPaid(s: State, e: Event)
    requires ConfirmedIsPaid(s) && Enabled(s, e)
    ensures ConfirmedIsPaid(Apply(s, e))
  {
    var t := Apply(s, e);
    if t.rows.booking.status == Confirmed {
      if !e.PaymentWebhook? {
        assert s.rows.booking.status == Confirmed;
      }
      var i :| 0 <= i < |s.stripe.intents| && s.stripe.intents[i].charged;
      assert i < |t.stripe.intents| && t.stripe.intents[i].charged;
    }
  }

  lemma {:induction false} RunKeepsPaid(s: State, run: seq<Event>)
    requires ConfirmedIsPaid(s) && Valid(s, run)
    ensures ConfirmedIsPaid(Exec(s, run))
    decreases |run|
  {
    hide Apply, Enabled, ConfirmedIsPaid;
    if run != [] {
      StepKeepsPaid(s, run[0]);
      RunKeepsPaid(Apply(s, run[0]), run[1..]);
    }
  }

  /** In every run a booking is confirmed only if money has moved on some intent. */
  lemma OnlyPaymentsConfirm(s: State, run: seq<Event>)
    requires Initial(s) && Valid(s, run) && Exec(s, run).rows.booking.status == Confirmed
    ensures exists i | 0 <= i < |Exec(s, run).stripe.intents| :: Exec(s, run).stripe.intents[i].charged
  {
    RunKeepsPaid(s, run);
  }

  // ----- what an answer makes of its attempt and of the booking

  /** The attempt's status for an answer: declined intents and errors fail, a reused key is still under way. */
  predicate Reads(answer: Answer, status: AttemptStatus) {
    && (status == Succeeded <==> answer == AnswerSucceeded)
    && (status == RequiresAction <==> answer == AnswerRequiresAction)
    && (status == Processing <==> answer in {AnswerProcessing, AnswerIdempotencyError})
    && (status == Failed <==> answer in {AnswerDeclined, AnswerApiError})
  }

  /**
   * A worker that still owns its claim writes what Stripe answered and gives the claim up. Every
   * answer but a success starts the 72 hours of a pending booking, once; a failure, and only that,
   * sets its next retry a day ahead. A booking that is not pending is left alone.
   */
  lemma RecordedAnswer(s: State, w: WorkerId)
    requires Enabled(s, RecordFor(w)) && OwnsClaim(s.rows.attempts, s.workers[w].attempt, s.workers[w].token)
    ensures var t := Apply(s, RecordFor(w));
            var id, b, c := s.workers[w].attempt, s.rows.booking, t.rows.booking;
            var waits := b.status == PendingPayment && s.workers[w].answer != AnswerSucceeded;
            && Reads(s.workers[w].answer, t.rows.attempts[id].status)
            && t.rows.attempts == s.rows.attempts[id := s.rows.attempts[id].(status := t.rows.attempts[id].status, claim := None, lease := None)]
            && c.graceStart == (if waits && b.graceStart.None? then Some(s.now) else b.graceStart)
            && c.holdExpires == (if waits && b.graceStart.None? then Some(s.now + 259_200_000) else b.holdExpires)
            && c.nextRetry == (if waits && t.rows.attempts[id].status == Failed then Some(s.now + 86_400_000) else b.nextRetry)
            && c == b.(graceStart := c.graceStart, holdExpires := c.holdExpires, nextRetry := c.nextRetry)
  {}

  /** Without a grace period a pending booking has no answer but successes. */
  ghost predicate AnsweredHasGrace(s: State) {
    s.rows.booking.status == PendingPayment && s.rows.booking.graceStart.None? ==>
      forall i | 0 <= i < |s.rows.attempts| :: s.rows.attempts[i].status in {Pending, Succeeded}
  }

  lemma StepKeepsGrace(s: State, e: Event)
    requires AnsweredHasGrace(s) && Enabled(s, e)
    ensures AnsweredHasGrace(Apply(s, e))
  {}

  lemma {:induction false} RunKeepsGrace(s: State, run: seq<Event>)
    requires AnsweredHasGrace(s) && Valid(s, run)
    ensures AnsweredHasGrace(Exec(s, run))
    decreases |run|
  {
    hide Apply, Enabled, AnsweredHasGrace;
    if run != [] {
      StepKeepsGrace(s, run[0]);
      RunKeepsGrace(Apply(s, run[0]), run[1..]);
    }
  }

  /** In every run, a pending booking with an answer that was not a success is in its grace period. */
  lemma AnsweredWaitsInGrace(s: State, run: seq<Event>, i: nat)
    requires Initial(s) && Valid(s, run)
    requires var end := Exec(s, run).rows;
             && end.booking.status == PendingPayment && i < |end.attempts|
             && end.attempts[i].status !in {Pending, Succeeded}
    ensures Exec(s, run).rows.booking.graceStart.Some?
  {
    RunKeepsGrace(s, run);
  }
}
