/** Which bookings the sweeps and the guest's discard take, and that what the sweep selects can be charged. */
module ChargeHolds {
  import opened Wrappers
  import opened ChargeTransactions
  import opened ChargeProtocol
  import opened ChargeInvariants

  // ----- the checkout hold

  /** The guest gives up, or somebody gives up for them. */
  predicate GivesUp(e: Event) {
    e == CancelBooking || e == DiscardBooking
  }

  /** A hold that is there ends 15 minutes after the booking was made, or later. */
  ghost predicate HoldFrom(s: State, made: Time) {
    && s.now >= made
    && (s.rows.booking.holdExpires.Some? ==> s.rows.booking.holdExpires.value >= made + 900_000)
  }

  lemma StepKeepsHold(s: State, e: Event, made: Time)
    requires HoldFrom(s, made) && Enabled(s, e)
    ensures HoldFrom(Apply(s, e), made)
    ensures Apply(s, e).now < made + 900_000 && !GivesUp(e) && s.rows.booking.status != Cancelled ==>
              Apply(s, e).rows.booking.status != Cancelled
  {}

  lemma StepKeepsTime(s: State, e: Event)
    requires Enabled(s, e)
    ensures s.now <= Apply(s, e).now
  {}

  lemma {:induction false} TimeGoesOn(s: State, run: seq<Event>)
    requires Valid(s, run)
    ensures s.now <= Exec(s, run).now
    decreases |run|
  {
    hide Apply, Enabled;
    if run != [] {
      StepKeepsTime(s, run[0]);
      TimeGoesOn(Apply(s, run[0]), run[1..]);
    }
  }

  lemma {:induction false} HeldRun(s: State, run: seq<Event>, made: Time)
    requires HoldFrom(s, made) && Valid(s, run) && s.rows.booking.status != Cancelled
    requires Exec(s, run).now < made + 900_000 && forall e | e in run :: !GivesUp(e)
    ensures Exec(s, run).rows.booking.status != Cancelled
    decreases |run|
  {
    hide Apply, Enabled, HoldFrom, GivesUp;
    if run != [] {
      assert run[0] in run && forall e | e in run[1..] :: e in run;
      StepKeepsHold(s, run[0], made);
      TimeGoesOn(Apply(s, run[0]), run[1..]);
      HeldRun(Apply(s, run[0]), run[1..], made);
    }
  }

  /** For 15 minutes no sweep takes a new booking away, whatever webhooks and workers do. */
  lemma HoldIsHonoured(s: State, run: seq<Event>)
    requires Initial(s) && Valid(s, run) && forall e | e in run :: !GivesUp(e)
    requires Exec(s, run).now < s.now + 900_000
    ensures Exec(s, run).rows.booking.status != Cancelled
  {
    HeldRun(s, run, s.now);
  }

  /** Nobody has entered a payment method: nothing but selecting and refusing has happened. */
  ghost predicate Abandoned(s: State, hold: Time) {
    && s.rows.booking.paymentMethod == None && s.rows.booking.graceStart == None
    && s.rows.attempts == [] && s.stripe.intents == []
    && (forall w | w in s.workers :: s.workers[w] == Selected)
    && (s.rows.booking.status == PendingPayment ==> s.rows.booking.holdExpires == Some(hold))
  }

  lemma StepKeepsAbandoned(s: State, e: Event, hold: Time)
    requires Abandoned(s, hold) && Enabled(s, e) && !e.SavePaymentMethodFor?
    ensures Abandoned(Apply(s, e), hold) && Apply(s, e).rows.booking.status in {s.rows.booking.status, Cancelled}
  {}

  lemma {:induction false} AbandonedRun(s: State, run: seq<Event>, hold: Time)
    requires Abandoned(s, hold) && Valid(s, run) && forall e | e in run :: !e.SavePaymentMethodFor?
    requires s.rows.booking.status != Confirmed
    ensures Abandoned(Exec(s, run), hold) && Exec(s, run).rows.booking.status != Confirmed
    decreases |run|
  {
    hide Apply, Enabled, Abandoned;
    if run != [] {
      assert run[0] in run && forall e | e in run[1..] :: e in run;
      StepKeepsAbandoned(s, run[0], hold);
      AbandonedRun(Apply(s, run[0]), run[1..], hold);
    }
  }

  /**
   * A checkout without a payment method never gets an attempt, and from 15 minutes on the first sweep
   * gives it up, if nobody has before.
   */
  lemma AbandonedIsReleased(s: State, run: seq<Event>)
    requires Initial(s) && Valid(s, run) && forall e | e in run :: !e.SavePaymentMethodFor?
    requires Exec(s, run).now >= s.now + 900_000
    ensures var end := Exec(s, run);
            end.rows.attempts == [] && Apply(end, ExpirySweep).rows.booking.status == Cancelled
  {
    AbandonedRun(s, run, s.now + 900_000);
  }

  /**
   * A sweep cancels exactly the pending bookings with a hold that is not later than now, and a discard
   * exactly the pending ones without a successful attempt, which also clears their retry time. Neither
   * changes anything else.
   */
  lemma GivenUpIff(s: State)
    ensures var b := s.rows.booking;
            var swept, discarded := Apply(s, ExpirySweep), Apply(s, DiscardBooking);
            && (swept == s <==> !(b.status == PendingPayment && b.holdExpires.Some? && b.holdExpires.value <= s.now))
            && (swept == s || swept == s.(rows := s.rows.(booking := b.(status := Cancelled))))
            && (discarded == s <==> b.status != PendingPayment || exists i | 0 <= i < |s.rows.attempts| :: s.rows.attempts[i].status == Succeeded)
            && (discarded == s || discarded == s.(rows := s.rows.(booking := b.(status := Cancelled, nextRetry := None))))
  {}

  // ----- what the sweep selects

  /** The latest attempt allows another call: none, a failure, or one that nobody works on and no customer has to act on. */
  predicate Callable(attempts: seq<Attempt>, now: Time) {
    attempts == [] ||
    var last := attempts[|attempts| - 1];
    last.status == Failed || (last.status in {Pending, Processing} && !(last.lease.Some? && now < last.lease.value))
  }

  /**
   * The query of the charging sweep and the decision agree. Whatever is selected is pending and its charge
   * date has come, and a decision at the same moment calls Stripe exactly if the property has its taxes, the
   * guest a customer and a method, and the latest attempt allows it: no retry time, no deadline and no success
   * stands in the way, since the query has looked at them.
   */
  lemma SelectedIsCharged(s: State, w: WorkerId)
    requires LogInv(s) && Enabled(s, FindDue(w))
    ensures var b := s.rows.booking;
            && b.status == PendingPayment && b.scheduledChargeDate.Some? && b.scheduledChargeDate.value <= s.now
            && (b.nextRetry.Some? ==> b.nextRetry.value <= s.now)
            && var t := ApplyDecide(Apply(s, FindDue(w)), w);
               w in t.workers <==> b.taxConfigured && b.hasCustomer && b.paymentMethod.Some? && Callable(s.rows.attempts, s.now)
  {
    if s.rows.attempts != [] {
      LatestIsLast(s.rows.attempts);
    }
  }

  /**
   * Nothing that can be charged is passed over: a pending new-flow booking is selected from its charge date on
   * exactly if it has no success, its retry time has come, and its deadline, once it has one, has not.
   */
  lemma SelectedIff(s: State, w: WorkerId)
    requires w !in s.workers && s.rows.booking.newFlow && s.rows.booking.status == PendingPayment
    requires s.rows.booking.scheduledChargeDate.Some? && s.rows.booking.scheduledChargeDate.value <= s.now
    ensures var b := s.rows.booking;
            Enabled(s, FindDue(w)) <==>
              && (forall i | 0 <= i < |s.rows.attempts| :: s.rows.attempts[i].status != Succeeded)
              && !(b.nextRetry.Some? && s.now < b.nextRetry.value)
              && !(b.graceStart.Some? && (b.holdExpires.None? || b.holdExpires.value <= s.now))
  {}

  /**
   * A claim stands for two minutes: until then every other worker's decision refuses, and from then on it
   * takes the same attempt over under the same key, as long as the booking may be charged at all.
   */
  lemma LeaseLastsTwoMinutes(rows: Rows, claimedAt: Time, later: Time, token: Token, other: Token)
    requires Numbered(rows.attempts) && claimedAt <= later && Decide(rows, claimedAt, token).1.Charge?
    ensures var (claimed, decision) := Decide(rows, claimedAt, token);
            && (later < claimedAt + 120_000 ==> Decide(claimed, later, other) == (claimed, Refuse))
            && (later >= claimedAt + 120_000 && MayCharge(claimed.booking, later) ==>
                  Decide(claimed, later, other).1 == Charge(decision.attempt, decision.key, other))
  {
    var claimed := Decide(rows, claimedAt, token).0;
    if rows.attempts != [] {
      LatestIsLast(rows.attempts);
    }
    assert Numbered(claimed.attempts);
    LatestIsLast(claimed.attempts);
    hide Numbered, LatestIndex, MaxNumber;
  }

  /**
   * A worker that crashes after its claim, whatever it has done at Stripe, is made good two minutes later: any
   * decision then calls Stripe again for the same attempt, under the same key.
   */
  lemma CrashIsMadeGood(s: State, w: WorkerId, elapsed: nat)
    requires LogInv(s) && At(s, w, Selected) && w in ApplyDecide(s, w).workers && elapsed >= 120_000
    requires MayCharge(s.rows.booking, s.now + elapsed)
    ensures var claimed := ApplyDecide(s, w);
            var later := Apply(Apply(claimed, Crash(w)), Tick(elapsed));
            && w !in later.workers && later.rows == claimed.rows
            && Decide(later.rows, later.now, later.nextToken).1 ==
               Charge(claimed.workers[w].attempt, claimed.workers[w].key, later.nextToken)
  {
    var claimed := ApplyDecide(s, w);
    ClaimIs(s, w);
    CrashThenTick(claimed, w, elapsed);
    LeaseLastsTwoMinutes(s.rows, s.now, s.now + elapsed, s.nextToken, claimed.nextToken);
    DecideLeavesBooking(s.rows, s.now, s.nextToken);
    assert Numbered(s.rows.attempts);
    hide Decide, LogInv, MayCharge, ApplyDecide, Apply;
  }

  lemma ClaimIs(s: State, w: WorkerId)
    requires At(s, w, Selected) && w in ApplyDecide(s, w).workers
    ensures var (rows, decision) := Decide(s.rows, s.now, s.nextToken);
            && decision.Charge? && ApplyDecide(s, w).rows == rows && ApplyDecide(s, w).now == s.now
            && ApplyDecide(s, w).workers[w] == Reserved(decision.attempt, decision.key, decision.token, s.now + EXECUTION_LEASE)
  {
    hide Decide;
  }

  lemma CrashThenTick(s: State, w: WorkerId, elapsed: nat)
    requires w in s.workers
    ensures var later := Apply(Apply(s, Crash(w)), Tick(elapsed));
            w !in later.workers && later.rows == s.rows && later.now == s.now + elapsed && later.nextToken == s.nextToken
  {}

  lemma StepKeepsTerms(s: State, e: Event)
    requires Enabled(s, e)
    ensures var b, c := s.rows.booking, Apply(s, e).rows.booking;
            && (c.hasCustomer <==> b.hasCustomer || e == CreateSetupIntent)
            && c.paymentMethod == (if e.SavePaymentMethodFor? then Some(e.card) else b.paymentMethod)
            && c.checkIn == b.checkIn && c.newFlow == b.newFlow && c.taxConfigured == b.taxConfigured
            && c.scheduledChargeDate == b.scheduledChargeDate
  {
    hide Decide, Record;
    if e.DecideFor? {
      DecideLeavesBooking(s.rows, s.now, s.nextToken);
    } else if e.RecordFor? {
      var c := s.workers[e.worker];
      RecordLeavesTerms(s.rows, s.now, c.attempt, c.token, OutcomeOf(c.answer));
    }
  }

  lemma RecordLeavesTerms(rows: Rows, now: Time, id: nat, token: Token, outcome: AttemptStatus)
    ensures var c := Record(rows, now, id, token, outcome).0.booking;
            c == rows.booking.(graceStart := c.graceStart, holdExpires := c.holdExpires, nextRetry := c.nextRetry)
  {}

  lemma DecideLeavesBooking(rows: Rows, now: Time, token: Token)
    ensures Decide(rows, now, token).0.booking == rows.booking
  {}

  /** A guest has a customer once a setup intent was made, and a method once one was saved; dates and terms never change. */
  lemma {:induction false} TermsOverRuns(s: State, run: seq<Event>)
    requires Valid(s, run)
    ensures var b, c := s.rows.booking, Exec(s, run).rows.booking;
            && (c.hasCustomer <==> b.hasCustomer || CreateSetupIntent in run)
            && (c.paymentMethod.Some? <==> b.paymentMethod.Some? || exists e | e in run :: e.SavePaymentMethodFor?)
            && c.checkIn == b.checkIn && c.newFlow == b.newFlow && c.taxConfigured == b.taxConfigured
            && c.scheduledChargeDate == b.scheduledChargeDate
    decreases |run|
  {
    hide Apply, Enabled;
    if run != [] {
      StepKeepsTerms(s, run[0]);
      TermsOverRuns(Apply(s, run[0]), run[1..]);
      assert run == [run[0]] + run[1..];
    }
  }

  /** The worker reports what it has recorded, but for an error answer, which it reports as such. */
  lemma ReportedIsRecorded(rows: Rows, now: Time, id: nat, token: Token, answer: Answer)
    requires Record(rows, now, id, token, OutcomeOf(answer)).1
    ensures var after := Record(rows, now, id, token, OutcomeOf(answer)).0;
            Reported(answer) == if answer == AnswerApiError then ApiError else AsRecorded(after.attempts[id].status)
  {}
}
