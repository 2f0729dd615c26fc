/** The grace deadline is set once, and when exactly the setup webhook moves it. */
module ChargeGrace {
  import opened Wrappers
  import opened ChargeTransactions
  import opened ChargeProtocol
  import opened ChargeInvariants
  import opened ChargeRuns

  /** Charge timing at this instant; it never turns back once it is immediate. */
  predicate Immediate(s: State) {
    DecideChargeTiming(s.rows.booking.checkIn, s.now).immediate
  }

  ghost predicate ChargingBegan(s: State) {
    || s.rows.attempts != []
    || s.rows.booking.graceStart.Some?
    || (exists w | w in s.workers :: s.workers[w] == Selected || TokenOf(s.workers[w]).Some?)
  }

  ghost predicate DeadlineSet(b: Booking, start: Time) {
    b.graceStart == Some(start) && b.holdExpires == Some(start + GRACE_PERIOD)
  }

  /** A charge runs only when immediate or due, and a grace period has its own 72-hour hold. */
  ghost predicate TimingInv(s: State) {
    var b := s.rows.booking;
    && (b.scheduledChargeDate.Some? ==> b.checkIn == b.scheduledChargeDate.value + 60 * DAY)
    && (ChargingBegan(s) ==> Immediate(s))
    && (b.graceStart.Some? ==> DeadlineSet(b, b.graceStart.value))
  }

  /** The setup webhook clears the hold while the timing that it read still stands. */
  ghost predicate Punctual(s: State, e: Event) {
    e.ClearHoldFor? ==> !Immediate(s)
  }

  ghost predicate PunctualRun(s: State, run: seq<Event>)
    requires Valid(s, run)
    decreases |run|
  {
    run == [] || (Punctual(s, run[0]) && PunctualRun(Apply(s, run[0]), run[1..]))
  }

  lemma StepKeepsTiming(s: State, e: Event)
    requires TimingInv(s) && Enabled(s, e) && Punctual(s, e)
    ensures TimingInv(Apply(s, e))
  {
    ChargingBeginsWith(s, e);
    hide ChargingBegan;
  }

  /** Charging begins only when a webhook or the sweep selects the booking. */
  lemma ChargingBeginsWith(s: State, e: Event)
    requires Enabled(s, e)
    ensures ChargingBegan(Apply(s, e)) ==> ChargingBegan(s) || e.DecideTiming? || e.FindDue?
  {}

  /**
   * Once a grace period has started, its start and its deadline 72 hours later never change, in
   * any punctual run: retries, timeouts and further webhooks leave both alone.
   */
  lemma {:induction false} GraceDeadlineIsFixed(s: State, run: seq<Event>)
    requires TimingInv(s) && Valid(s, run) && PunctualRun(s, run)
    ensures TimingInv(Exec(s, run))
    ensures s.rows.booking.graceStart.Some? ==>
              DeadlineSet(Exec(s, run).rows.booking, s.rows.booking.graceStart.value)
    decreases |run|
  {
    if run != [] {
      StepKeepsTiming(s, run[0]);
      GraceDeadlineIsFixed(Apply(s, run[0]), run[1..]);
    }
  }

  lemma InitialTiming(s: State)
    requires Initial(s)
    ensures TimingInv(s)
  {}

  /**
   * In every punctual run of a fresh booking: charging has begun only if its timing is immediate,
   * and a grace period has the deadline 72 hours after its start.
   */
  lemma GraceHasItsDeadline(s: State, run: seq<Event>)
    requires Initial(s) && Valid(s, run) && PunctualRun(s, run)
    ensures TimingInv(Exec(s, run))
  {
    InitialTiming(s);
    GraceDeadlineIsFixed(s, run);
  }

  /** The one step that moves an established deadline: clearing the hold of a pending booking. */
  lemma DeadlineMovesIff(s: State, e: Event, start: Time)
    requires DeadlineSet(s.rows.booking, start) && Enabled(s, e)
    ensures !DeadlineSet(Apply(s, e).rows.booking, start)
       <==> e.ClearHoldFor? && s.rows.booking.status == PendingPayment
  {}

  /** The deadline stands in every state of the run. */
  ghost predicate StandsThroughout(s: State, run: seq<Event>, start: Time)
    requires Valid(s, run)
    decreases |run|
  {
    DeadlineSet(s.rows.booking, start) && (run == [] || StandsThroughout(Apply(s, run[0]), run[1..], start))
  }

  /** No step of the run clears the hold of a booking that is still pending. */
  ghost predicate HoldLeftAlone(s: State, run: seq<Event>)
    requires Valid(s, run)
    decreases |run|
  {
    run == [] || (!(run[0].ClearHoldFor? && s.rows.booking.status == PendingPayment) && HoldLeftAlone(Apply(s, run[0]), run[1..]))
  }

  /** For every run at all: the deadline stands throughout exactly when no setup webhook clears the hold. */
  lemma {:induction false} DeadlineStandsIff(s: State, run: seq<Event>, start: Time)
    requires DeadlineSet(s.rows.booking, start) && Valid(s, run)
    ensures StandsThroughout(s, run, start) <==> HoldLeftAlone(s, run)
    decreases |run|
  {
    if run != [] {
      DeadlineMovesIff(s, run[0], start);
      hide Apply, Enabled, DeadlineSet;
      if DeadlineSet(Apply(s, run[0]).rows.booking, start) {
        DeadlineStandsIff(Apply(s, run[0]), run[1..], start);
      }
    }
  }

  /** Past the 72 hours of its grace period, whether the deadline still stands or was cleared. */
  ghost predicate PastGrace(s: State, start: Time) {
    && s.rows.booking.graceStart == Some(start) && start + GRACE_PERIOD <= s.now
    && (s.rows.booking.holdExpires == None || s.rows.booking.holdExpires == Some(start + GRACE_PERIOD))
  }

  /** After the deadline no attempt is reserved or claimed again, in any run. */
  lemma {:induction false} NoAttemptAfterDeadline(s: State, run: seq<Event>, start: Time)
    requires PastGrace(s, start) && Valid(s, run)
    ensures PastGrace(Exec(s, run), start)
    ensures |Exec(s, run).rows.attempts| == |s.rows.attempts|
    ensures forall w | w in Exec(s, run).workers && Exec(s, run).workers[w].Reserved? ::
              w in s.workers && s.workers[w] == Exec(s, run).workers[w]
    decreases |run|
  {
    if run != [] {
      NoAttemptAfterDeadline(Apply(s, run[0]), run[1..], start);
    }
  }

  // ----- a late clearing does move it

  /**
   * Two deliveries of the setup webhook at the edge of 61 days: the first defers, the second, one
   * millisecond later, is immediate, and its charge is declined before the first clears the hold.
   */
  function LateClearing(): seq<Event> {
    [SavePaymentMethodFor(0, 1), DecideTiming(0), Tick(1),
     SavePaymentMethodFor(1, 1), DecideTiming(1), DecideFor(1),
     CallStripe(1, AnswerDeclined, Makes(AnswerDeclined)), RecordFor(1)]
  }

  /** A pending booking in a grace period that has lost its deadline. */
  predicate Stranded(b: Booking) {
    b.status == PendingPayment && b.graceStart.Some? && b.holdExpires.None?
  }

  lemma FirstDeliveryDefers(s: State) returns (run: seq<Event>)
    requires s == FreshBooking(61 * DAY)
    ensures run == [SavePaymentMethodFor(0, 1), DecideTiming(0), Tick(1)] && Valid(s, run)
    ensures Exec(s, run) == s.(now := 1, workers := map[0 := Deferring],
                               rows := s.rows.(booking := SavePaymentMethod(s.rows.booking, 1)))
  {
    run := [SavePaymentMethodFor(0, 1)];
    assert run[1..] == [];
    assert Exec(Apply(s, run[0]), []) == Apply(s, run[0]);
    Snoc(s, run, DecideTiming(0));
    var run2 := run + [DecideTiming(0)];
    Snoc(s, run2, Tick(1));
    run := run2 + [Tick(1)];
  }

  lemma SecondDeliveryFails(s: State, first: seq<Event>) returns (run: seq<Event>)
    requires s == FreshBooking(61 * DAY) && Valid(s, first)
    requires Exec(s, first) == s.(now := 1, workers := map[0 := Deferring],
                                  rows := s.rows.(booking := SavePaymentMethod(s.rows.booking, 1)))
    ensures run == first + [SavePaymentMethodFor(1, 1), DecideTiming(1), DecideFor(1),
                            CallStripe(1, AnswerDeclined, Makes(AnswerDeclined)), RecordFor(1)]
    ensures Valid(s, run) && At(Exec(s, run), 0, Deferring)
    ensures DeadlineSet(Exec(s, run).rows.booking, 1) && Exec(s, run).rows.booking.status == PendingPayment
  {
    var run1 := SaveAndSelect(s, first, 1, 1);
    hide Exec, Valid;
    var run2 := DecideAndCall(s, run1, 1, AnswerDeclined, AnswerDeclined);
    Snoc(s, run2, RecordFor(1));
    run := run2 + [RecordFor(1)];
  }

  /** When the hold is cleared late, an established deadline is lost. */
  lemma LateClearingLosesDeadline()
    ensures var s := FreshBooking(61 * DAY);
            && Initial(s) && Valid(s, LateClearing()) && Valid(s, LateClearing() + [ClearHoldFor(0)])
            && DeadlineSet(Exec(s, LateClearing()).rows.booking, 1)
            && Stranded(Exec(s, LateClearing() + [ClearHoldFor(0)]).rows.booking)
  {
    var s := FreshBooking(61 * DAY);
    var first := FirstDeliveryDefers(s);
    var run := SecondDeliveryFails(s, first);
    assert run == LateClearing();
    Snoc(s, run, ClearHoldFor(0));
  }

  /** What ends a stranded booking: only money that moved after all, or somebody cancelling it. */
  predicate EndsStranding(e: Event) {
    e.PaymentWebhook? || e.CancelBooking? || e.DiscardBooking?
  }

  ghost predicate NothingEndsStranding(run: seq<Event>) {
    forall e | e in run :: !EndsStranding(e)
  }

  /** The sweep never expires a stranded booking and no further attempt is reserved for it. */
  lemma {:induction false} StrandedForever(s: State, run: seq<Event>)
    requires Stranded(s.rows.booking) && Valid(s, run) && NothingEndsStranding(run)
    ensures Stranded(Exec(s, run).rows.booking)
    ensures |Exec(s, run).rows.attempts| == |s.rows.attempts|
    decreases |run|
  {
    if run != [] {
      assert run[0] in run;
      StrandedForever(Apply(s, run[0]), run[1..]);
    }
  }
}
