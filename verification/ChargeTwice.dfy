/** The two ways to a second charge, each as a run of the protocol. */
module ChargeTwice {
  import opened Wrappers
  import opened ChargeTransactions
  import opened ChargeProtocol
  import opened ChargeInvariants
  import opened ChargeRuns
  import opened ChargeOnce

  // ----- an error that hides a charge

  /** The first call charges the guest, but its answer is lost and the attempt is recorded failed. */
  function LostAnswer(): seq<Event> {
    [SavePaymentMethodFor(0, 1), DecideTiming(0), DecideFor(0),
     CallStripe(0, AnswerApiError, Makes(AnswerSucceeded)), RecordFor(0)]
  }

  /** The guest stores another card, whose setup webhook reserves and charges a second key at once. */
  function SecondCard(): seq<Event> {
    [SavePaymentMethodFor(0, 2), DecideTiming(0), DecideFor(0), CallStripe(0, AnswerSucceeded, Makes(AnswerSucceeded))]
  }

  lemma LostCall() returns (run: seq<Event>)
    ensures run == LostAnswer()[..4] && Initial(FreshBooking(30 * DAY)) && Valid(FreshBooking(30 * DAY), run)
    ensures var s, t := FreshBooking(30 * DAY), Exec(FreshBooking(30 * DAY), run);
            && t.now == 0 && t.nextToken == 1 && t.workers == map[0 := Answered(0, 0, AnswerApiError)]
            && t.rows.booking == SavePaymentMethod(s.rows.booking, 1)
            && t.rows.attempts == [Claimed(Attempt(1, Pending, Sha256(1), None, None), 0, 0)]
            && t.stripe == AfterCall(Stripe(map[], []), Sha256(1), Makes(AnswerSucceeded))
  {
    var s := FreshBooking(30 * DAY);
    var run1 := SaveAndSelect(s, [], 0, 1);
    hide Exec, Valid;
    run := DecideAndCall(s, run1, 0, AnswerApiError, AnswerSucceeded);
    assert run == LostAnswer()[..4];
  }

  lemma LostAnswerState()
    ensures Initial(FreshBooking(30 * DAY)) && Valid(FreshBooking(30 * DAY), LostAnswer())
    ensures var t := Exec(FreshBooking(30 * DAY), LostAnswer());
            && 0 !in t.workers && t.now == 0
            && t.rows.booking == WithNextRetry(WithGracePeriod(SavePaymentMethod(FreshBooking(30 * DAY).rows.booking, 1), 0), 0)
            && |t.rows.attempts| == 1 && Numbered(t.rows.attempts) && t.rows.attempts[0].status == Failed
            && t.stripe == AfterCall(Stripe(map[], []), Sha256(1), Makes(AnswerSucceeded))
  {
    var run := LostCall();
    hide Exec, Valid, Initial;
    Snoc(FreshBooking(30 * DAY), run, RecordFor(0));
    assert run + [RecordFor(0)] == LostAnswer();
  }

  /** The code charges a guest twice when an error answer hides a charge, with every key remembered. */
  lemma LostAnswerChargesTwice()
    ensures Initial(FreshBooking(30 * DAY)) && Valid(FreshBooking(30 * DAY), LostAnswer() + SecondCard())
    ensures var end := Exec(FreshBooking(30 * DAY), LostAnswer() + SecondCard());
            end.stripe.intents == [Intent(Sha256(1), AnswerSucceeded, true), Intent(Sha256(2), AnswerSucceeded, true)]
    ensures Forgotten(LostAnswer() + SecondCard()) == {}
  {
    LostAnswerState();
    hide Exec, Valid;
    var s, run := FreshBooking(30 * DAY), LostAnswer();
    var run1 := SaveAndSelect(s, run, 0, 2);
    var run2 := DecideAndCall(s, run1, 0, AnswerSucceeded, AnswerSucceeded);
    assert run2 == run + SecondCard();
  }

  // ----- a forgotten key that charges again

  /** A long-lead booking whose card is stored, and whose scheduled charge date comes. */
  function ComesDue(): seq<Event> {
    [SavePaymentMethodFor(0, 1), DecideTiming(0), ClearHoldFor(0), Tick(10 * DAY), FindDue(0)]
  }

  /** The sweep charges it by a delayed payment method, which leaves the attempt processing. */
  function LeftProcessing(): seq<Event> {
    [DecideFor(0), CallStripe(0, AnswerProcessing, Makes(AnswerProcessing)), RecordFor(0)]
  }

  /** A day later Stripe has forgotten the key, and the next sweep takes the same attempt up with it. */
  function NextSweep(): seq<Event> {
    [Tick(DAY), KeyForgotten(Sha256(1)), FindDue(0), DecideFor(0),
     CallStripe(0, AnswerProcessing, Makes(AnswerProcessing)), RecordFor(0)]
  }

  function BothSettle(): seq<Event> {
    [Settle(0), Settle(1)]
  }

  lemma DueState() returns (run: seq<Event>)
    ensures run == ComesDue() && Initial(FreshBooking(70 * DAY)) && Valid(FreshBooking(70 * DAY), run)
    ensures var s := FreshBooking(70 * DAY);
            Exec(s, run) == s.(now := 10 * DAY, workers := map[0 := Selected],
                               rows := s.rows.(booking := ClearHold(SavePaymentMethod(s.rows.booking, 1))))
  {
    var s := FreshBooking(70 * DAY);
    run := [SavePaymentMethodFor(0, 1)];
    assert run[1..] == [];
    assert Exec(Apply(s, run[0]), []) == Apply(s, run[0]);
    Snoc(s, run, DecideTiming(0));
    run := run + [DecideTiming(0)];
    Snoc(s, run, ClearHoldFor(0));
    run := run + [ClearHoldFor(0)];
    Snoc(s, run, Tick(10 * DAY));
    run := run + [Tick(10 * DAY)];
    Snoc(s, run, FindDue(0));
    run := run + [FindDue(0)];
  }

  /** In grace, one attempt processing without a lease, and an intent that can still charge. */
  ghost predicate AwaitingSettlement(t: State) {
    var b := t.rows.booking;
    && t.now == 10 * DAY && t.workers == map[]
    && b.status == PendingPayment && MayCharge(b, t.now + DAY)
    && b.scheduledChargeDate == Some(10 * DAY) && b.holdExpires == Some(10 * DAY + GRACE_PERIOD) && b.nextRetry == None
    && |t.rows.attempts| == 1 && Numbered(t.rows.attempts)
    && t.rows.attempts[0].status == Processing && t.rows.attempts[0].lease == None
    && t.stripe == AfterCall(Stripe(map[], []), Sha256(1), Makes(AnswerProcessing))
  }

  lemma ProcessingState() returns (run: seq<Event>)
    ensures run == ComesDue() + LeftProcessing() && Valid(FreshBooking(70 * DAY), run)
    ensures AwaitingSettlement(Exec(FreshBooking(70 * DAY), run))
  {
    var s := FreshBooking(70 * DAY);
    var run1 := DueState();
    hide Exec, Valid;
    var run2 := DecideAndCall(s, run1, 0, AnswerProcessing, AnswerProcessing);
    Snoc(s, run2, RecordFor(0));
    run := run2 + [RecordFor(0)];
    assert run == ComesDue() + LeftProcessing();
  }

  lemma SelectedByNextSweep(s: State, before: seq<Event>) returns (run: seq<Event>)
    requires Valid(s, before) && AwaitingSettlement(Exec(s, before))
    ensures run == before + [Tick(DAY), KeyForgotten(Sha256(1)), FindDue(0)] && Valid(s, run)
    ensures var t := Exec(s, before);
            Exec(s, run) == t.(now := 11 * DAY, workers := map[0 := Selected], stripe := t.stripe.(memory := map[]))
  {
    Snoc(s, before, Tick(DAY));
    run := before + [Tick(DAY)];
    Snoc(s, run, KeyForgotten(Sha256(1)));
    run := run + [KeyForgotten(Sha256(1))];
    Snoc(s, run, FindDue(0));
    run := run + [FindDue(0)];
  }

  lemma SweptAgain(s: State, before: seq<Event>) returns (run: seq<Event>)
    requires Valid(s, before) && AwaitingSettlement(Exec(s, before))
    ensures run == before + NextSweep() && Valid(s, run)
    ensures Exec(s, run).stripe.intents == [Intent(Sha256(1), AnswerProcessing, false), Intent(Sha256(1), AnswerProcessing, false)]
  {
    run := SelectedByNextSweep(s, before);
    hide Exec, Valid;
    Snoc(s, run, DecideFor(0));
    run := run + [DecideFor(0)];
    Snoc(s, run, CallStripe(0, AnswerProcessing, Makes(AnswerProcessing)));
    run := run + [CallStripe(0, AnswerProcessing, Makes(AnswerProcessing))];
    Snoc(s, run, RecordFor(0));
    run := run + [RecordFor(0)];
    assert run == before + NextSweep();
  }

  lemma Settled(s: State, before: seq<Event>) returns (run: seq<Event>)
    requires Valid(s, before)
    requires Exec(s, before).stripe.intents == [Intent(Sha256(1), AnswerProcessing, false), Intent(Sha256(1), AnswerProcessing, false)]
    ensures run == before + BothSettle() && Valid(s, run)
    ensures Exec(s, run).stripe.intents == [Intent(Sha256(1), AnswerProcessing, true), Intent(Sha256(1), AnswerProcessing, true)]
  {
    hide Exec, Valid;
    Snoc(s, before, Settle(0));
    Snoc(s, before + [Settle(0)], Settle(1));
    run := before + [Settle(0)] + [Settle(1)];
  }

  /**
   * The code charges a guest twice, on one attempt and with no error answer, when the daily sweep
   * calls a forgotten key whose intent is still being processed.
   */
  lemma ForgottenKeyChargesTwice()
    ensures var s, run := FreshBooking(70 * DAY), ComesDue() + LeftProcessing() + NextSweep() + BothSettle();
            && Initial(s) && Valid(s, run) && ErrorAnswers(s, run) == {}
            && Exec(s, run).stripe.intents
               == [Intent(Sha256(1), AnswerProcessing, true), Intent(Sha256(1), AnswerProcessing, true)]
  {
    hide Initial, Exec, Valid, ErrorAnswers, FreshBooking;
    var s := FreshBooking(70 * DAY);
    var run0 := DueState();
    var run1 := ProcessingState();
    var run2 := SweptAgain(s, run1);
    var run := Settled(s, run2);
    assert forall e | e in run :: !(e.CallStripe? && e.answer == AnswerApiError);
    NoErrorAnswers(s, run);
  }

  lemma {:induction false} NoErrorAnswers(s: State, run: seq<Event>)
    requires Valid(s, run) && forall e | e in run :: !(e.CallStripe? && e.answer == AnswerApiError)
    ensures ErrorAnswers(s, run) == {}
    decreases |run|
  {
    if run != [] {
      assert run[0] in run && forall e | e in run[1..] :: e in run;
      NoErrorAnswers(Apply(s, run[0]), run[1..]);
    }
  }
}
