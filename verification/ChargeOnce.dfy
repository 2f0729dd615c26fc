/**
 * How often a guest is charged: once, unless an error answer hides a charge or Stripe has
 * forgotten the key of an intent that can charge.
 */
module ChargeOnce {
  import opened Wrappers
  import opened ChargeTransactions
  import opened ChargeProtocol
  import opened ChargeInvariants

  // ----- what Stripe's intents can do

  /** Money has moved on this intent or can still move: it was not declined. */
  predicate Chargeable(intent: Intent) {
    intent.first != AnswerDeclined
  }

  /** Two intents that each charge or can charge, the first with the same or the smaller attempt number. */
  predicate BothChargeable(stripe: Stripe, i: nat, j: nat)
    requires i < |stripe.intents| && j < |stripe.intents|
  {
    && i != j && Chargeable(stripe.intents[i]) && Chargeable(stripe.intents[j])
    && stripe.intents[i].key.attemptNumber <= stripe.intents[j].key.attemptNumber
  }

  ghost predicate TwoChargeable(stripe: Stripe) {
    exists i, j | 0 <= i < j < |stripe.intents| :: Chargeable(stripe.intents[i]) && Chargeable(stripe.intents[j])
  }

  ghost predicate TwoCharged(stripe: Stripe) {
    exists i, j | 0 <= i < j < |stripe.intents| :: stripe.intents[i].charged && stripe.intents[j].charged
  }

  predicate Declined(stripe: Stripe, key: Key) {
    exists i | 0 <= i < |stripe.intents| :: stripe.intents[i].key == key && stripe.intents[i].first == AnswerDeclined
  }

  predicate MadeTwice(stripe: Stripe, key: Key) {
    exists i, j | 0 <= i < j < |stripe.intents| :: stripe.intents[i].key == key && stripe.intents[j].key == key
  }

  /** A decline is Stripe's word that an intent never charges, and a success that it has. */
  ghost predicate AnswersTrue(s: State) {
    && (forall w | w in s.workers && s.workers[w].Answered? && s.workers[w].answer == AnswerDeclined ::
          Declined(s.stripe, Sha256(s.workers[w].attempt + 1)))
    && (forall i | 0 <= i < |s.stripe.intents| ::
          var intent := s.stripe.intents[i];
          && !IsError(intent.first)
          && (intent.first == AnswerDeclined ==> !intent.charged)
          && (intent.first == AnswerSucceeded ==> intent.charged))
  }

  /** Intents stay, with their keys and first answers. */
  lemma IntentsStay(s: State, e: Event)
    requires Enabled(s, e)
    ensures var before, after := s.stripe.intents, Apply(s, e).stripe.intents;
            && |before| <= |after|
            && (forall i | 0 <= i < |before| :: after[i].key == before[i].key && after[i].first == before[i].first
                                               && (before[i].charged ==> after[i].charged))
            && (|before| < |after| ==>
                  e.CallStripe? && e.effect.Makes? && |after| == |before| + 1
                  && after[|before|] == Intent(s.workers[e.worker].key, e.effect.first, e.effect.first == AnswerSucceeded))
            && (!(e.CallStripe? && e.effect.Makes?) ==> |after| == |before|)
  {}

  lemma DeclinedForever(s: State, e: Event, key: Key)
    requires Enabled(s, e) && Declined(s.stripe, key)
    ensures Declined(Apply(s, e).stripe, key)
  {
    IntentsStay(s, e);
    var i :| 0 <= i < |s.stripe.intents| && s.stripe.intents[i].key == key && s.stripe.intents[i].first == AnswerDeclined;
    assert Apply(s, e).stripe.intents[i].key == key;
  }

  /** The worker that hears a decline hears it of an intent of its own key. */
  lemma DeclineHeard(s: State, e: Event)
    requires KeysReserved(s) && Enabled(s, e) && e.CallStripe? && e.answer == AnswerDeclined
    ensures Declined(Apply(s, e).stripe, s.workers[e.worker].key)
  {
    var key, intents := s.workers[e.worker].key, Apply(s, e).stripe.intents;
    var i := if e.effect.Makes? then |s.stripe.intents| else s.stripe.memory[key].intent;
    assert intents[i].key == key && intents[i].first == AnswerDeclined;
  }

  lemma StepKeepsAnswers(s: State, e: Event)
    requires LogInv(s) && AnswersTrue(s) && Enabled(s, e)
    ensures AnswersTrue(Apply(s, e))
  {
    var t := Apply(s, e);
    if e.CallStripe? {
      assert Holds(s, e.worker, s.workers[e.worker].token) && ClaimOk(s, e.worker, s.workers[e.worker].token);
      if e.answer == AnswerDeclined {
        DeclineHeard(s, e);
      }
    }
    hide LogInv, Declined;
    IntentsStay(s, e);
    forall w | w in t.workers && t.workers[w].Answered? && t.workers[w].answer == AnswerDeclined
      ensures Declined(t.stripe, Sha256(t.workers[w].attempt + 1))
    {
      if !(e.CallStripe? && e.worker == w) {
        DeclinedForever(s, e, Sha256(s.workers[w].attempt + 1));
      }
    }
  }

  // ----- why an attempt was given up

  /** An intent of this attempt was declined, or the attempt was recorded failed because of an error answer. */
  ghost predicate Explained(s: State, errors: set<Key>, id: nat) {
    Declined(s.stripe, Sha256(id + 1)) || Sha256(id + 1) in errors
  }

  /**
   * Every attempt that was ever recorded failed, and every attempt before the last, is explained;
   * `errors` are the keys recorded failed on error answers so far.
   */
  ghost predicate FailuresExplained(s: State, errors: set<Key>) {
    && (forall i | 0 <= i < |s.rows.attempts| && s.rows.attempts[i].status == Failed :: Explained(s, errors, i))
    && (forall i | 0 <= i < |s.rows.attempts| - 1 :: Explained(s, errors, i))
    && (forall i | 0 <= i < |s.outcomes| && s.outcomes[i].status == Failed :: Explained(s, errors, s.outcomes[i].attempt))
  }

  /** The recorded failures include every failure by an error. */
  ghost predicate ErrorsRecorded(s: State, errors: set<Key>) {
    forall key | key in errors ::
      exists i | 0 <= i < |s.outcomes| :: s.outcomes[i].status == Failed && key == Sha256(s.outcomes[i].attempt + 1)
  }

  lemma ExplainedForever(s: State, e: Event, errors: set<Key>, id: nat)
    requires Enabled(s, e) && Explained(s, errors, id)
    ensures Explained(Apply(s, e), errors + FailedByError(s, e), id)
  {
    if Sha256(id + 1) !in errors {
      DeclinedForever(s, e, Sha256(id + 1));
    }
  }

  /** The decision appends an attempt only behind one that is recorded failed. */
  lemma DecisionExplained(s: State, w: WorkerId, errors: set<Key>)
    requires LogInv(s) && FailuresExplained(s, errors) && At(s, w, Selected)
    ensures FailuresExplained(ApplyDecide(s, w), errors)
  {
    hide Claims, KeysReserved;
    var attempts := s.rows.attempts;
    if attempts != [] {
      LatestIsLast(attempts);
    }
    hide LogInv, Explained;
    UntouchedStripe(s, ApplyDecide(s, w), errors);
  }

  lemma UntouchedStripe(s: State, t: State, errors: set<Key>)
    requires t.stripe == s.stripe
    ensures forall id: nat :: Explained(s, errors, id) <==> Explained(t, errors, id)
  {}

  /** A failure is recorded after a decline, or it is one by an error. */
  lemma RecordExplained(s: State, w: WorkerId, errors: set<Key>)
    requires FailuresExplained(s, errors) && AnswersTrue(s) && Enabled(s, RecordFor(w))
    ensures FailuresExplained(ApplyRecord(s, w), errors + FailedByError(s, RecordFor(w)))
  {
    var t, all := ApplyRecord(s, w), errors + FailedByError(s, RecordFor(w));
    var c := s.workers[w];
    hide Declined;
    if OwnsClaim(s.rows.attempts, c.attempt, c.token) && OutcomeOf(c.answer) == Failed {
      assert c.answer == AnswerDeclined || c.answer == AnswerApiError;
      assert Explained(t, all, c.attempt);
    }
    forall id: nat | Explained(s, errors, id) ensures Explained(t, all, id) {
      ExplainedForever(s, RecordFor(w), errors, id);
    }
    hide Explained;
  }

  lemma OtherExplained(s: State, e: Event, errors: set<Key>)
    requires FailuresExplained(s, errors) && Enabled(s, e) && !e.DecideFor? && !e.RecordFor?
    ensures FailuresExplained(Apply(s, e), errors)
  {
    assert FailedByError(s, e) == {} && errors + {} == errors;
    forall id: nat | Explained(s, errors, id) ensures Explained(Apply(s, e), errors, id) {
      ExplainedForever(s, e, errors, id);
    }
    hide Explained;
  }

  lemma StepExplained(s: State, e: Event, errors: set<Key>)
    requires LogInv(s) && FailuresExplained(s, errors) && AnswersTrue(s) && Enabled(s, e)
    ensures FailuresExplained(Apply(s, e), errors + FailedByError(s, e))
  {
    hide LogInv, FailuresExplained, AnswersTrue, ApplyDecide, ApplyRecord;
    assert !e.RecordFor? ==> FailedByError(s, e) == {} && errors + FailedByError(s, e) == errors;
    match e
    case DecideFor(w) => DecisionExplained(s, w, errors);
    case RecordFor(w) => RecordExplained(s, w, errors);
    case _ => OtherExplained(s, e, errors);
  }

  lemma StepRecordsErrors(s: State, e: Event, errors: set<Key>)
    requires ErrorsRecorded(s, errors) && Enabled(s, e)
    ensures ErrorsRecorded(Apply(s, e), errors + FailedByError(s, e))
  {
    var t, n := Apply(s, e), |s.outcomes|;
    forall key | key in errors + FailedByError(s, e)
      ensures exists i | 0 <= i < |t.outcomes| :: t.outcomes[i].status == Failed && key == Sha256(t.outcomes[i].attempt + 1)
    {
      if key in errors {
        var i :| 0 <= i < n && s.outcomes[i].status == Failed && key == Sha256(s.outcomes[i].attempt + 1);
        assert t.outcomes[i] == s.outcomes[i];
      } else {
        assert t.outcomes[n].status == Failed && key == Sha256(t.outcomes[n].attempt + 1);
      }
    }
  }

  lemma {:induction false} RunExplained(s: State, run: seq<Event>, errors: set<Key>)
    requires LogInv(s) && FailuresExplained(s, errors) && AnswersTrue(s) && ErrorsRecorded(s, errors) && Valid(s, run)
    ensures var end, all := Exec(s, run), errors + ErrorFailures(s, run);
            LogInv(end) && FailuresExplained(end, all) && AnswersTrue(end) && ErrorsRecorded(end, all)
    decreases |run|
  {
    if run == [] {
      assert errors + {} == errors;
    } else {
      hide LogInv, FailuresExplained, AnswersTrue, ErrorsRecorded, FailedByError, Apply, Enabled;
      StepKeepsLog(s, run[0]);
      StepKeepsAnswers(s, run[0]);
      StepExplained(s, run[0], errors);
      StepRecordsErrors(s, run[0], errors);
      RunExplained(Apply(s, run[0]), run[1..], errors + FailedByError(s, run[0]));
      assert errors + FailedByError(s, run[0]) + ErrorFailures(Apply(s, run[0]), run[1..]) == errors + ErrorFailures(s, run);
    }
  }

  lemma FromTheStart(s: State, run: seq<Event>)
    requires Initial(s) && Valid(s, run)
    ensures var end, errors := Exec(s, run), ErrorFailures(s, run);
            LogInv(end) && FailuresExplained(end, errors) && AnswersTrue(end) && ErrorsRecorded(end, errors)
  {
    InitialLog(s);
    RunExplained(s, run, {});
    assert {} + ErrorFailures(s, run) == ErrorFailures(s, run);
  }

  // ----- forgotten keys

  /** A key whose intent Stripe does not remember any more was forgotten. */
  ghost predicate KnownUnless(s: State, forgotten: set<Key>) {
    forall i | 0 <= i < |s.stripe.intents| :: s.stripe.intents[i].key in s.stripe.memory || s.stripe.intents[i].key in forgotten
  }

  /** The keys that are forgotten in a run. */
  ghost function Forgotten(run: seq<Event>): set<Key> {
    set e | e in run && e.KeyForgotten? :: e.key
  }

  lemma StepMadeTwice(s: State, e: Event, anew: set<Key>, forgotten: set<Key>)
    requires KnownUnless(s, forgotten) && anew <= forgotten && Enabled(s, e)
    requires forall key :: key in anew <==> MadeTwice(s.stripe, key)
    ensures forall key :: key in anew + MadeAnew(s, e) <==> MadeTwice(Apply(s, e).stripe, key)
    ensures KnownUnless(Apply(s, e), forgotten + Forgotten([e])) && anew + MadeAnew(s, e) <= forgotten + Forgotten([e])
  {
    IntentsStay(s, e);
    assert e.KeyForgotten? ==> e in [e] && e.key in Forgotten([e]);
    forall key ensures key in anew + MadeAnew(s, e) <==> MadeTwice(Apply(s, e).stripe, key) {
      SecondOfKeyIff(s, e, key);
    }
    hide MadeTwice;
  }

  lemma SecondOfKeyIff(s: State, e: Event, key: Key)
    requires Enabled(s, e)
    ensures MadeTwice(Apply(s, e).stripe, key) <==> MadeTwice(s.stripe, key) || key in MadeAnew(s, e)
  {
    IntentsStay(s, e);
    hide Enabled, Apply, MadeTwice;
    OneMoreOfKey(s.stripe, Apply(s, e).stripe, key);
  }

  lemma OneMoreOfKey(before: Stripe, after: Stripe, key: Key)
    requires |before.intents| <= |after.intents| <= |before.intents| + 1
    requires forall i | 0 <= i < |before.intents| :: after.intents[i].key == before.intents[i].key
    ensures var n := |before.intents|;
            MadeTwice(after, key) <==>
            MadeTwice(before, key) || (n < |after.intents| && after.intents[n].key == key
                                       && exists i | 0 <= i < n :: before.intents[i].key == key)
  {
    var n := |before.intents|;
    if i, j :| 0 <= i < j < |after.intents| && after.intents[i].key == key && after.intents[j].key == key {
      assert before.intents[i].key == key && (j < n ==> before.intents[j].key == key);
    }
    if i, j :| 0 <= i < j < n && before.intents[i].key == key && before.intents[j].key == key {
      assert after.intents[i].key == key && after.intents[j].key == key;
    }
    if i :| 0 <= i < n && before.intents[i].key == key {
      assert after.intents[i].key == key;
    }
  }

  lemma {:induction false} RunMadeTwice(s: State, run: seq<Event>, anew: set<Key>, forgotten: set<Key>)
    requires KnownUnless(s, forgotten) && anew <= forgotten && Valid(s, run)
    requires forall key :: key in anew <==> MadeTwice(s.stripe, key)
    ensures forall key :: key in anew + CalledAnew(s, run) <==> MadeTwice(Exec(s, run).stripe, key)
    ensures anew + CalledAnew(s, run) <= forgotten + Forgotten(run)
    decreases |run|
  {
    if run != [] {
      StepMadeTwice(s, run[0], anew, forgotten);
      hide MadeTwice, MadeAnew, Apply, Enabled, KnownUnless;
      var anew', forgotten' := anew + MadeAnew(s, run[0]), forgotten + Forgotten([run[0]]);
      RunMadeTwice(Apply(s, run[0]), run[1..], anew', forgotten');
      assert anew' + CalledAnew(Apply(s, run[0]), run[1..]) == anew + CalledAnew(s, run);
      assert run == [run[0]] + run[1..];
      assert forgotten' + Forgotten(run[1..]) == forgotten + Forgotten(run);
    }
  }

  /**
   * In every run: a key has two intents exactly when it was called anew, which happens only to
   * keys that Stripe has forgotten.
   */
  lemma MadeTwiceIff(s: State, run: seq<Event>)
    requires Initial(s) && Valid(s, run)
    ensures forall key :: key in CalledAnew(s, run) <==> MadeTwice(Exec(s, run).stripe, key)
    ensures CalledAnew(s, run) <= Forgotten(run)
  {
    RunMadeTwice(s, run, {}, {});
    assert {} + CalledAnew(s, run) == CalledAnew(s, run) && {} + Forgotten(run) == Forgotten(run);
  }

  // ----- the two ways to a second charge

  /**
   * In every interleaving, with keys forgotten at any time: of two intents that have charged or can
   * charge, the one with the smaller attempt number belongs to an attempt that was recorded failed
   * on an error answer, or to a key that was called anew after Stripe forgot it; and so does every
   * charged intent whose attempt was ever recorded failed.
   */
  lemma SecondChargeExplained(s: State, run: seq<Event>)
    requires Initial(s) && Valid(s, run)
    ensures var end, causes := Exec(s, run), ErrorFailures(s, run) + CalledAnew(s, run);
            && (forall i, j | 0 <= i < |end.stripe.intents| && 0 <= j < |end.stripe.intents| ::
                  BothChargeable(end.stripe, i, j) ==> end.stripe.intents[i].key in causes)
            && (forall i | 0 <= i < |end.outcomes| && end.outcomes[i].status == Failed ::
                  IsCharged(end.stripe, Sha256(end.outcomes[i].attempt + 1)) ==> Sha256(end.outcomes[i].attempt + 1) in causes)
            && (forall i | 0 <= i < |end.rows.attempts| && end.rows.attempts[i].status == Failed ::
                  IsCharged(end.stripe, end.rows.attempts[i].key) ==> end.rows.attempts[i].key in causes)
  {
    FromTheStart(s, run);
    MadeTwiceIff(s, run);
    var end, errors := Exec(s, run), ErrorFailures(s, run);
    forall i, j | 0 <= i < |end.stripe.intents| && 0 <= j < |end.stripe.intents| && BothChargeable(end.stripe, i, j)
      ensures end.stripe.intents[i].key in errors + CalledAnew(s, run)
    {
      EarlierIntentExplained(end, errors, i, j);
    }
    forall id: nat | Explained(end, errors, id) && IsCharged(end.stripe, Sha256(id + 1))
      ensures Sha256(id + 1) in errors + CalledAnew(s, run)
    {
      ChargedAfterDecline(end, errors, id);
    }
    hide Explained, IsCharged, MadeTwice;
  }

  lemma ChargedAfterDecline(s: State, errors: set<Key>, id: nat)
    requires AnswersTrue(s) && Explained(s, errors, id) && IsCharged(s.stripe, Sha256(id + 1))
    ensures Sha256(id + 1) in errors || MadeTwice(s.stripe, Sha256(id + 1))
  {
    if Sha256(id + 1) !in errors {
      var i :| 0 <= i < |s.stripe.intents| && s.stripe.intents[i].key == Sha256(id + 1) && s.stripe.intents[i].charged;
      TwoIntents(s, i);
    }
  }

  /** A chargeable intent of a declined key is a second one. */
  lemma TwoIntents(s: State, i: nat)
    requires i < |s.stripe.intents| && Chargeable(s.stripe.intents[i]) && Declined(s.stripe, s.stripe.intents[i].key)
    ensures MadeTwice(s.stripe, s.stripe.intents[i].key)
  {
    var key := s.stripe.intents[i].key;
    var d :| 0 <= d < |s.stripe.intents| && s.stripe.intents[d].key == key && s.stripe.intents[d].first == AnswerDeclined;
    assert d < i || i < d;
  }

  lemma EarlierIntentExplained(s: State, errors: set<Key>, i: nat, j: nat)
    requires LogInv(s) && FailuresExplained(s, errors)
    requires i < |s.stripe.intents| && j < |s.stripe.intents| && BothChargeable(s.stripe, i, j)
    ensures s.stripe.intents[i].key in errors || MadeTwice(s.stripe, s.stripe.intents[i].key)
  {
    var key := s.stripe.intents[i].key;
    if key == s.stripe.intents[j].key {
      assert i < j || j < i;
    } else if key !in errors {
      assert Explained(s, errors, key.attemptNumber - 1) && key == Sha256(key.attemptNumber - 1 + 1);
      TwoIntents(s, i);
    }
  }

  /** Nothing but Stripe settling intents that it left open. */
  ghost predicate OnlySettles(run: seq<Event>) {
    forall e | e in run :: e.Settle?
  }

  /** A call makes an intent that charges or can charge, while an earlier one does or can as well. */
  ghost predicate SecondChargeable(s: State, e: Event)
    requires Enabled(s, e)
  {
    && e.CallStripe? && e.effect.Makes? && e.effect.first != AnswerDeclined
    && exists i | 0 <= i < |s.stripe.intents| :: Chargeable(s.stripe.intents[i])
  }

  ghost predicate CalledAgain(s: State, run: seq<Event>)
    requires Valid(s, run)
    decreases |run|
  {
    run != [] && (SecondChargeable(s, run[0]) || CalledAgain(Apply(s, run[0]), run[1..]))
  }

  lemma StepTwoChargeable(s: State, e: Event)
    requires Enabled(s, e)
    ensures TwoChargeable(Apply(s, e).stripe) <==> TwoChargeable(s.stripe) || SecondChargeable(s, e)
  {
    IntentsStay(s, e);
    hide Enabled, Apply, TwoChargeable;
    OneMoreChargeable(s.stripe, Apply(s, e).stripe);
  }

  lemma OneMoreChargeable(before: Stripe, after: Stripe)
    requires |before.intents| <= |after.intents| <= |before.intents| + 1
    requires forall i | 0 <= i < |before.intents| :: after.intents[i].first == before.intents[i].first
    ensures var n := |before.intents|;
            TwoChargeable(after) <==>
            TwoChargeable(before) || (n < |after.intents| && Chargeable(after.intents[n])
                                      && exists i | 0 <= i < n :: Chargeable(before.intents[i]))
  {
    var n := |before.intents|;
    if i, j :| 0 <= i < j < |after.intents| && Chargeable(after.intents[i]) && Chargeable(after.intents[j]) {
      assert Chargeable(before.intents[i]) && (j < n ==> Chargeable(before.intents[j]));
    }
    if i, j :| 0 <= i < j < n && Chargeable(before.intents[i]) && Chargeable(before.intents[j]) {
      assert Chargeable(after.intents[i]) && Chargeable(after.intents[j]);
    }
    if i :| 0 <= i < n && Chargeable(before.intents[i]) {
      assert Chargeable(after.intents[i]);
    }
  }

  lemma {:induction false} TwoChargeableIff(s: State, run: seq<Event>)
    requires Valid(s, run)
    ensures TwoChargeable(Exec(s, run).stripe) <==> TwoChargeable(s.stripe) || CalledAgain(s, run)
    decreases |run|
  {
    if run != [] {
      StepTwoChargeable(s, run[0]);
      TwoChargeableIff(Apply(s, run[0]), run[1..]);
    }
  }

  /** Stripe settles one more intent, unless money has moved on it already. */
  lemma SettleOne(s: State, run: seq<Event>, i: nat) returns (run': seq<Event>)
    requires Valid(s, run) && OnlySettles(run) && AnswersTrue(Exec(s, run)) && LogInv(Exec(s, run))
    requires i < |Exec(s, run).stripe.intents| && Chargeable(Exec(s, run).stripe.intents[i])
    ensures Valid(s, run') && OnlySettles(run') && AnswersTrue(Exec(s, run')) && LogInv(Exec(s, run'))
    ensures var intents := Exec(s, run).stripe.intents;
            Exec(s, run').stripe.intents == intents[i := intents[i].(charged := true)]
  {
    var t := Exec(s, run);
    if t.stripe.intents[i].charged {
      run' := run;
    } else {
      assert CanSettle(t.stripe, i);
      Snoc(s, run, Settle(i));
      StepKeepsAnswers(t, Settle(i));
      StepKeepsLog(t, Settle(i));
      run' := run + [Settle(i)];
    }
  }

  lemma SettleTwo(s: State) returns (settled: seq<Event>)
    requires LogInv(s) && AnswersTrue(s) && TwoChargeable(s.stripe)
    ensures OnlySettles(settled) && Valid(s, settled) && TwoCharged(Exec(s, settled).stripe)
  {
    var i, j :| 0 <= i < j < |s.stripe.intents| && Chargeable(s.stripe.intents[i]) && Chargeable(s.stripe.intents[j]);
    assert Exec(s, []) == s;
    hide LogInv, AnswersTrue, Exec, Valid;
    var run := SettleOne(s, [], i);
    settled := SettleOne(s, run, j);
    assert Exec(s, settled).stripe.intents[i].charged && Exec(s, settled).stripe.intents[j].charged;
  }

  /** Stripe alone can bring a second charge exactly when two intents have charged or can charge. */
  lemma SettlingChargesTwiceIff(s: State)
    requires LogInv(s) && AnswersTrue(s)
    ensures (exists settled :: OnlySettles(settled) && Valid(s, settled) && TwoCharged(Exec(s, settled).stripe))
       <==> TwoChargeable(s.stripe)
  {
    if TwoChargeable(s.stripe) {
      var settled := SettleTwo(s);
    }
    forall settled | OnlySettles(settled) && Valid(s, settled) && TwoCharged(Exec(s, settled).stripe)
      ensures TwoChargeable(s.stripe)
    {
      NothingCalled(s, settled);
      ChargedAreChargeable(s, settled);
      TwoChargeableIff(s, settled);
    }
    hide LogInv, AnswersTrue, Exec, Valid, TwoCharged, TwoChargeable;
  }

  lemma {:induction false} NothingCalled(s: State, settled: seq<Event>)
    requires OnlySettles(settled) && Valid(s, settled)
    ensures !CalledAgain(s, settled)
    decreases |settled|
  {
    if settled != [] {
      assert settled[0] in settled && forall e | e in settled[1..] :: e in settled;
      NothingCalled(Apply(s, settled[0]), settled[1..]);
    }
  }

  lemma {:induction false} ChargedAreChargeable(s: State, run: seq<Event>)
    requires LogInv(s) && AnswersTrue(s) && Valid(s, run)
    ensures TwoCharged(Exec(s, run).stripe) ==> TwoChargeable(Exec(s, run).stripe)
    decreases |run|
  {
    if run != [] {
      hide LogInv, AnswersTrue, TwoCharged, TwoChargeable, Apply, Enabled;
      StepKeepsLog(s, run[0]);
      StepKeepsAnswers(s, run[0]);
      ChargedAreChargeable(Apply(s, run[0]), run[1..]);
    } else if i, j :| 0 <= i < j < |s.stripe.intents| && s.stripe.intents[i].charged && s.stripe.intents[j].charged {
      assert Chargeable(s.stripe.intents[i]) && Chargeable(s.stripe.intents[j]);
    }
  }

  /**
   * For every run, exactly: the guest is charged twice by its end, or can be by intents settling
   * later, if and only if some call of the run made an intent that was not declined, because
   * Stripe did not remember its key, while another intent had charged or could still charge.
   */
  lemma CanChargeTwiceIff(s: State, run: seq<Event>)
    requires Initial(s) && Valid(s, run)
    ensures (exists settled :: OnlySettles(settled) && Valid(Exec(s, run), settled)
                               && TwoCharged(Exec(Exec(s, run), settled).stripe))
       <==> CalledAgain(s, run)
    ensures TwoCharged(Exec(s, run).stripe) ==> CalledAgain(s, run)
  {
    FromTheStart(s, run);
    var end := Exec(s, run);
    SettlingChargesTwiceIff(end);
    ChargedAreChargeable(end, []);
    TwoChargeableIff(s, run);
    assert !TwoChargeable(s.stripe);
    hide Exec, Valid, TwoCharged, TwoChargeable, Initial;
  }

  lemma ChargedTwiceHasCause(s: State, causes: set<Key>)
    requires AnswersTrue(s)
    requires forall i, j | 0 <= i < |s.stripe.intents| && 0 <= j < |s.stripe.intents| ::
               BothChargeable(s.stripe, i, j) ==> s.stripe.intents[i].key in causes
    ensures TwoCharged(s.stripe) ==> !NoneCharged(s, causes)
  {
    if i, j :| 0 <= i < j < |s.stripe.intents| && s.stripe.intents[i].charged && s.stripe.intents[j].charged {
      assert BothChargeable(s.stripe, i, j) || BothChargeable(s.stripe, j, i);
      assert IsCharged(s.stripe, s.stripe.intents[i].key) && IsCharged(s.stripe, s.stripe.intents[j].key);
    }
  }

  /**
   * At most one intent ever charges the guest, and no charged attempt is recorded failed, in every
   * interleaving in which neither an attempt recorded failed on an error answer nor a key called
   * anew turns out to be charged.
   */
  lemma AtMostOneCharge(s: State, run: seq<Event>)
    requires Initial(s) && Valid(s, run) && NoneCharged(Exec(s, run), ErrorFailures(s, run) + CalledAnew(s, run))
    ensures var end := Exec(s, run);
            && !TwoCharged(end.stripe)
            && (forall i | 0 <= i < |end.rows.attempts| && IsCharged(end.stripe, end.rows.attempts[i].key) ::
                  end.rows.attempts[i].status != Failed)
  {
    FromTheStart(s, run);
    SecondChargeExplained(s, run);
    ChargedTwiceHasCause(Exec(s, run), ErrorFailures(s, run) + CalledAnew(s, run));
  }

  /**
   * The exact form for the books: no failure was recorded for a charged key if and only if none was
   * recorded for one on an error answer, and none for one that was called anew.
   */
  lemma NoChargedFailureIff(s: State, run: seq<Event>)
    requires Initial(s) && Valid(s, run)
    ensures var end := Exec(s, run);
            (forall i | 0 <= i < |end.outcomes| && end.outcomes[i].status == Failed ::
               !IsCharged(end.stripe, Sha256(end.outcomes[i].attempt + 1)))
            <==> NoneCharged(end, ErrorFailures(s, run))
                 && (forall i | 0 <= i < |end.outcomes| && end.outcomes[i].status == Failed ::
                       Sha256(end.outcomes[i].attempt + 1) in CalledAnew(s, run) ==>
                         !IsCharged(end.stripe, Sha256(end.outcomes[i].attempt + 1)))
  {
    SecondChargeExplained(s, run);
    FromTheStart(s, run);
    hide FailuresExplained, LogInv, AnswersTrue, IsCharged;
  }

  // ----- the same under a hypothesis about Stripe alone

  /** The keys of workers that have heard an error. */
  ghost predicate HeardIn(s: State, answers: set<Key>) {
    forall w | w in s.workers && s.workers[w].Answered? && s.workers[w].answer == AnswerApiError ::
      Sha256(s.workers[w].attempt + 1) in answers
  }

  /** The key of a call that the step answers with an error, if it does. */
  ghost function HeardNow(s: State, e: Event): set<Key>
    requires Enabled(s, e)
  {
    if e.CallStripe? && e.answer == AnswerApiError then {s.workers[e.worker].key} else {}
  }

  lemma StepHeard(s: State, e: Event, answers: set<Key>)
    requires LogInv(s) && HeardIn(s, answers) && Enabled(s, e)
    ensures HeardIn(Apply(s, e), answers + HeardNow(s, e)) && FailedByError(s, e) <= answers
  {
    if e.CallStripe? {
      assert Holds(s, e.worker, s.workers[e.worker].token) && ClaimOk(s, e.worker, s.workers[e.worker].token);
    }
    hide LogInv, Claims, KeysReserved, Numbered, OnlyLastOpen;
  }

  lemma {:induction false} FailuresWereAnswers(s: State, run: seq<Event>, answers: set<Key>)
    requires LogInv(s) && HeardIn(s, answers) && Valid(s, run)
    ensures ErrorFailures(s, run) <= answers + ErrorAnswers(s, run)
    decreases |run|
  {
    if run != [] {
      hide LogInv, HeardIn, Apply, Enabled, FailedByError;
      StepKeepsLog(s, run[0]);
      StepHeard(s, run[0], answers);
      FailuresWereAnswers(Apply(s, run[0]), run[1..], answers + HeardNow(s, run[0]));
    }
  }

  /**
   * Where Stripe answers with an error only for keys that never charge, and a key that it forgets
   * is charged only if it was called once, the guest is charged once.
   */
  lemma ErrorsFinalChargeOnce(s: State, run: seq<Event>)
    requires Initial(s) && Valid(s, run) && NoneCharged(Exec(s, run), ErrorAnswers(s, run) + CalledAnew(s, run))
    ensures var end := Exec(s, run);
            && !TwoCharged(end.stripe)
            && (forall i | 0 <= i < |end.rows.attempts| && IsCharged(end.stripe, end.rows.attempts[i].key) ::
                  end.rows.attempts[i].status != Failed)
  {
    InitialLog(s);
    FailuresWereAnswers(s, run, {});
    AtMostOneCharge(s, run);
  }
}
