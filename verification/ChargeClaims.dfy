/** Success is absorbing, a settled log grows no more, and stale claim owners are inert. */
module ChargeClaims {
  import opened Wrappers
  import opened ChargeTransactions
  import opened ChargeProtocol
  import opened ChargeInvariants

  // ----- success is absorbing

  /** A succeeded attempt stays succeeded, whatever happens next. */
  lemma {:induction false} SuccessIsAbsorbing(s: State, run: seq<Event>, i: nat)
    requires Valid(s, run)
    requires i < |s.rows.attempts| && s.rows.attempts[i].status == Succeeded
    ensures i < |Exec(s, run).rows.attempts| && Exec(s, run).rows.attempts[i].status == Succeeded
    decreases |run|
  {
    if run != [] {
      SuccessIsAbsorbing(Apply(s, run[0]), run[1..], i);
    }
  }

  /** A success, or a last attempt that waits for the customer. */
  ghost predicate Settled(attempts: seq<Attempt>) {
    HasSucceeded(attempts) || (attempts != [] && attempts[|attempts| - 1].status == RequiresAction)
  }

  lemma SettledDecision(s: State, w: WorkerId)
    requires Numbered(s.rows.attempts) && Settled(s.rows.attempts)
    ensures ApplyDecide(s, w).rows.attempts == s.rows.attempts
  {}

  lemma SettledStep(s: State, e: Event)
    requires LogInv(s) && Settled(s.rows.attempts) && Enabled(s, e)
    ensures Settled(Apply(s, e).rows.attempts)
    ensures |Apply(s, e).rows.attempts| == |s.rows.attempts|
  {
    if e.DecideFor? {
      SettledDecision(s, e.worker);
    }
    hide ApplyDecide, KeysReserved, Numbered, OnlyLastOpen;
    var t := Apply(s, e);
    if i :| 0 <= i < |s.rows.attempts| && s.rows.attempts[i].status == Succeeded {
      assert t.rows.attempts[i].status == Succeeded;
    } else {
      var last := |s.rows.attempts| - 1;
      assert t.rows.attempts[last].status in {RequiresAction, Succeeded};
    }
  }

  /** Nothing is appended after a success or after an attempt that requires action. */
  lemma {:induction false} SettledLogIsFrozen(s: State, run: seq<Event>)
    requires LogInv(s) && Settled(s.rows.attempts) && Valid(s, run)
    ensures |Exec(s, run).rows.attempts| == |s.rows.attempts|
    decreases |run|
  {
    if run != [] {
      SettledStep(s, run[0]);
      StepKeepsLog(s, run[0]);
      SettledLogIsFrozen(Apply(s, run[0]), run[1..]);
    }
  }

  // ----- stale owners are inert

  /** The worker holds a token, but its claim was taken over or its attempt already succeeded. */
  ghost predicate Stale(s: State, w: WorkerId, token: Token) {
    Holds(s, w, token) && !OwnsClaim(s.rows.attempts, AttemptOf(s.workers[w]), token)
  }

  /** A stale worker's record changes no attempt, no grace deadline and no retry time. */
  lemma StaleRecordIsInert(s: State, w: WorkerId, token: Token)
    requires Stale(s, w, token) && Enabled(s, RecordFor(w))
    ensures Apply(s, RecordFor(w)).rows == s.rows
    ensures Apply(s, RecordFor(w)).outcomes == s.outcomes
  {}

  /** Once a row carries another claim, or none, no step gives it this old token back. */
  ghost predicate NeverAgain(s: State, id: nat, token: Token) {
    && token < s.nextToken
    && id < |s.rows.attempts|
    && !OwnsClaim(s.rows.attempts, id, token)
  }

  lemma NeverAgainStep(s: State, e: Event, id: nat, token: Token)
    requires NeverAgain(s, id, token) && Enabled(s, e)
    ensures NeverAgain(Apply(s, e), id, token)
  {}

  /**
   * A worker that has become stale never becomes current: if it still holds the token at the end
   * of any further run, its record is still inert there.
   */
  lemma {:induction false} StaleStaysStale(s: State, run: seq<Event>, id: nat, token: Token)
    requires NeverAgain(s, id, token) && Valid(s, run)
    ensures NeverAgain(Exec(s, run), id, token)
    decreases |run|
  {
    if run != [] {
      NeverAgainStep(s, run[0], id, token);
      StaleStaysStale(Apply(s, run[0]), run[1..], id, token);
    }
  }

  /** The decision transaction hands the existing attempt `id` to another worker. */
  ghost predicate TakesOver(s: State, e: Event, id: nat)
    requires Enabled(s, e)
  {
    e.DecideFor? && var decision := Decide(s.rows, s.now, s.nextToken).1; decision.Charge? && decision.attempt == id
  }

  /** The success webhook names the attempt `id` while the booking is not yet confirmed. */
  ghost predicate Preempts(s: State, e: Event, id: nat)
    requires Enabled(s, e)
  {
    e.PaymentWebhook? && s.rows.booking.status != Confirmed && id == s.stripe.intents[e.intent].key.attemptNumber - 1
  }

  /** A takeover and a success webhook each make the present owner stale, for good. */
  lemma PreemptedOwnerIsStale(s: State, e: Event, w: WorkerId, token: Token)
    requires LogInv(s) && Holds(s, w, token) && Enabled(s, e)
    requires TakesOver(s, e, AttemptOf(s.workers[w])) || Preempts(s, e, AttemptOf(s.workers[w]))
    ensures Stale(Apply(s, e), w, token)
    ensures NeverAgain(Apply(s, e), AttemptOf(s.workers[w]), token)
  {}

  /** A worker holds an old token only as long as it has held it all along, for one attempt. */
  lemma {:induction false} HeldAllAlong(s: State, run: seq<Event>, w: WorkerId, token: Token)
    requires Valid(s, run) && token < s.nextToken && Holds(Exec(s, run), w, token)
    ensures Holds(s, w, token) && AttemptOf(Exec(s, run).workers[w]) == AttemptOf(s.workers[w])
    decreases |run|
  {
    if run != [] {
      HeldAllAlong(Apply(s, run[0]), run[1..], w, token);
    }
  }

  /**
   * A worker whose attempt is taken over, or reported succeeded by the webhook, anywhere in a run
   * changes no attempt, no grace deadline and no retry time when it later records under that claim.
   */
  lemma PreemptedWorkerIsInert(start: State, before: seq<Event>, e: Event, later: seq<Event>, w: WorkerId, token: Token)
    requires Initial(start) && Valid(start, before)
    requires var s := Exec(start, before);
             && Enabled(s, e) && Holds(s, w, token)
             && (TakesOver(s, e, AttemptOf(s.workers[w])) || Preempts(s, e, AttemptOf(s.workers[w])))
             && Valid(Apply(s, e), later)
    requires var t := Exec(Apply(Exec(start, before), e), later);
             Enabled(t, RecordFor(w)) && Holds(t, w, token)
    ensures var t := Exec(Apply(Exec(start, before), e), later);
            Apply(t, RecordFor(w)).rows == t.rows && Apply(t, RecordFor(w)).outcomes == t.outcomes
  {
    InitialLog(start);
    RunKeepsLog(start, before);
    var s := Exec(start, before);
    var hit := Apply(s, e);
    var t := Exec(hit, later);
    var id := AttemptOf(s.workers[w]);
    PreemptedOwnerIsStale(s, e, w, token);
    StaleStaysStale(hit, later, id, token);
    HeldAllAlong(hit, later, w, token);
    assert AttemptOf(hit.workers[w]) == id;
    StaleRecordIsInert(t, w, token);
    hide Apply, Exec, Valid;
  }

  // ----- the execution lease is exclusive

  /** A worker that may call Stripe under an unexpired lease. */
  ghost predicate Leased(s: State, w: WorkerId) {
    w in s.workers && s.workers[w].Reserved? && s.now < s.workers[w].until
  }

  /** Whoever is still within its lease is the owner that the row names. */
  ghost predicate LeasesHeld(s: State) {
    forall w | Leased(s, w) ::
      var c := s.workers[w];
      c.attempt < |s.rows.attempts|
      && s.rows.attempts[c.attempt].claim == Some(c.token)
      && s.rows.attempts[c.attempt].lease == Some(c.until)
  }

  lemma LeasesHeldStep(s: State, e: Event)
    requires LogInv(s) && LeasesHeld(s) && Enabled(s, e)
    ensures LeasesHeld(Apply(s, e))
  {
    hide Numbered, OnlyLastOpen, KeysReserved;
    if e.DecideFor? {
      DecisionHoldsLeases(s, e.worker);
    } else if e.RecordFor? {
      RecordHoldsLeases(s, e.worker);
    } else {
      var t := Apply(s, e);
      hide LogInv, Claims;
      forall w | Leased(t, w) ensures Leased(s, w) && t.workers[w] == s.workers[w] {}
    }
  }

  lemma DecisionHoldsLeases(s: State, w: WorkerId)
    requires Claims(s) && LeasesHeld(s) && At(s, w, Selected)
    ensures LeasesHeld(ApplyDecide(s, w))
  {
    var t := ApplyDecide(s, w);
    forall v | Leased(t, v) && v != w ensures Leased(s, v) && t.workers[v] == s.workers[v] {}
  }

  lemma RecordHoldsLeases(s: State, w: WorkerId)
    requires Claims(s) && LeasesHeld(s) && Enabled(s, RecordFor(w))
    ensures LeasesHeld(ApplyRecord(s, w))
  {
    var t := ApplyRecord(s, w);
    assert Holds(s, w, s.workers[w].token) && ClaimOk(s, w, s.workers[w].token);
    forall v | Leased(t, v) ensures Leased(s, v) && Holds(s, v, s.workers[v].token) && t.workers[v] == s.workers[v] {}
  }

  lemma {:induction false} LeasesHeldFrom(s: State, run: seq<Event>)
    requires LogInv(s) && LeasesHeld(s) && Valid(s, run)
    ensures LeasesHeld(Exec(s, run)) && LogInv(Exec(s, run))
    decreases |run|
  {
    if run != [] {
      StepKeepsLog(s, run[0]);
      LeasesHeldStep(s, run[0]);
      LeasesHeldFrom(Apply(s, run[0]), run[1..]);
    }
  }

  /** In every run, at most one worker at a time may call Stripe for an attempt within its lease. */
  lemma LeaseIsExclusive(s: State, run: seq<Event>, v: WorkerId, w: WorkerId)
    requires Initial(s) && Valid(s, run)
    requires Leased(Exec(s, run), v) && Leased(Exec(s, run), w)
    requires Exec(s, run).workers[v].attempt == Exec(s, run).workers[w].attempt
    ensures v == w
  {
    InitialLog(s);
    LeasesHeldFrom(s, run);
    var end := Exec(s, run);
    assert Holds(end, v, end.workers[v].token) && Holds(end, w, end.workers[w].token);
    assert ClaimOk(end, v, end.workers[v].token);
  }

  // ----- each claim records at most one outcome

  /** A token whose outcome was recorded is spent: nobody holds it and no row carries it. */
  ghost predicate Spent(s: State, token: Token) {
    && token < s.nextToken
    && (forall w :: !Holds(s, w, token))
    && (forall i | 0 <= i < |s.rows.attempts| :: s.rows.attempts[i].claim != Some(token))
  }

  ghost predicate OutcomesSpent(s: State) {
    && (forall i | 0 <= i < |s.outcomes| :: Spent(s, s.outcomes[i].token))
    && (forall i, j | 0 <= i < j < |s.outcomes| :: s.outcomes[i].token != s.outcomes[j].token)
  }

  lemma SpentStep(s: State, e: Event, token: Token)
    requires Spent(s, token) && Enabled(s, e)
    ensures Spent(Apply(s, e), token)
  {
    var t := Apply(s, e);
    forall w ensures !Holds(t, w, token) {
      assert !Holds(s, w, token);
    }
  }

  lemma RecordSpends(s: State, w: WorkerId)
    requires LogInv(s) && Enabled(s, RecordFor(w))
    ensures Spent(ApplyRecord(s, w), s.workers[w].token)
      || ApplyRecord(s, w).outcomes == s.outcomes
  {
    var token := s.workers[w].token;
    assert Holds(s, w, token) && ClaimOk(s, w, token);
    var t := ApplyRecord(s, w);
    forall v ensures !Holds(t, v, token) {
      if Holds(t, v, token) {
        assert Holds(s, v, token);
      }
    }
  }

  lemma OutcomesSpentStep(s: State, e: Event)
    requires LogInv(s) && OutcomesSpent(s) && Enabled(s, e)
    ensures OutcomesSpent(Apply(s, e))
  {
    var t := Apply(s, e);
    forall i | 0 <= i < |s.outcomes| ensures Spent(t, s.outcomes[i].token) {
      SpentStep(s, e, s.outcomes[i].token);
    }
    if e.RecordFor? {
      RecordSpends(s, e.worker);
      assert forall i | 0 <= i < |s.outcomes| :: !Holds(s, e.worker, s.outcomes[i].token);
    }
  }

  lemma {:induction false} OneOutcomePerClaimFrom(s: State, run: seq<Event>)
    requires LogInv(s) && OutcomesSpent(s) && Valid(s, run)
    ensures OutcomesSpent(Exec(s, run))
    decreases |run|
  {
    if run != [] {
      StepKeepsLog(s, run[0]);
      OutcomesSpentStep(s, run[0]);
      OneOutcomePerClaimFrom(Apply(s, run[0]), run[1..]);
    }
  }

  /** In every run from a fresh booking, no claim records two outcomes. */
  lemma OneOutcomePerClaim(s: State, run: seq<Event>)
    requires Initial(s) && Valid(s, run)
    ensures var outcomes := Exec(s, run).outcomes;
            forall i, j | 0 <= i < j < |outcomes| :: outcomes[i].token != outcomes[j].token
  {
    InitialLog(s);
    OneOutcomePerClaimFrom(s, run);
  }
}
