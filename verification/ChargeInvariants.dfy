/** What every step of the charging protocol keeps. */
module ChargeInvariants {
  import opened Wrappers
  import opened ChargeTransactions
  import opened ChargeProtocol

  // ----- the attempt log

  /** Attempts are numbered 1..n in order, each with its own key. */
  ghost predicate Numbered(attempts: seq<Attempt>) {
    forall i | 0 <= i < |attempts| :: attempts[i].number == i + 1 && attempts[i].key == Sha256(i + 1)
  }

  predicate Closed(attempt: Attempt) {
    attempt.status == Failed || attempt.status == Succeeded
  }

  /** Only the last attempt can still be undecided. */
  ghost predicate OnlyLastOpen(attempts: seq<Attempt>) {
    forall i | 0 <= i < |attempts| - 1 :: Closed(attempts[i])
  }

  lemma LatestIsLast(attempts: seq<Attempt>)
    requires Numbered(attempts) && attempts != []
    ensures LatestIndex(attempts) == |attempts| - 1
    ensures MaxNumber(attempts) == |attempts|
  {}

  // ----- claims

  function TokenOf(c: Counter): Option<Token> {
    match c
    case Reserved(_, _, token, _) => Some(token)
    case Answered(_, token, _) => Some(token)
    case _ => None
  }

  function AttemptOf(c: Counter): nat
    requires TokenOf(c).Some?
  {
    c.attempt
  }

  ghost predicate Holds(s: State, w: WorkerId, token: Token) {
    w in s.workers && TokenOf(s.workers[w]) == Some(token)
  }

  /** A worker's token is its own, points at an existing attempt, and matches no other attempt's claim. */
  ghost predicate ClaimOk(s: State, w: WorkerId, token: Token)
    requires Holds(s, w, token)
  {
    var id := AttemptOf(s.workers[w]);
    && token < s.nextToken
    && id < |s.rows.attempts|
    && (s.workers[w].Reserved? ==> s.workers[w].key == Sha256(id + 1))
    && (forall v | Holds(s, v, token) :: v == w)
    && (forall i | 0 <= i < |s.rows.attempts| && s.rows.attempts[i].claim == Some(token) :: i == id)
  }

  ghost predicate Claims(s: State) {
    && (forall w, token | Holds(s, w, token) :: ClaimOk(s, w, token))
    && (forall i | 0 <= i < |s.rows.attempts| && s.rows.attempts[i].claim.Some? ::
          s.rows.attempts[i].claim.value < s.nextToken && s.rows.attempts[i].status !in {Failed, RequiresAction})
  }

  /** Stripe knows keys of reserved attempts only, and remembers a key for an intent of that key. */
  ghost predicate KeysReserved(s: State) {
    && (forall key | key in s.stripe.memory && s.stripe.memory[key].Made? ::
          s.stripe.memory[key].intent < |s.stripe.intents| && s.stripe.intents[s.stripe.memory[key].intent].key == key)
    && (forall i | 0 <= i < |s.stripe.intents| :: 1 <= s.stripe.intents[i].key.attemptNumber <= |s.rows.attempts|)
  }

  ghost predicate LogInv(s: State) {
    Numbered(s.rows.attempts) && OnlyLastOpen(s.rows.attempts) && Claims(s) && KeysReserved(s)
  }

  /** A step that hands out no token and moves no claim keeps the claims. */
  lemma NoNewClaims(s: State, t: State)
    requires Claims(s) && t.nextToken >= s.nextToken && |t.rows.attempts| == |s.rows.attempts|
    requires forall w, token | Holds(t, w, token) ::
               && Holds(s, w, token)
               && AttemptOf(t.workers[w]) == AttemptOf(s.workers[w])
               && (t.workers[w].Reserved? ==> t.workers[w] == s.workers[w])
    requires forall i | 0 <= i < |s.rows.attempts| ::
               var before, after := s.rows.attempts[i], t.rows.attempts[i];
               after.claim.Some? ==> after.claim == before.claim && after.status in {before.status, Succeeded}
    ensures Claims(t)
  {}

  /** Handing the next fresh token to one worker, for one attempt, keeps the claims. */
  lemma FreshClaim(s: State, t: State, w: WorkerId, id: nat)
    requires Claims(s)
    requires At(s, w, Selected) && t.workers == s.workers[w := Reserved(id, Sha256(id + 1), s.nextToken, s.now + EXECUTION_LEASE)]
    requires t.nextToken == s.nextToken + 1
    requires id < |t.rows.attempts| && |s.rows.attempts| <= |t.rows.attempts| <= |s.rows.attempts| + 1
    requires t.rows.attempts[id].claim == Some(s.nextToken) && t.rows.attempts[id].status in {Pending, Processing}
    requires forall i | 0 <= i < |t.rows.attempts| && i != id ::
               i < |s.rows.attempts| && t.rows.attempts[i] == s.rows.attempts[i]
    ensures Claims(t)
  {
    forall v, token | Holds(t, v, token) ensures ClaimOk(t, v, token) {
      forall u | Holds(t, u, token) && u != w ensures Holds(s, u, token) && ClaimOk(s, u, token) {
        assert Holds(s, u, token);
      }
    }
  }

  lemma DecideKeepsLog(s: State, w: WorkerId)
    requires LogInv(s) && At(s, w, Selected)
    ensures LogInv(ApplyDecide(s, w))
  {
    var attempts := s.rows.attempts;
    if attempts != [] {
      LatestIsLast(attempts);
    }
    var t := ApplyDecide(s, w);
    if w in t.workers {
      FreshClaim(s, t, w, t.workers[w].attempt);
    } else {
      forall v, token | Holds(t, v, token) ensures Holds(s, v, token) {}
      NoNewClaims(s, t);
    }
  }

  lemma StepKeepsLog(s: State, e: Event)
    requires LogInv(s) && Enabled(s, e)
    ensures LogInv(Apply(s, e))
  {
    var t := Apply(s, e);
    match e
    case DecideFor(w) => DecideKeepsLog(s, w);
    case RecordFor(w) =>
      assert Holds(s, w, s.workers[w].token) && ClaimOk(s, w, s.workers[w].token);
      forall v, token | Holds(t, v, token) ensures Holds(s, v, token) {}
      NoNewClaims(s, t);
    case CallStripe(w, _, _) =>
      assert Holds(s, w, s.workers[w].token) && ClaimOk(s, w, s.workers[w].token);
      forall v, token | Holds(t, v, token) ensures Holds(s, v, token) {}
      NoNewClaims(s, t);
    case _ =>
      forall v, token | Holds(t, v, token) ensures Holds(s, v, token) {}
      NoNewClaims(s, t);
  }

  lemma InitialLog(s: State)
    requires Initial(s)
    ensures LogInv(s)
  {}

  /** Attempt log shape, in every state of every run. */
  lemma {:induction false} RunKeepsLog(s: State, run: seq<Event>)
    requires LogInv(s) && Valid(s, run)
    ensures LogInv(Exec(s, run))
    decreases |run|
  {
    if run != [] {
      StepKeepsLog(s, run[0]);
      RunKeepsLog(Apply(s, run[0]), run[1..]);
    }
  }

  predicate Unresolved(attempt: Attempt) {
    attempt.status in {Pending, Processing, RequiresAction}
  }

  /** Numbered 1..n with distinct keys, all but the last closed, so at most one unresolved. */
  lemma AttemptLogShape(s: State, run: seq<Event>)
    requires Initial(s) && Valid(s, run)
    ensures var attempts := Exec(s, run).rows.attempts;
            && Numbered(attempts)
            && (forall i, j | 0 <= i < j < |attempts| :: attempts[i].key != attempts[j].key)
            && (forall i | 0 <= i < |attempts| - 1 :: Closed(attempts[i]))
            && (forall i, j | 0 <= i < |attempts| && 0 <= j < |attempts| ::
                  Unresolved(attempts[i]) && Unresolved(attempts[j]) ==> i == j)
  {
    InitialLog(s);
    RunKeepsLog(s, run);
  }
}
