/** Any sequence of refund calls, each free to crash anywhere, with Stripe free to forget keys. */
module RefundRetries {
  import opened Wrappers
  import opened Refunds

  /**
   * Between calls Stripe may forget a key, refunds that are not ours may appear on the payment
   * intent, and a webhook may settle a row whose provider refund is recorded.
   */
  datatype Event = Called(crash: Crash) | KeyForgotten(id: RowId) | OtherRefund | Settled(id: RowId, status: RowStatus)

  predicate Enabled(s: State, e: Event) {
    e.Settled? ==> e.id < |s.rows| && s.rows[e.id].provider.Some? && e.status != Pending
  }

  function Apply(s: State, e: Event): State
    requires Enabled(s, e)
  {
    match e
    case Called(crash) => Call(s, crash).0
    case KeyForgotten(id) => s.(keys := s.keys - {id})
    case OtherRefund => s.(refunds := s.refunds + [None])
    case Settled(id, status) => s.(rows := s.rows[id := s.rows[id].(status := status)])
  }

  ghost predicate Valid(s: State, run: seq<Event>)
    decreases |run|
  {
    run != [] ==> Enabled(s, run[0]) && Valid(Apply(s, run[0]), run[1..])
  }

  ghost function Exec(s: State, run: seq<Event>): State
    requires Valid(s, run)
    decreases |run|
  {
    if run == [] then s else Exec(Apply(s, run[0]), run[1..])
  }

  // ----- the refund list shows what a retry looks for

  predicate Refunded(s: State, id: RowId) {
    Some(id) in s.refunds
  }

  /** The retried row's refund, if there is one, is among the refunds that the list call returns. */
  predicate ListComplete(s: State) {
    var retried := Unresolved(s.rows);
    retried.Some? && Refunded(s, retried.value) ==> Find(s.refunds, retried.value, LIST_LIMIT).Some?
  }

  /** The list is complete at every call of the run. */
  ghost predicate ListsComplete(s: State, run: seq<Event>)
    requires Valid(s, run)
    decreases |run|
  {
    run != [] ==> (run[0].Called? ==> ListComplete(s)) && ListsComplete(Apply(s, run[0]), run[1..])
  }

  /** With at most twenty refunds on the payment intent the list is complete. */
  lemma FewRefundsAreListed(s: State)
    requires |s.refunds| <= 20
    ensures ListComplete(s)
  {}

  // ----- invariant

  ghost predicate NoDuplicate(s: State) {
    forall i, j | 0 <= i < j < |s.refunds| && s.refunds[i].Some? :: s.refunds[i] != s.refunds[j]
  }

  /** Rows and keys point to their own refunds. */
  ghost predicate Linked(s: State) {
    && (forall i | 0 <= i < |s.refunds| && s.refunds[i].Some? :: s.refunds[i].value < |s.rows|)
    && (forall id | id in s.keys :: id < |s.rows| && s.keys[id] < |s.refunds| && s.refunds[s.keys[id]] == Some(id))
    && (forall id | 0 <= id < |s.rows| && s.rows[id].provider.Some? ::
          var refund := s.rows[id].provider.value; refund < |s.refunds| && s.refunds[refund] == Some(id))
  }

  /** Only the newest row may lack Stripe's answer, and then it is pending. */
  ghost predicate OnlyNewestOpen(s: State) {
    forall id | 0 <= id < |s.rows| && s.rows[id].provider.None? :: id == |s.rows| - 1 && s.rows[id].status == Pending
  }

  ghost predicate Inv(s: State) {
    NoDuplicate(s) && Linked(s) && OnlyNewestOpen(s)
  }

  lemma CreateKeepsInv(s: State, id: RowId)
    requires Inv(s) && id < |s.rows| && (Refunded(s, id) ==> id in s.keys)
    ensures var (after, refund) := Create(s, id);
            Inv(after) && after.rows == s.rows && refund < |after.refunds| && after.refunds[refund] == Some(id)
  {
    if id !in s.keys {
      assert forall i | 0 <= i < |s.refunds| :: s.refunds[i] in s.refunds;
    }
  }

  lemma UpdateKeepsInv(s: State, id: RowId, refund: StripeId)
    requires Inv(s) && id < |s.rows| && refund < |s.refunds| && s.refunds[refund] == Some(id)
    ensures Inv(Update(s, id, refund))
  {}

  lemma CreateAndRecordKeepsInv(s: State, id: RowId, crash: Crash)
    requires Inv(s) && id < |s.rows| && (Refunded(s, id) ==> id in s.keys)
    ensures Inv(CreateAndRecord(s, id, crash).0)
  {
    hide Inv;
    CreateKeepsInv(s, id);
    var (created, refund) := Create(s, id);
    UpdateKeepsInv(created, id, refund);
  }

  lemma InsertKeepsInv(s: State)
    requires Inv(s) && Unresolved(s.rows).None?
    ensures Inv(Insert(s)) && !Refunded(Insert(s), |s.rows|)
  {}

  lemma CallKeepsInv(s: State, crash: Crash)
    requires Inv(s) && ListComplete(s)
    ensures Inv(Call(s, crash).0)
  {
    hide Inv;
    var retried := Unresolved(s.rows);
    if retried.None? {
      InsertKeepsInv(s);
      CreateAndRecordKeepsInv(Insert(s), |s.rows|, crash);
    } else {
      var reconciled := Find(s.refunds, retried.value, LIST_LIMIT);
      if reconciled.Some? {
        UpdateKeepsInv(s, retried.value, reconciled.value);
      } else {
        CreateAndRecordKeepsInv(s, retried.value, crash);
      }
    }
  }

  lemma StepKeepsInv(s: State, e: Event)
    requires Inv(s) && Enabled(s, e) && (e.Called? ==> ListComplete(s))
    ensures Inv(Apply(s, e))
  {
    if e.Called? {
      CallKeepsInv(s, e.crash);
    }
  }

  lemma {:induction false} RunKeepsInv(s: State, run: seq<Event>)
    requires Inv(s) && Valid(s, run) && ListsComplete(s, run)
    ensures Inv(Exec(s, run))
    decreases |run|
  {
    if run != [] {
      StepKeepsInv(s, run[0]);
      RunKeepsInv(Apply(s, run[0]), run[1..]);
    }
  }

  /** The rows that wait for Stripe's answer. */
  predicate IsUnresolved(s: State, id: RowId) {
    id < |s.rows| && s.rows[id].provider.None?
  }

  /**
   * Over every run from empty tables in which the refund list is complete at each call, no
   * `host_refund_id` ever has two Stripe refunds, at most one row is unresolved, and every recorded
   * provider refund is the refund of its own row.
   */
  lemma NoDoubleRefund(s: State, run: seq<Event>)
    requires s == State([], [], map[]) && Valid(s, run) && ListsComplete(s, run)
    ensures var t := Exec(s, run);
            && NoDuplicate(t)
            && (forall a, b | IsUnresolved(t, a) && IsUnresolved(t, b) :: a == b)
            && (forall id | 0 <= id < |t.rows| && t.rows[id].provider.Some? ::
                  t.rows[id].provider.value < |t.refunds| && t.refunds[t.rows[id].provider.value] == Some(id))
  {
    RunKeepsInv(s, run);
  }

  // ----- exactly one refund

  /** Our own refunds. */
  function Own(refunds: seq<Option<RowId>>): nat {
    if refunds == [] then 0 else Own(refunds[..|refunds| - 1]) + if refunds[|refunds| - 1].Some? then 1 else 0
  }

  lemma OwnSnoc(refunds: seq<Option<RowId>>, r: Option<RowId>)
    ensures Own(refunds + [r]) == Own(refunds) + if r.Some? then 1 else 0
  {}

  /** How many of our refunds Stripe still has to make: none, or one for the unresolved row. */
  function Owed(s: State): nat {
    var retried := Unresolved(s.rows);
    if retried.Some? && !Refunded(s, retried.value) then 1 else 0
  }

  predicate Stops(e: Event) {
    e.Called? && e.crash != AfterUpdate && e.crash != Never
  }

  /** Calls that stop early, with whatever happens between them. */
  ghost predicate Interrupted(run: seq<Event>) {
    forall i | 0 <= i < |run| :: run[i].Called? ==> Stops(run[i])
  }

  lemma AppendedIsRefunded(s: State, id: RowId)
    ensures Refunded(s.(refunds := s.refunds + [Some(id)]), id)
  {}

  lemma LatestOfSnoc(rows: seq<Row>)
    ensures LatestPending(rows + [Row(None, Pending)]) == Some(|rows|)
    ensures Unresolved(rows + [Row(None, Pending)]) == Some(|rows|)
  {}

  lemma StoppedCreate(s: State, id: RowId)
    requires Inv(s) && Unresolved(s.rows) == Some(id) && ListComplete(s) && Find(s.refunds, id, LIST_LIMIT).None?
    ensures var after := Create(s, id).0;
            Own(after.refunds) == Own(s.refunds) + 1 && Refunded(after, id)
  {}

  /** While a refund is unresolved, stopped calls leave the sum of what is done and what is owed alone. */
  lemma StoppedCall(s: State, e: Event)
    requires Inv(s) && Stops(e) && ListComplete(s) && Unresolved(s.rows).Some?
    ensures var t := Apply(s, e);
            Unresolved(t.rows) == Unresolved(s.rows) && Own(t.refunds) + Owed(t) == Own(s.refunds) + Owed(s)
  {
    var id := Unresolved(s.rows).value;
    if e.crash == AfterCreate && Find(s.refunds, id, LIST_LIMIT).None? {
      StoppedCreate(s, id);
    }
  }

  lemma OtherEvent(s: State, e: Event)
    requires Inv(s) && Enabled(s, e) && !e.Called? && Unresolved(s.rows).Some?
    ensures var t := Apply(s, e);
            Unresolved(t.rows) == Unresolved(s.rows) && Own(t.refunds) + Owed(t) == Own(s.refunds) + Owed(s)
  {}

  lemma {:induction false} InterruptedRun(s: State, run: seq<Event>)
    requires Inv(s) && Valid(s, run) && ListsComplete(s, run) && Interrupted(run) && Unresolved(s.rows).Some?
    ensures var t := Exec(s, run);
            Inv(t) && Unresolved(t.rows) == Unresolved(s.rows) && Own(t.refunds) + Owed(t) == Own(s.refunds) + Owed(s)
    decreases |run|
  {
    hide Inv, Owed, Unresolved, ListComplete;
    if run != [] {
      StepKeepsInv(s, run[0]);
      if run[0].Called? {
        assert Stops(run[0]);
        StoppedCall(s, run[0]);
      } else {
        OtherEvent(s, run[0]);
      }
      forall i | 0 <= i < |run[1..]| ensures run[1..][i].Called? ==> Stops(run[1..][i]) {
        assert run[1..][i] == run[i + 1];
      }
      InterruptedRun(Apply(s, run[0]), run[1..]);
    }
  }

  /** A call that gets to its end pays what is owed and resolves the row. */
  lemma CompletedRetry(s: State, crash: Crash)
    requires Inv(s) && ListComplete(s) && Unresolved(s.rows).Some? && (crash == AfterUpdate || crash == Never)
    ensures var t := Call(s, crash).0;
            Own(t.refunds) == Own(s.refunds) + Owed(s) && Unresolved(t.rows).None? && |t.rows| == |s.rows|
  {}

  lemma FirstCall(s: State, crash: Crash)
    requires Inv(s) && Unresolved(s.rows).None? && crash != AfterSelect
    ensures var t := Call(s, crash).0;
            && |t.rows| == |s.rows| + 1
            && (Stops(Called(crash)) ==> Unresolved(t.rows) == Some(|s.rows|) && Own(t.refunds) + Owed(t) == Own(s.refunds) + 1)
            && (!Stops(Called(crash)) ==> Unresolved(t.rows).None? && Own(t.refunds) == Own(s.refunds) + 1)
  {
    InsertKeepsInv(s);
    LatestOfSnoc(s.rows);
    var inserted := Insert(s);
    OwnSnoc(s.refunds, Some(|s.rows|));
    AppendedIsRefunded(inserted, |s.rows|);
    assert |s.rows| !in s.keys;
  }

  /**
   * A refund that is started, interrupted at any statements, retried any number of times and
   * finally carried to its update is made exactly once, on one row, however often Stripe forgot the
   * key in between.
   */
  lemma RetriedRefundIsMadeOnce(s: State, first: Crash, run: seq<Event>, last: Crash)
    requires Inv(s) && Unresolved(s.rows).None? && first != AfterSelect && Stops(Called(first))
    requires var begun := Call(s, first).0;
             && Valid(begun, run) && ListsComplete(begun, run) && Interrupted(run)
             && ListComplete(s) && ListComplete(Exec(begun, run)) && (last == AfterUpdate || last == Never)
    ensures var t := Call(Exec(Call(s, first).0, run), last).0;
            Own(t.refunds) == Own(s.refunds) + 1 && Unresolved(t.rows).None? && NoDuplicate(t)
  {
    var begun := Call(s, first).0;
    FirstCall(s, first);
    CallKeepsInv(s, first);
    InterruptedRun(begun, run);
    CompletedRetry(Exec(begun, run), last);
    CallKeepsInv(Exec(begun, run), last);
  }

  /** A call starts a further refund, on a row of its own, exactly when no row is unresolved. */
  lemma NewRowIff(s: State, crash: Crash)
    requires Inv(s)
    ensures |Call(s, crash).0.rows| == |s.rows| + 1 <==> crash != AfterSelect && Unresolved(s.rows).None?
  {}

  /** The row that a call works on: the unresolved one, or a new one. */
  function Worked(s: State): RowId {
    var retried := Unresolved(s.rows);
    if retried.Some? then retried.value else |s.rows|
  }

  lemma CreatedAnswers(s: State, id: RowId, crash: Crash)
    requires Inv(s) && id < |s.rows| && (Refunded(s, id) ==> id in s.keys) && crash == Never
    ensures var (t, result) := CreateAndRecord(s, id, crash);
            && result.Some? && result.value < |t.refunds| && t.refunds[result.value] == Some(id)
            && t.rows == s.rows[id := s.rows[id].(provider := result)]
  {
    CreateKeepsInv(s, id);
  }

  /**
   * A call answers only when it runs to its end, and then with the Stripe refund of its own row, as the
   * row records it; the row stays pending until a webhook settles it, and no other row changes.
   */
  lemma AnswerIsTheRowsRefund(s: State, crash: Crash)
    requires Inv(s) && ListComplete(s)
    ensures var (t, result) := Call(s, crash);
            var id := Worked(s);
            && (result.Some? <==> crash == Never)
            && (result.Some? ==> result.value < |t.refunds| && t.refunds[result.value] == Some(id)
                                 && id < |t.rows| && t.rows[id] == Row(result, Pending))
            && (forall other | 0 <= other < |s.rows| && other != id :: t.rows[other] == s.rows[other])
  {
    var retried := Unresolved(s.rows);
    if crash == Never {
      if retried.None? {
        InsertKeepsInv(s);
        CreatedAnswers(Insert(s), |s.rows|, crash);
      } else if Find(s.refunds, retried.value, LIST_LIMIT).None? {
        CreatedAnswers(s, retried.value, crash);
      }
    }
    hide Inv, ListComplete, LatestPending;
  }

  // ----- when the list is not complete

  /** The refund of the retried row is older than the twenty that the list call returns. */
  predicate OutOfSight(s: State, id: RowId) {
    Refunded(s, id) && forall i | 0 <= i < |s.refunds| && |s.refunds| - LIST_LIMIT <= i :: s.refunds[i] != Some(id)
  }

  /**
   * One call gives a row a second refund exactly when it retries a row whose refund has twenty newer
   * ones on the payment intent, Stripe has forgotten the key, and the call gets to the creation.
   */
  lemma SecondRefundIff(s: State, crash: Crash)
    requires Inv(s)
    ensures !NoDuplicate(Call(s, crash).0) <==>
            var retried := Unresolved(s.rows);
            && retried.Some? && OutOfSight(s, retried.value) && retried.value !in s.keys
            && crash !in {AfterSelect, AfterInsert, AfterList}
  {
    var retried := Unresolved(s.rows);
    if retried.Some? && OutOfSight(s, retried.value) && retried.value !in s.keys && crash !in {AfterSelect, AfterInsert, AfterList} {
      var i :| 0 <= i < |s.refunds| && s.refunds[i] == Some(retried.value);
      var t := Call(s, crash).0;
      assert t.refunds == s.refunds + [Some(retried.value)];
      assert t.refunds[i] == t.refunds[|s.refunds|];
    } else if retried.Some? && OutOfSight(s, retried.value) {
      assert Call(s, crash).0.refunds == s.refunds;
    } else {
      assert ListComplete(s);
      CallKeepsInv(s, crash);
    }
  }

  /** A first call that lost Stripe's answer, a forgotten key, and `n` refunds that are not ours. */
  function LostAnswer(n: nat): seq<Event> {
    [Called(AfterCreate), KeyForgotten(0)] + seq(n, _ => OtherRefund)
  }

  lemma {:induction false} OtherRefunds(s: State, n: nat)
    ensures Valid(s, seq(n, _ => OtherRefund))
    ensures Exec(s, seq(n, _ => OtherRefund)) == s.(refunds := s.refunds + seq(n, _ => None))
    decreases n
  {
    if n == 0 {
      assert s.refunds + seq(n, _ => None) == s.refunds;
    } else {
      var next := Apply(s, OtherRefund);
      OtherRefunds(next, n - 1);
      assert seq(n, _ => OtherRefund)[1..] == seq(n - 1, _ => OtherRefund);
      assert next.refunds + seq(n - 1, _ => None) == s.refunds + seq(n, _ => None);
    }
  }

  lemma FirstAnswerLost()
    ensures Apply(State([], [], map[]), Called(AfterCreate)) == State([Row(None, Pending)], [Some(0)], map[0 := 0])
  {}

  lemma LostAnswerState(n: nat)
    ensures Valid(State([], [], map[]), LostAnswer(n))
    ensures Exec(State([], [], map[]), LostAnswer(n)) == State([Row(None, Pending)], [Some(0)] + seq(n, _ => None), map[])
  {
    var begun := State([Row(None, Pending)], [Some(0)], map[0 := 0]);
    var forgotten := State([Row(None, Pending)], [Some(0)], map[]);
    FirstAnswerLost();
    assert Apply(begun, KeyForgotten(0)) == forgotten;
    OtherRefunds(forgotten, n);
    hide Call;
    var run := LostAnswer(n);
    assert run[1..][1..] == seq(n, _ => OtherRefund) && run[1..][0] == KeyForgotten(0) && run[0] == Called(AfterCreate);
    assert Valid(begun, run[1..]) && Exec(begun, run[1..]) == Exec(forgotten, run[1..][1..]);
  }

  /** The limit of the list call is what matters: the retry refunds twice exactly from twenty newer refunds on. */
  lemma TwentyNewerRefunds(n: nat)
    ensures var s := State([], [], map[]);
            && Valid(s, LostAnswer(n))
            && (NoDuplicate(Call(Exec(s, LostAnswer(n)), Never).0) <==> n < 20)
  {
    LostAnswerState(n);
    hide Exec, Valid, Call;
    var t := State([Row(None, Pending)], [Some(0)] + seq(n, _ => None), map[]);
    assert t.refunds[0] == Some(0);
    assert LatestPending(t.rows) == Some(0);
    SecondRefundIff(t, Never);
  }
}
