/** Booking requests that repeat an idempotency key, in every interleaving. */
module AvailabilityRepeats {
  import opened Wrappers
  import opened AvailabilityTable
  import opened AvailabilityTransactions
  import opened AvailabilityLocks

  // ----- transactions keep what they are

  /** An answer is given once. */
  lemma {:induction false} AnswerStays(s: State, run: seq<Event>, t: Txn)
    requires Valid(s, run) && t in s.answers && t !in s.txns
    ensures t in Exec(s, run).answers && Exec(s, run).answers[t] == s.answers[t] && t !in Exec(s, run).txns
    decreases |run|
  {
    hide Run, KeyTaken, Commit;
    if run != [] {
      AnswerStays(Apply(s, run[0]), run[1..], t);
    }
  }

  /** The transaction runs what it began with until it is answered, and a read done before is not done again. */
  predicate Runs(s: State, t: Txn, op: Op, began: Day) {
    if t in s.txns then s.txns[t].op == op && s.txns[t].began == began else t in s.answers && !s.answers[t].Original?
  }

  /**
   * In every run, a request is answered with the booking made before under its key exactly when
   * that booking was committed when the request made its first read.
   */
  lemma FirstReadDecides(start: State, before: seq<Event>, t: Txn, op: Op, later: seq<Event>)
    requires Initial(start) && Valid(start, before) && op.CreateBooking? && Enabled(Exec(start, before), Begin(t, op))
    requires Valid(Apply(Exec(start, before), Begin(t, op)), later)
    ensures var s := Exec(start, before);
            var end := Exec(Apply(s, Begin(t, op)), later);
            && (KeyTaken(s.db, op.key) <==> t in end.answers && end.answers[t].Original?)
            && (KeyTaken(s.db, op.key) ==> end.answers[t] == Original(Holder(s.db, op.key)))
  {
    var s := Exec(start, before);
    var begun := Apply(s, Begin(t, op));
    var taken := KeyTaken(s.db, op.key);
    if taken {
      AnswerStays(begun, later, t);
    } else {
      NeverOriginal(begun, later, t, op, s.today);
    }
    hide KeyTaken, Exec, Valid, Holder;
  }

  lemma NeverOriginal(s: State, run: seq<Event>, t: Txn, op: Op, began: Day)
    requires Valid(s, run) && t in s.txns && t !in s.answers && Runs(s, t, op, began)
    ensures !(t in Exec(s, run).answers && Exec(s, run).answers[t].Original?)
  {
    NotBoth(s, run, t, op, began);
  }

  /** Running and answered exclude each other. */
  lemma {:induction false} NotBoth(s: State, run: seq<Event>, t: Txn, op: Op, began: Day)
    requires Valid(s, run) && Runs(s, t, op, began) && (t in s.txns ==> t !in s.answers)
    ensures var end := Exec(s, run);
            Runs(end, t, op, began) && (t in end.txns ==> t !in end.answers)
    decreases |run|
  {
    hide Run, KeyTaken, Commit;
    if run != [] {
      NotBoth(Apply(s, run[0]), run[1..], t, op, began);
    }
  }

  /**
   * A request whose key was not committed at its first read is refused when it comes to its check
   * under the lock: for its dates exactly when one of its nights is taken then, and for its key
   * exactly when its nights are free and the key has been committed in the meantime.
   */
  lemma RepeatIsRefused(start: State, before: seq<Event>, t: Txn, op: Op, waiting: seq<Event>, later: seq<Event>)
    requires Initial(start) && Valid(start, before) && op.CreateBooking? && Enabled(Exec(start, before), Begin(t, op))
    requires !KeyTaken(Exec(start, before).db, op.key)
    requires var begun := Apply(Exec(start, before), Begin(t, op));
             && Valid(begun, waiting) && Enabled(Exec(begun, waiting), Execute(t))
             && Valid(Apply(Exec(begun, waiting), Execute(t)), later)
    ensures var checked := Exec(Apply(Exec(start, before), Begin(t, op)), waiting);
            var end := Exec(Apply(checked, Execute(t)), later);
            var free := NightsFree(checked.db.table, op.checkIn, op.checkOut);
            var refused := t in end.answers && end.answers[t].Refused?;
            && (refused && end.answers[t].refusal == DatesUnavailable <==> !free)
            && (refused && end.answers[t].refusal == DuplicateKey <==> free && KeyTaken(checked.db, op.key))
            && (refused ==> end.answers[t].refusal in {DatesUnavailable, DuplicateKey})
  {
    var s := Exec(start, before);
    var begun := Apply(s, Begin(t, op));
    var checked := Exec(begun, waiting);
    assert Runs(begun, t, op, s.today) && t !in begun.answers;
    NotBoth(begun, waiting, t, op, s.today);
    var after := Apply(checked, Execute(t));
    if Outcome(checked.db, op, s.today).Err? {
      AnswerStays(after, later, t);
    } else {
      NotRefused(after, later, t);
    }
    hide KeyTaken, Exec, Valid, NightsFree, Book;
  }

  /** Past its check a transaction commits or crashes. */
  lemma {:induction false} NotRefused(s: State, run: seq<Event>, t: Txn)
    requires Valid(s, run)
    requires if t in s.txns then s.txns[t].Ready? && t !in s.answers else t in s.answers && !s.answers[t].Refused?
    ensures var end := Exec(s, run);
            !(t in end.answers && end.answers[t].Refused?)
    decreases |run|
  {
    hide Run, KeyTaken, Commit;
    if run != [] {
      NotRefused(Apply(s, run[0]), run[1..], t);
    }
  }

  // ----- what an answer says

  /** Every answer given so far, by the event that gave it. */
  ghost predicate AnswersTell(s: State, run: seq<Event>) {
    forall t | t in s.answers ::
      && t !in s.txns
      && (s.answers[t] == Done <==> CommitTxn(t) in run)
      && (s.answers[t] == Crashed <==> Abort(t) in run)
      && (s.answers[t].Refused? ==> Execute(t) in run)
  }

  ghost predicate Unanswered(s: State, run: seq<Event>) {
    forall t | t !in s.answers :: CommitTxn(t) !in run && Abort(t) !in run
  }

  lemma StepTells(s: State, run: seq<Event>, e: Event)
    requires AnswersTell(s, run) && Unanswered(s, run) && Enabled(s, e) && (forall t | t in s.txns :: t !in s.answers)
    ensures AnswersTell(Apply(s, e), run + [e]) && Unanswered(Apply(s, e), run + [e])
    ensures forall t | t in Apply(s, e).txns :: t !in Apply(s, e).answers
  {
    hide Run, KeyTaken, Commit;
  }

  lemma {:induction false} RunTells(s: State, before: seq<Event>, run: seq<Event>)
    requires AnswersTell(s, before) && Unanswered(s, before) && Valid(s, run) && (forall t | t in s.txns :: t !in s.answers)
    ensures AnswersTell(Exec(s, run), before + run)
    decreases |run|
  {
    hide AnswersTell, Unanswered, Apply, Enabled;
    if run == [] {
      assert before + run == before;
    } else {
      StepTells(s, before, run[0]);
      RunTells(Apply(s, run[0]), before + [run[0]], run[1..]);
      assert before + [run[0]] + run[1..] == before + run;
    }
  }

  /** In every run a request hears that it is done exactly if its transaction was committed. */
  lemma DoneIffCommitted(s: State, run: seq<Event>, t: Txn)
    requires Initial(s) && Valid(s, run) && t in Exec(s, run).answers
    ensures Exec(s, run).answers[t] == Done <==> CommitTxn(t) in run
    ensures Exec(s, run).answers[t] == Crashed <==> Abort(t) in run
  {
    RunTells(s, [], run);
    assert [] + run == run;
  }

  /**
   * A duplicate submit, with a night of the original booking among its own, is refused for its
   * dates while the original has its nights: the check of the nights comes before the insert.
   */
  lemma DuplicateSubmitFindsNightsTaken(s: State, run: seq<Event>, op: Op, original: BookingId, d: Day)
    requires Initial(s) && Valid(s, run) && NoneReconfirmed(s, run) && op.CreateBooking?
    requires var end := Exec(s, run);
             && original in end.db.stays && end.db.stays[original].key == op.key
             && Occupies(end.db.stays[original], d) && op.checkIn <= d < op.checkOut
    ensures Outcome(Exec(s, run).db, op, Exec(s, run).today) == Err(DatesUnavailable)
  {
    TableIsLayeredView(s, run);
    var end := Exec(s, run);
    assert Reserved(end.db.stays, d) && HasSource(end.db.table, d, FromBooking);
    assert d in Nights(op.checkIn, op.checkOut);
  }
}
