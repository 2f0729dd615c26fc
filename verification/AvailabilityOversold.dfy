/** From an empty property to a night sold twice: one run with a cancellation, a partial refund and three guests. */
module AvailabilityOversold {
  import opened Wrappers
  import opened AvailabilityTable
  import opened AvailabilityTransactions
  import opened AvailabilityLocks
  import opened AvailabilityRefunds

  lemma {:induction false} Snoc(s: State, run: seq<Event>, e: Event)
    requires Valid(s, run) && Enabled(Exec(s, run), e)
    ensures Valid(s, run + [e]) && Exec(s, run + [e]) == Apply(Exec(s, run), e)
    decreases |run|
  {
    if run == [] {
      assert ([e])[1..] == [];
    } else {
      Snoc(Apply(s, run[0]), run[1..], e);
      assert (run + [e])[1..] == run[1..] + [e];
    }
  }

  // ----- a transaction that nothing interleaves with

  predicate Idle(s: State) {
    s.holder == None && s.rowLocks == map[] && s.txns == map[]
  }

  function Alone(t: Txn, op: Op): seq<Event> {
    [Begin(t, op), Acquire(t), Execute(t), CommitTxn(t)]
  }

  /** The transaction holds the lock, and its booking row if it locks one. */
  ghost predicate HoldsAlone(s: State, t: Txn, op: Op) {
    && s.holder == Some(t) && s.txns.Keys == {t} && s.txns[t] == Holding(op, s.today)
    && (forall id | id in s.rowLocks :: s.rowLocks[id] == t)
  }

  function Afterwards(s: State, t: Txn, op: Op): State
    requires Outcome(s.db, op, s.today).Ok?
  {
    s.(db := Outcome(s.db, op, s.today).value, hostNights := HostNightsAfter(s.db, op, s.hostNights), answers := s.answers[t := Done],
       holder := None, rowLocks := map[], txns := map[])
  }

  lemma GetsLock(s: State, before: seq<Event>, t: Txn, op: Op) returns (run: seq<Event>)
    requires Valid(s, before)
    requires Idle(Exec(s, before)) && Enabled(Exec(s, before), Begin(t, op))
    requires op.CreateBooking? ==> !KeyTaken(Exec(s, before).db, op.key)
    ensures run == before + [Begin(t, op), Acquire(t)] && Valid(s, run) && HoldsAlone(Exec(s, run), t, op)
    ensures var x, y := Exec(s, before), Exec(s, run);
            y.db == x.db && y.today == x.today && y.answers == x.answers && y.hostNights == x.hostNights
  {
    hide Exec, Valid, KeyTaken;
    Snoc(s, before, Begin(t, op));
    Snoc(s, before + [Begin(t, op)], Acquire(t));
    run := before + [Begin(t, op)] + [Acquire(t)];
  }

  lemma EndsAlone(s: State, t: Txn)
    requires s.holder == Some(t) && s.txns.Keys == {t} && forall id | id in s.rowLocks :: s.rowLocks[id] == t
    ensures End(s, t) == s.(holder := None, rowLocks := map[], txns := map[])
  {}

  /** The transaction has run and not yet committed. */
  function Ran(s: State, t: Txn, op: Op): State
    requires Outcome(s.db, op, s.today).Ok?
  {
    s.(txns := s.txns[t := Ready(op, s.today, WritesOf(s.db, op, Outcome(s.db, op, s.today).value))])
  }

  lemma ExecutesAlone(s: State, t: Txn, op: Op)
    requires HoldsAlone(s, t, op) && Outcome(s.db, op, s.today).Ok?
    ensures Enabled(s, Execute(t)) && Apply(s, Execute(t)) == Ran(s, t, op)
  {
    hide Outcome, WritesOf;
  }

  lemma CommitsAlone(s: State, t: Txn, op: Op)
    requires HoldsAlone(s, t, op) && Outcome(s.db, op, s.today).Ok?
    ensures Enabled(Ran(s, t, op), CommitTxn(t))
    ensures Apply(Ran(s, t, op), CommitTxn(t)) == Afterwards(s, t, op)
  {
    CommitGivesOutcome(s.db, op, s.today);
    EndsAlone(Ran(s, t, op), t);
    hide Outcome, HostNightsAfter, Commit, End;
  }

  lemma Finishes(s: State, before: seq<Event>, t: Txn, op: Op) returns (run: seq<Event>)
    requires Valid(s, before) && HoldsAlone(Exec(s, before), t, op)
    requires Outcome(Exec(s, before).db, op, Exec(s, before).today).Ok?
    ensures run == before + [Execute(t), CommitTxn(t)] && Valid(s, run)
    ensures Exec(s, run) == Afterwards(Exec(s, before), t, op)
  {
    hide *;
    var x := Exec(s, before);
    ExecutesAlone(x, t, op);
    CommitsAlone(x, t, op);
    Snoc(s, before, Execute(t));
    Snoc(s, before + [Execute(t)], CommitTxn(t));
    run := before + [Execute(t)] + [CommitTxn(t)];
  }

  lemma RunAlone(s: State, before: seq<Event>, t: Txn, op: Op) returns (run: seq<Event>)
    requires Valid(s, before)
    requires var x := Exec(s, before);
             && Idle(x) && Enabled(x, Begin(t, op)) && Outcome(x.db, op, x.today).Ok?
             && (op.CreateBooking? ==> !KeyTaken(x.db, op.key))
    ensures run == before + Alone(t, op) && Valid(s, run) && Exec(s, run) == Afterwards(Exec(s, before), t, op)
  {
    hide Exec, Valid, Outcome, KeyTaken, HostNightsAfter, Enabled, HoldsAlone;
    var locked := GetsLock(s, before, t, op);
    run := Finishes(s, locked, t, op);
    assert run == before + Alone(t, op);
  }

  // ----- what the transactions of the run do

  /** Nothing but bookings of this property: no feed, no host block, no key of another property. */
  ghost predicate OnlyBookings(db: Db) {
    && (forall f :: f !in db.feeds) && (forall key :: key !in db.otherKeys)
    && (forall d :: !HasSource(db.table, d, FromHost))
  }

  lemma Booked(db: Db, id: BookingId, key: IdempotencyKey, d: Day, today: Day)
    requires OnlyBookings(db) && d !in db.table && forall other | other in db.stays :: db.stays[other].key != key
    ensures var result := Outcome(db, CreateBooking(id, key, d, d + 1), today);
            result.Ok? && OnlyBookings(result.value) && result.value.stays == db.stays[id := NewStay(key, d, d + 1)]
  {
    assert NightsFree(db.table, d, d + 1);
    var table := Book(db.table, d, d + 1);
    assert forall day | HasSource(table, day, FromHost) :: HasSource(db.table, day, FromHost);
  }

  lemma Released(db: Db, id: BookingId, d: Day, today: Day)
    requires OnlyBookings(db) && id in db.stays && db.stays[id].checkIn == d && db.stays[id].checkOut == d + 1 && today <= d
    ensures var result := Outcome(db, CancelBooking(id), today);
            && result.Ok? && OnlyBookings(result.value) && d !in result.value.table
            && result.value.stays == db.stays[id := db.stays[id].(status := Cancelled, freed := true)]
  {
    var rows := DeleteBookingRows(db.table, d, d + 1);
    assert forall d :: !Covers(db.feeds, d);
    forall day ensures !HasSource(Reconcile(rows, db.feeds, today), day, FromHost) && (day == d ==> At(Reconcile(rows, db.feeds, today), day) == None) {
      ReconcileAt(rows, db.feeds, today, day);
      assert !HasSource(db.table, day, FromHost);
    }
    assert At(Reconcile(rows, db.feeds, today), d) == None;
    hide Reconcile;
  }

  // ----- the run

  /** The first guest books the night of `d` and cancels, and a second guest books it. */
  function Resold(d: Day): seq<Event> {
    Alone(0, CreateBooking(0, 0, d, d + 1)) + Alone(1, CancelBooking(0)) + Alone(2, CreateBooking(1, 1, d, d + 1))
  }

  /** A partial refund confirms the first booking, which is cancelled again, and a third guest books. */
  function Oversold(d: Day): seq<Event> {
    [WebhookStatus(0, Confirmed)] + Alone(3, CancelBooking(0)) + Alone(4, CreateBooking(2, 2, d, d + 1))
  }

  /** Between two transactions: so many have been answered, and the first booking has these nights and this status. */
  ghost predicate Between(s: State, d: Day, answered: nat, first: Stay, bookings: nat) {
    && Idle(s) && s.today <= d && OnlyBookings(s.db)
    && (forall t | t in s.answers :: t < answered)
    && (forall id | id in s.db.stays :: id < bookings && s.db.stays[id].key == id)
    && 0 in s.db.stays && s.db.stays[0] == first
    && (bookings > 1 ==> 1 in s.db.stays && s.db.stays[1] == NewStay(1, d, d + 1))
  }

  lemma EmptyProperty(s: State, d: Day)
    requires Initial(s)
    ensures Idle(s) && OnlyBookings(s.db) && d !in s.db.table && Enabled(s, Begin(0, CreateBooking(0, 0, d, d + 1)))
    ensures (forall id :: id !in s.db.stays) && (forall t :: t !in s.answers) && Valid(s, []) && Exec(s, []) == s
  {}

  lemma FirstGuestBooks(s: State, d: Day) returns (run: seq<Event>)
    requires Initial(s) && s.today <= d
    ensures run == Alone(0, CreateBooking(0, 0, d, d + 1)) && Valid(s, run)
    ensures Between(Exec(s, run), d, 1, NewStay(0, d, d + 1), 1)
  {
    EmptyProperty(s, d);
    Booked(s.db, 0, 0, d, s.today);
    hide Exec, Valid, Outcome, OnlyBookings, Enabled, Initial;
    run := RunAlone(s, [], 0, CreateBooking(0, 0, d, d + 1));
  }

  /** A guest books under the next key. */
  lemma NextGuestBooks(s: State, before: seq<Event>, d: Day, answered: nat, first: Stay, bookings: nat) returns (run: seq<Event>)
    requires Valid(s, before) && Between(Exec(s, before), d, answered, first, bookings)
    requires bookings > 0 && d !in Exec(s, before).db.table
    ensures run == before + Alone(answered, CreateBooking(bookings, bookings, d, d + 1)) && Valid(s, run)
    ensures Between(Exec(s, run), d, answered + 1, first, bookings + 1)
    ensures Exec(s, run).db == Outcome(Exec(s, before).db, CreateBooking(bookings, bookings, d, d + 1), Exec(s, before).today).value
  {
    var x, op := Exec(s, before), CreateBooking(bookings, bookings, d, d + 1);
    Booked(x.db, bookings, bookings, d, x.today);
    assert !KeyTaken(x.db, bookings) by {
      assert forall id | id in x.db.stays :: x.db.stays[id].key != bookings;
    }
    assert Enabled(x, Begin(answered, op));
    hide Exec, Valid, Outcome, OnlyBookings, Enabled, KeyTaken;
    run := RunAlone(s, before, answered, op);
  }

  /** The first booking is cancelled, whoever has its night. */
  lemma FirstBookingCancelled(s: State, before: seq<Event>, d: Day, answered: nat, first: Stay, bookings: nat) returns (run: seq<Event>)
    requires Valid(s, before) && Between(Exec(s, before), d, answered, first, bookings)
    requires first.checkIn == d && first.checkOut == d + 1 && first.status in {PendingPayment, Confirmed}
    ensures run == before + Alone(answered, CancelBooking(0)) && Valid(s, run)
    ensures Between(Exec(s, run), d, answered + 1, first.(status := Cancelled, freed := true), bookings)
    ensures d !in Exec(s, run).db.table
  {
    var x := Exec(s, before);
    Released(x.db, 0, d, x.today);
    assert Enabled(x, Begin(answered, CancelBooking(0)));
    hide Exec, Valid, Outcome, OnlyBookings, Enabled;
    run := RunAlone(s, before, answered, CancelBooking(0));
  }

  lemma SecondGuestBooks(s: State, d: Day) returns (run: seq<Event>)
    requires Initial(s) && s.today <= d
    ensures run == Resold(d) && Valid(s, run) && Between(Exec(s, run), d, 3, Stay(0, d, d + 1, Cancelled, true), 2)
  {
    hide Exec, Valid, Between;
    run := FirstGuestBooks(s, d);
    run := FirstBookingCancelled(s, run, d, 1, NewStay(0, d, d + 1), 1);
    run := NextGuestBooks(s, run, d, 2, Stay(0, d, d + 1, Cancelled, true), 1);
  }

  lemma RefundConfirms(s: State, before: seq<Event>, d: Day) returns (run: seq<Event>)
    requires Valid(s, before) && Between(Exec(s, before), d, 3, Stay(0, d, d + 1, Cancelled, true), 2)
    ensures run == before + [WebhookStatus(0, Confirmed)] && Valid(s, run)
    ensures Between(Exec(s, run), d, 3, Stay(0, d, d + 1, Confirmed, true), 2)
  {
    hide Exec, Valid;
    Snoc(s, before, WebhookStatus(0, Confirmed));
    run := before + [WebhookStatus(0, Confirmed)];
  }

  /** Whoever books the night now has it beside the second guest. */
  lemma SoldTwice(x: State, d: Day, first: Stay)
    requires Between(x, d, 4, first, 2) && d !in x.db.table
    ensures var result := Outcome(x.db, CreateBooking(2, 2, d, d + 1), x.today);
            result.Ok? && !NoDoubleBooking(result.value.stays)
  {
    assert !KeyTaken(x.db, 2) && 2 !in x.db.stays;
    NightIsSoldTwice(x.db, x.today, 1, d, 2, 2);
    hide Outcome, NoDoubleBooking;
  }

  lemma ThirdGuestBooks(s: State, before: seq<Event>, d: Day) returns (run: seq<Event>)
    requires Valid(s, before) && Between(Exec(s, before), d, 3, Stay(0, d, d + 1, Cancelled, true), 2)
    ensures run == before + Oversold(d) && Valid(s, run)
    ensures Between(Exec(s, run), d, 5, Stay(0, d, d + 1, Cancelled, true), 3) && !NoDoubleBooking(Exec(s, run).db.stays)
  {
    hide Exec, Valid, NoDoubleBooking, Between, Outcome;
    run := RefundConfirms(s, before, d);
    run := FirstBookingCancelled(s, run, d, 3, Stay(0, d, d + 1, Confirmed, true), 2);
    SoldTwice(Exec(s, run), d, Stay(0, d, d + 1, Cancelled, true));
    run := NextGuestBooks(s, run, d, 4, Stay(0, d, d + 1, Cancelled, true), 2);
    assert run == before + Oversold(d);
  }

  /**
   * On every property and for every night from the first day on, with no two transactions
   * interleaved and nobody but guests and one partial refund acting: two live bookings get the night.
   */
  lemma OversoldFromTheStart(s: State, d: Day)
    requires Initial(s) && s.today <= d
    ensures Valid(s, Resold(d) + Oversold(d)) && !NoDoubleBooking(Exec(s, Resold(d) + Oversold(d)).db.stays)
  {
    var resold := SecondGuestBooks(s, d);
    var run := ThirdGuestBooks(s, resold, d);
    hide Exec, Valid, NoDoubleBooking;
  }
}
