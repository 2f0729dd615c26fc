/**
 * Concurrent transactions on one property. A transaction begins, waits for the
 * property's advisory lock, reads the committed tables while it holds the lock,
 * and makes its writes visible only at commit. Cancellations first lock their
 * booking row. Nothing but these two locks keeps the transactions apart.
 */
module AvailabilityLocks {
  import opened Wrappers
  import opened AvailabilityTable
  import opened AvailabilityTransactions

  type Txn = nat

  /** CURRENT_DATE is the day on which the transaction began. */
  datatype Phase =
    | Waiting(op: Op, began: Day)
    | Holding(op: Op, began: Day)
    | Ready(op: Op, began: Day, writes: Writes)

  /** How a transaction ended: with the booking found by its first read, committed, thrown, or cut off. */
  datatype Answer = Original(booking: BookingId) | Done | Refused(refusal: Refusal) | Crashed

  datatype State = State(
    today: Day,
    db: Db,                              // what has been committed
    holder: Option<Txn>,                 // the property's advisory lock
    rowLocks: map<BookingId, Txn>,
    txns: map<Txn, Phase>,
    answers: map<Txn, Answer>,           // history: the transactions that have ended
    hostNights: set<Day>)                // history: nights the host has blocked and not unblocked

  datatype Event =
    | Begin(txn: Txn, op: Op)
    | Acquire(txn: Txn)
    | Execute(txn: Txn)
    | CommitTxn(txn: Txn)
    | Abort(txn: Txn)
    | ConfirmBooking(id: BookingId)
    | CompleteStay(id: BookingId)
    | WebhookStatus(id: BookingId, status: BookingStatus)
    | OtherBooking(key: IdempotencyKey, id: BookingId)
    | NextDay

  predicate StatusChange(s: State, id: BookingId, from: BookingStatus) {
    id in s.db.stays && id !in s.rowLocks && s.db.stays[id].status == from
  }

  /** The nights are checked before the transaction begins; the new booking's identifier is fresh. */
  predicate MayCreate(s: State, op: Op)
    requires op.CreateBooking?
  {
    && op.checkIn < op.checkOut && op.id !in s.db.stays
    && forall u | u in s.txns && s.txns[u].op.CreateBooking? :: s.txns[u].op.id != op.id
  }

  /** A transaction that has inserted the key makes other inserts of it wait. */
  predicate KeyPending(s: State, key: IdempotencyKey) {
    exists t | t in s.txns :: s.txns[t].Ready? && s.txns[t].op.CreateBooking? && s.txns[t].op.key == key
  }

  predicate Enabled(s: State, e: Event) {
    match e
    case Begin(t, op) =>
      && t !in s.txns && t !in s.answers
      && (op.CreateBooking? ==> MayCreate(s, op))
      && (LocksBooking(op) ==> op.id !in s.rowLocks && op.id in s.db.stays && RowCheck(s.db.stays[op.id], op))
    case Acquire(t) => t in s.txns && s.txns[t].Waiting? && s.holder == None
    case Execute(t) => t in s.txns && s.txns[t].Holding?
    case CommitTxn(t) => t in s.txns && s.txns[t].Ready?
    case Abort(t) => t in s.txns
    case ConfirmBooking(id) => StatusChange(s, id, PendingPayment)
    case CompleteStay(id) => StatusChange(s, id, Confirmed)
    case WebhookStatus(id, status) => id in s.db.stays && id !in s.rowLocks && status in {Confirmed, Refunded, Disputed}
    case OtherBooking(key, _) => !KeyTaken(s.db, key) && !KeyPending(s, key)
    case NextDay => true
  }

  /** Commit and rollback both release every lock of the transaction. */
  function End(s: State, t: Txn): State {
    s.(txns := s.txns - {t},
       holder := if s.holder == Some(t) then None else s.holder,
       rowLocks := map id | id in s.rowLocks && s.rowLocks[id] != t :: s.rowLocks[id])
  }

  function SetStatus(s: State, id: BookingId, status: BookingStatus): State
    requires id in s.db.stays
  {
    s.(db := s.db.(stays := s.db.stays[id := s.db.stays[id].(status := status)]))
  }

  ghost function Apply(s: State, e: Event): State
    requires Enabled(s, e)
  {
    match e
    case Begin(t, op) =>
      // the first read of a create looks for its key and takes no lock
      if op.CreateBooking? && KeyTaken(s.db, op.key) then s.(answers := s.answers[t := Original(Holder(s.db, op.key))])
      else s.(txns := s.txns[t := Waiting(op, s.today)],
              rowLocks := if LocksBooking(op) then s.rowLocks[op.id := t] else s.rowLocks)
    case Acquire(t) =>
      s.(holder := Some(t), txns := s.txns[t := Holding(s.txns[t].op, s.txns[t].began)])
    case Execute(t) =>
      var op, began := s.txns[t].op, s.txns[t].began;
      (match Run(s.db, op, began)
       case Err(refusal) => End(s, t).(answers := s.answers[t := Refused(refusal)])
       case Ok(writes) => s.(txns := s.txns[t := Ready(op, began, writes)]))
    case CommitTxn(t) =>
      End(s, t).(db := Commit(s.db, s.txns[t].writes), hostNights := HostNightsAfter(s.db, s.txns[t].op, s.hostNights),
                 answers := s.answers[t := Done])
    case Abort(t) => End(s, t).(answers := s.answers[t := Crashed])
    case ConfirmBooking(id) => SetStatus(s, id, Confirmed)
    case CompleteStay(id) => SetStatus(s, id, Completed)
    case WebhookStatus(id, status) => SetStatus(s, id, status)
    case OtherBooking(key, id) => s.(db := s.db.(otherKeys := s.db.otherKeys[key := id]))
    case NextDay => s.(today := s.today + 1)
  }

  ghost predicate Valid(s: State, run: seq<Event>)
    decreases |run|
  {
    run == [] || (Enabled(s, run[0]) && Valid(Apply(s, run[0]), run[1..]))
  }

  ghost function Exec(s: State, run: seq<Event>): State
    requires Valid(s, run)
    decreases |run|
  {
    if run == [] then s else Exec(Apply(s, run[0]), run[1..])
  }

  predicate Initial(s: State) {
    && s.db == Db(map[], map[], map[], map[])
    && s.holder == None && s.rowLocks == map[] && s.txns == map[] && s.answers == map[] && s.hostNights == {}
  }

  // ----- the status writes of refunds

  /** A partial refund writes `confirmed` over a booking whose nights were released. */
  predicate Reconfirms(s: State, e: Event) {
    e.WebhookStatus? && e.status == Confirmed && e.id in s.db.stays && s.db.stays[e.id].freed
  }

  ghost predicate NoneReconfirmed(s: State, run: seq<Event>)
    requires Valid(s, run)
    decreases |run|
  {
    run == [] || (!Reconfirms(s, run[0]) && NoneReconfirmed(Apply(s, run[0]), run[1..]))
  }

  /** Whatever may still be cancelled, expired or discarded still has its nights. */
  ghost predicate ReleasableIsLive(stays: map<BookingId, Stay>) {
    forall id | id in stays && stays[id].status in {PendingPayment, Confirmed} :: Live(stays[id])
  }

  // ----- what the locks keep

  /** Only the lock's holder is past waiting. */
  ghost predicate LockOwned(s: State) {
    forall t | t in s.txns && !s.txns[t].Waiting? :: s.holder == Some(t)
  }

  /** A locked booking row still passes the check made when it was locked. */
  ghost predicate RowsLocked(s: State) {
    forall t | t in s.txns && LocksBooking(s.txns[t].op) ::
      var id := s.txns[t].op.id;
      id in s.rowLocks && s.rowLocks[id] == t && id in s.db.stays && RowCheck(s.db.stays[id], s.txns[t].op)
  }

  /** What a transaction is about to commit is what it would write if it ran now. */
  ghost predicate WritesCurrent(s: State) {
    forall t | t in s.txns && s.txns[t].Ready? :: Run(s.db, s.txns[t].op, s.txns[t].began) == Ok(s.txns[t].writes)
  }

  ghost predicate BeganBefore(s: State) {
    forall t | t in s.txns :: s.txns[t].began <= s.today
  }

  /** Running creates have identifiers of their own. */
  ghost predicate FreshCreates(s: State) {
    && (forall t | t in s.txns && s.txns[t].op.CreateBooking? :: s.txns[t].op.id !in s.db.stays)
    && (forall t, u | t in s.txns && u in s.txns && s.txns[t].op.CreateBooking? && s.txns[u].op.CreateBooking?
                      && s.txns[t].op.id == s.txns[u].op.id :: t == u)
  }

  /** What the locks and the unique constraint keep, in every run. */
  ghost predicate LockInv(s: State) {
    LockOwned(s) && RowsLocked(s) && WritesCurrent(s) && BeganBefore(s) && FreshCreates(s) && UniqueKeys(s.db)
  }

  /** What they keep of the view, unless a released booking is confirmed again. */
  ghost predicate ViewInv(s: State) {
    ReleasableIsLive(s.db.stays) && Layered(s.db, s.hostNights, s.today)
  }

  /** A transaction writes only the booking it created or locked. */
  lemma RunWritesOwnBooking(db: Db, op: Op, began: Day)
    requires Run(db, op, began).Ok? && Run(db, op, began).value.stay.Some?
    ensures var id := Run(db, op, began).value.stay.value.id;
            (LocksBooking(op) || op.CreateBooking?) && id == op.id
  {}

  /** The booking rows after a commit. */
  lemma CommittedStays(db: Db, op: Op, began: Day)
    requires Run(db, op, began).Ok?
    ensures var after := Commit(db, Run(db, op, began).value);
            && after.otherKeys == db.otherKeys
            && (op.CreateBooking? ==>
                  !KeyTaken(db, op.key) && after.stays == db.stays[op.id := NewStay(op.key, op.checkIn, op.checkOut)])
            && (LocksBooking(op) ==>
                  op.id in db.stays && after.stays == db.stays[op.id := db.stays[op.id].(status := Cancelled, freed := true)])
            && (!op.CreateBooking? && !LocksBooking(op) ==> after.stays == db.stays)
  {}

  lemma CommitKeepsUnique(db: Db, op: Op, began: Day)
    requires UniqueKeys(db) && Run(db, op, began).Ok? && (op.CreateBooking? ==> op.id !in db.stays)
    ensures UniqueKeys(Commit(db, Run(db, op, began).value))
  {
    CommittedStays(db, op, began);
    hide Run, Commit;
  }

  lemma CommitKeepsRowsLocked(s: State, t: Txn)
    requires RowsLocked(s) && WritesCurrent(s) && FreshCreates(s) && Enabled(s, CommitTxn(t))
    ensures RowsLocked(Apply(s, CommitTxn(t)))
  {
    hide Run, Commit, KeyTaken;
    var op, began := s.txns[t].op, s.txns[t].began;
    CommittedStays(s.db, op, began);
    var after := Apply(s, CommitTxn(t));
    forall u | u in after.txns && LocksBooking(after.txns[u].op)
      ensures var id := after.txns[u].op.id;
              id in after.rowLocks && after.rowLocks[id] == u && id in after.db.stays
              && RowCheck(after.db.stays[id], after.txns[u].op)
    {
      var id := s.txns[u].op.id;
      assert s.rowLocks[id] == u && id in s.db.stays;
      assert op.CreateBooking? || LocksBooking(op) ==> op.id != id;
    }
  }

  lemma CommitKeepsLocks(s: State, t: Txn)
    requires LockInv(s) && Enabled(s, CommitTxn(t))
    ensures LockInv(Apply(s, CommitTxn(t)))
  {
    hide Run, Commit, UniqueKeys, KeyTaken, RowsLocked;
    var op, began := s.txns[t].op, s.txns[t].began;
    CommittedStays(s.db, op, began);
    CommitKeepsUnique(s.db, op, began);
    CommitKeepsRowsLocked(s, t);
  }

  lemma CommitKeepsView(s: State, t: Txn)
    requires LockInv(s) && ViewInv(s) && Enabled(s, CommitTxn(t))
    ensures ViewInv(Apply(s, CommitTxn(t)))
  {
    var op, began := s.txns[t].op, s.txns[t].began;
    OutcomeKeepsLayers(s.db, op, s.hostNights, began, s.today);
    CommitGivesOutcome(s.db, op, began);
  }

  lemma KeysKept(stays: map<BookingId, Stay>, id: BookingId, stay: Stay, db: Db, key: IdempotencyKey)
    requires stays == db.stays && id in stays && stay.key == stays[id].key
    ensures KeyTaken(db.(stays := stays[id := stay]), key) <==> KeyTaken(db, key)
  {
    if other :| other in stays && stays[other].key == key {
      assert stays[id := stay][other].key == key;
    }
  }

  /** All that a transaction makes of the nights and feeds, whatever else has changed in the stays. */
  predicate SameNights(x: Result<Db, Refusal>, y: Result<Db, Refusal>) {
    match (x, y)
    case (Ok(a), Ok(b)) => a.table == b.table && a.feeds == b.feeds
    case (Err(a), Err(b)) => a == b
    case _ => false
  }

  lemma OwnStayDecides(a: Db, b: Db, op: Op, today: Day)
    requires LocksBooking(op) && a.table == b.table && a.feeds == b.feeds
    requires (op.id in a.stays <==> op.id in b.stays) && (op.id in a.stays ==> a.stays[op.id] == b.stays[op.id])
    ensures SameNights(Outcome(a, op, today), Outcome(b, op, today))
  {
    hide Reconcile, DeleteBookingRows, DeleteBookedRows;
  }

  lemma StaysDoNotMatter(a: Db, b: Db, op: Op, today: Day)
    requires !LocksBooking(op) && !op.CreateBooking? && a.table == b.table && a.feeds == b.feeds
    ensures SameNights(Outcome(a, op, today), Outcome(b, op, today))
  {
    hide Reconcile, MutateHost;
  }

  lemma KeysDecide(a: Db, b: Db, op: Op, today: Day)
    requires op.CreateBooking? && a.table == b.table && a.feeds == b.feeds && (KeyTaken(a, op.key) <==> KeyTaken(b, op.key))
    ensures SameNights(Outcome(a, op, today), Outcome(b, op, today))
  {
    hide NightsFree, Book, KeyTaken;
  }

  lemma StatusChangeKeepsOutcome(s: State, id: BookingId, status: BookingStatus, op: Op, began: Day)
    requires id in s.db.stays && (LocksBooking(op) ==> op.id != id)
    ensures SameNights(Outcome(s.db, op, began), Outcome(SetStatus(s, id, status).db, op, began))
  {
    hide Outcome, SameNights;
    var after := SetStatus(s, id, status).db;
    if op.CreateBooking? {
      KeysKept(s.db.stays, id, s.db.stays[id].(status := status), s.db, op.key);
      KeysDecide(s.db, after, op, began);
    } else if LocksBooking(op) {
      OwnStayDecides(s.db, after, op, began);
    } else {
      StaysDoNotMatter(s.db, after, op, began);
    }
  }

  lemma StatusChangeKeepsOwnStay(s: State, id: BookingId, status: BookingStatus, op: Op)
    requires id in s.db.stays && (LocksBooking(op) ==> op.id != id)
    ensures OwnStay(SetStatus(s, id, status).db, op) == OwnStay(s.db, op)
  {}

  /** A status written outside the property lock changes no transaction's writes. */
  lemma StatusChangeIsInvisible(s: State, id: BookingId, status: BookingStatus, op: Op, began: Day)
    requires id in s.db.stays && (LocksBooking(op) ==> op.id != id) && (op.CreateBooking? ==> op.id !in s.db.stays)
    ensures Run(SetStatus(s, id, status).db, op, began) == Run(s.db, op, began)
  {
    StatusChangeKeepsOutcome(s, id, status, op, began);
    StatusChangeKeepsOwnStay(s, id, status, op);
    hide Outcome, OwnStay, Changed, LocksBooking;
  }

  /** No status gives nights or takes them. */
  lemma StatusChangeKeepsLayers(s: State, id: BookingId, status: BookingStatus)
    requires Layered(s.db, s.hostNights, s.today) && id in s.db.stays
    ensures Layered(SetStatus(s, id, status).db, s.hostNights, s.today)
  {
    var stays := SetStatus(s, id, status).db.stays;
    assert forall other, d | other in stays :: Occupies(stays[other], d) <==> Occupies(s.db.stays[other], d);
    forall d ensures Reserved(stays, d) <==> Reserved(s.db.stays, d) {
      if Reserved(s.db.stays, d) {
        var other :| other in s.db.stays && Occupies(s.db.stays[other], d);
        assert Occupies(stays[other], d);
      }
    }
  }

  lemma StatusChangeKeepsLocks(s: State, id: BookingId, status: BookingStatus)
    requires LockInv(s) && id in s.db.stays && id !in s.rowLocks
    ensures LockInv(SetStatus(s, id, status))
  {
    forall t | t in s.txns && s.txns[t].Ready?
      ensures Run(SetStatus(s, id, status).db, s.txns[t].op, s.txns[t].began) == Ok(s.txns[t].writes)
    {
      StatusChangeIsInvisible(s, id, status, s.txns[t].op, s.txns[t].began);
    }
    hide Run;
  }

  /** Nor do the keys of other properties, as long as the transaction's own key is not among them. */
  lemma OtherKeyIsInvisible(db: Db, key: IdempotencyKey, id: BookingId, op: Op, began: Day)
    requires op.CreateBooking? ==> op.key != key
    ensures Run(db.(otherKeys := db.otherKeys[key := id]), op, began) == Run(db, op, began)
  {
    hide NightsFree, Book, DeleteBookingRows, DeleteBookedRows, Reconcile, MutateHost, Changed, NewStay;
  }

  lemma OtherBookingKeepsLocks(s: State, key: IdempotencyKey, id: BookingId)
    requires LockInv(s) && Enabled(s, OtherBooking(key, id))
    ensures LockInv(Apply(s, OtherBooking(key, id)))
  {
    forall t | t in s.txns && s.txns[t].Ready?
      ensures Run(s.db.(otherKeys := s.db.otherKeys[key := id]), s.txns[t].op, s.txns[t].began) == Ok(s.txns[t].writes)
    {
      OtherKeyIsInvisible(s.db, key, id, s.txns[t].op, s.txns[t].began);
    }
    hide Run;
  }

  /** The view keeps agreeing as days pass, with no transaction at all. */
  lemma DayPassesKeepsLayers(db: Db, hostNights: set<Day>, today: Day)
    requires Layered(db, hostNights, today)
    ensures Layered(db, hostNights, today + 1)
  {}

  /** Beginning commits nothing, */
  lemma BeginKeepsLocks(s: State, t: Txn, op: Op)
    requires LockInv(s) && Enabled(s, Begin(t, op))
    ensures LockInv(Apply(s, Begin(t, op)))
  {
    hide UniqueKeys, Run, KeyTaken;
  }

  /** nor do waiting, reading and giving up. */
  lemma QueueKeepsLocks(s: State, e: Event)
    requires LockInv(s) && Enabled(s, e) && (e.Acquire? || e.Execute? || e.Abort?)
    ensures LockInv(Apply(s, e))
  {
    hide UniqueKeys, Run, KeyTaken;
  }

  lemma StepKeepsLocks(s: State, e: Event)
    requires LockInv(s) && Enabled(s, e)
    ensures LockInv(Apply(s, e))
  {
    match e
    case Begin(t, op) => BeginKeepsLocks(s, t, op);
    case CommitTxn(t) => CommitKeepsLocks(s, t);
    case ConfirmBooking(id) => StatusChangeKeepsLocks(s, id, Confirmed);
    case CompleteStay(id) => StatusChangeKeepsLocks(s, id, Completed);
    case WebhookStatus(id, status) => StatusChangeKeepsLocks(s, id, status);
    case OtherBooking(key, id) => OtherBookingKeepsLocks(s, key, id);
    case NextDay =>
    case _ => QueueKeepsLocks(s, e);
  }

  lemma StepKeepsView(s: State, e: Event)
    requires LockInv(s) && ViewInv(s) && Enabled(s, e) && !Reconfirms(s, e)
    ensures ViewInv(Apply(s, e))
  {
    match e
    case CommitTxn(t) => CommitKeepsView(s, t);
    case ConfirmBooking(id) => StatusChangeKeepsLayers(s, id, Confirmed);
    case CompleteStay(id) => StatusChangeKeepsLayers(s, id, Completed);
    case WebhookStatus(id, status) => StatusChangeKeepsLayers(s, id, status);
    case NextDay => DayPassesKeepsLayers(s.db, s.hostNights, s.today);
    case _ =>
  }

  lemma {:induction false} RunKeepsLocks(s: State, run: seq<Event>)
    requires LockInv(s) && Valid(s, run)
    ensures LockInv(Exec(s, run))
    decreases |run|
  {
    hide LockInv, Apply, Enabled;
    if run != [] {
      StepKeepsLocks(s, run[0]);
      RunKeepsLocks(Apply(s, run[0]), run[1..]);
    }
  }

  lemma {:induction false} RunKeepsView(s: State, run: seq<Event>)
    requires LockInv(s) && ViewInv(s) && Valid(s, run) && NoneReconfirmed(s, run)
    ensures ViewInv(Exec(s, run))
    decreases |run|
  {
    hide LockInv, ViewInv, Apply, Enabled;
    if run != [] {
      StepKeepsLocks(s, run[0]);
      StepKeepsView(s, run[0]);
      RunKeepsView(Apply(s, run[0]), run[1..]);
    }
  }

  lemma InitialInv(s: State)
    requires Initial(s)
    ensures LockInv(s) && ViewInv(s)
  {}

  /**
   * In every reachable state of every interleaving, refunds and disputes included as long as none
   * writes `confirmed` over a released booking: no night has two bookings, booking rows are exactly
   * the nights of the bookings not cancelled, expired or discarded, and from today on a night shows
   * an imported row iff an active feed's event covers it and neither a booking nor the host has it.
   */
  lemma TableIsLayeredView(s: State, run: seq<Event>)
    requires Initial(s) && Valid(s, run) && NoneReconfirmed(s, run)
    ensures
      var end := Exec(s, run);
      && NoDoubleBooking(end.db.stays)
      && (forall d :: HasSource(end.db.table, d, FromBooking) <==> Reserved(end.db.stays, d))
      && (forall d :: HasSource(end.db.table, d, FromHost) <==> d in end.hostNights)
      && (forall d | end.today <= d :: HasSource(end.db.table, d, FromCalendar) <==>
            Covers(end.db.feeds, d) && !HasSource(end.db.table, d, FromBooking) && !HasSource(end.db.table, d, FromHost))
      && (forall d | d in end.db.table :: end.db.table[d].status != Available)
  {
    InitialInv(s);
    RunKeepsView(s, run);
    var end := Exec(s, run);
    LayersSpelledOut(end.db, end.hostNights, end.today);
  }

  /** The lock admits one transaction at a time past waiting. */
  lemma LockIsExclusive(s: State, run: seq<Event>, t: Txn, u: Txn)
    requires Initial(s) && Valid(s, run)
    requires t in Exec(s, run).txns && !Exec(s, run).txns[t].Waiting?
    requires u in Exec(s, run).txns && !Exec(s, run).txns[u].Waiting?
    ensures t == u
  {
    InitialInv(s);
    RunKeepsLocks(s, run);
  }

  /** A committed cancellation, expiry or discard frees exactly its own nights, down to the imported block. */
  lemma CancellationFreesItsOwnNights(s: State, t: Txn, d: Day)
    requires LockInv(s) && ViewInv(s) && Enabled(s, CommitTxn(t)) && LocksBooking(s.txns[t].op)
    ensures
      var stay := s.db.stays[s.txns[t].op.id];
      var after := Apply(s, CommitTxn(t)).db;
      && (Reserved(after.stays, d) <==> Reserved(s.db.stays, d) && !(stay.checkIn <= d < stay.checkOut))
      && (stay.checkIn <= d < stay.checkOut && s.today <= d ==>
            At(after.table, d) == if Covers(after.feeds, d) then Some(IMPORTED_ROW) else None)
  {
    var op := s.txns[t].op;
    var stay := s.db.stays[op.id];
    var after := Apply(s, CommitTxn(t));
    CommitKeepsView(s, t);
    FreeReserves(s.db.stays, op.id, d);
    CommitGivesOutcome(s.db, op, s.txns[t].began);
    assert stay.checkIn <= d < stay.checkOut ==> Occupies(stay, d);
    assert Shows(At(after.db.table, d), Reserved(after.db.stays, d), d in after.hostNights, Covers(after.db.feeds, d), d < s.today);
  }

  lemma TwoNewStays(stays: map<BookingId, Stay>, a: BookingId, stayA: Stay, b: BookingId, stayB: Stay)
    requires a != b && a !in stays && b !in stays
    requires NoDoubleBooking(stays[a := stayA]) && NoDoubleBooking(stays[b := stayB])
    ensures NoDoubleBooking(stays[a := stayA][b := stayB])
       <==> forall d :: !(Occupies(stayA, d) && Occupies(stayB, d))
  {
    var withA, withB := stays[a := stayA], stays[b := stayB];
    var both := withA[b := stayB];
    assert both[a] == stayA && both[b] == stayB;
    if forall d :: !(Occupies(stayA, d) && Occupies(stayB, d)) {
      forall x, y, d | x in both && y in both && Occupies(both[x], d) && Occupies(both[y], d) ensures x == y {
        if x != b && y != b {
          assert Occupies(withA[x], d) && Occupies(withA[y], d);
        } else if x != a && y != a {
          assert Occupies(withB[x], d) && Occupies(withB[y], d);
        }
      }
    }
  }

  lemma InterleavedCreates(db: Db, a: Op, b: Op, today: Day)
    requires a.CreateBooking? && b.CreateBooking? && Run(db, a, today).Ok? && Run(db, b, today).Ok?
    ensures Commit(Commit(db, Run(db, a, today).value), Run(db, b, today).value).stays
         == db.stays[a.id := NewStay(a.key, a.checkIn, a.checkOut)]
                    [b.id := NewStay(b.key, b.checkIn, b.checkOut)]
  {}

  lemma CreateAlone(db: Db, hostNights: set<Day>, today: Day, op: Op)
    requires Layered(db, hostNights, today) && op.CreateBooking? && op.id !in db.stays && Run(db, op, today).Ok?
    ensures NoDoubleBooking(db.stays[op.id := NewStay(op.key, op.checkIn, op.checkOut)])
  {
    CreateKeepsLayers(db, op, hostNights, today, today);
  }

  /** Two creates that both read before either commits would double-book exactly when they overlap. */
  lemma UnserialisedCreates(db: Db, hostNights: set<Day>, today: Day, a: Op, b: Op)
    requires Layered(db, hostNights, today) && a.CreateBooking? && b.CreateBooking? && a.id != b.id
    requires a.id !in db.stays && b.id !in db.stays
    requires Run(db, a, today).Ok? && Run(db, b, today).Ok?
    ensures NoDoubleBooking(Commit(Commit(db, Run(db, a, today).value), Run(db, b, today).value).stays)
       <==> forall d | d in Nights(a.checkIn, a.checkOut) :: d !in Nights(b.checkIn, b.checkOut)
  {
    var stayA, stayB := NewStay(a.key, a.checkIn, a.checkOut), NewStay(b.key, b.checkIn, b.checkOut);
    InterleavedCreates(db, a, b, today);
    CreateAlone(db, hostNights, today, a);
    CreateAlone(db, hostNights, today, b);
    TwoNewStays(db.stays, a.id, stayA, b.id, stayB);
    assert forall d :: Occupies(stayA, d) <==> d in Nights(a.checkIn, a.checkOut);
    assert forall d :: Occupies(stayB, d) <==> d in Nights(b.checkIn, b.checkOut);
  }
}
