/**
 * The six kinds of transaction that write one property's availability table,
 * each as what it would write when its statements read a given database, and
 * the layered view that all of them keep.
 */
module AvailabilityTransactions {
  import opened Wrappers
  import opened AvailabilityTable

  type BookingId = nat
  type IdempotencyKey = nat

  datatype BookingStatus = PendingPayment | Confirmed | Completed | Cancelled | Refunded | Disputed

  /** `freed` is history: a cancellation, an expiry or a discard has released the nights. */
  datatype Stay = Stay(key: IdempotencyKey, checkIn: Day, checkOut: Day, status: BookingStatus, freed: bool)

  /** The committed rows of one property, and the idempotency keys of the bookings of all others. */
  datatype Db = Db(table: Table, stays: map<BookingId, Stay>, feeds: map<FeedId, Feed>, otherKeys: map<IdempotencyKey, BookingId>)

  /** Why a transaction throws under the property lock. */
  datatype Refusal = DatesUnavailable | DuplicateKey | BookingMissing | FeedExists | TooManyFeeds | FeedMissing

  datatype Op =
    | CreateBooking(id: BookingId, key: IdempotencyKey, checkIn: Day, checkOut: Day)
    | CancelBooking(id: BookingId)
    | ReleaseExpiredHold(id: BookingId)
    | DiscardUnpaidBooking(id: BookingId)
    | MutateAvailability(checkIn: Day, checkOut: Day, action: Action)
    | CreateFeed(feed: FeedId)
    | SetFeedActive(feed: FeedId, active: bool)
    | DeleteFeed(feed: FeedId)
    | ReplaceFeedEvents(feed: FeedId, events: set<Interval>)

  predicate KeyTaken(db: Db, key: IdempotencyKey) {
    key in db.otherKeys || exists id | id in db.stays :: db.stays[id].key == key
  }

  /** The booking that `SELECT * FROM bookings WHERE idempotency_key = $1` finds. */
  ghost function Holder(db: Db, key: IdempotencyKey): (id: BookingId)
    requires KeyTaken(db, key)
    ensures if key in db.otherKeys then id == db.otherKeys[key] else id in db.stays && db.stays[id].key == key
  {
    if key in db.otherKeys then db.otherKeys[key] else var id :| id in db.stays && db.stays[id].key == key; id
  }

  /** The unique constraint on `idempotency_key`. */
  ghost predicate UniqueKeys(db: Db) {
    && (forall a, b | a in db.stays && b in db.stays && db.stays[a].key == db.stays[b].key :: a == b)
    && (forall id | id in db.stays :: db.stays[id].key !in db.otherKeys)
  }

  function NewStay(key: IdempotencyKey, checkIn: Day, checkOut: Day): Stay {
    Stay(key, checkIn, checkOut, PendingPayment, false)
  }

  // ----- what each transaction requires of the booking row it locked

  predicate LocksBooking(op: Op) {
    op.CancelBooking? || op.ReleaseExpiredHold? || op.DiscardUnpaidBooking?
  }

  /** The status check made when the booking row was locked. */
  predicate RowCheck(stay: Stay, op: Op) {
    match op
    case CancelBooking(_) => stay.status in {PendingPayment, Confirmed}
    case ReleaseExpiredHold(_) => stay.status == PendingPayment
    case DiscardUnpaidBooking(_) => stay.status == PendingPayment
    case _ => true
  }

  // ----- the statements under the property lock

  /** Frees the nights of a locked booking, reveals imported blocks, and marks it cancelled. */
  function Freed(db: Db, id: BookingId, rows: Table, today: Day): Db
    requires id in db.stays
  {
    db.(table := Reconcile(rows, db.feeds, today), stays := db.stays[id := db.stays[id].(status := Cancelled, freed := true)])
  }

  /** Feed rows and their events have changed; the table is reconciled with what they have become. */
  function WithFeeds(db: Db, feeds: map<FeedId, Feed>, today: Day): Db {
    db.(table := Reconcile(db.table, feeds, today), feeds := feeds)
  }

  /** What the transaction sees before it commits, having begun on day `today`, or why it throws. */
  function Outcome(db: Db, op: Op, today: Day): Result<Db, Refusal> {
    match op
    case CreateBooking(id, key, checkIn, checkOut) =>
      if !NightsFree(db.table, checkIn, checkOut) then Err(DatesUnavailable)
      else if KeyTaken(db, key) then Err(DuplicateKey)
      else Ok(db.(table := Book(db.table, checkIn, checkOut), stays := db.stays[id := NewStay(key, checkIn, checkOut)]))
    case CancelBooking(id) =>
      if id !in db.stays then Err(BookingMissing)
      else Ok(Freed(db, id, DeleteBookingRows(db.table, db.stays[id].checkIn, db.stays[id].checkOut), today))
    case ReleaseExpiredHold(id) =>
      if id !in db.stays then Err(BookingMissing)
      else Ok(Freed(db, id, DeleteBookedRows(db.table, db.stays[id].checkIn, db.stays[id].checkOut), today))
    case DiscardUnpaidBooking(id) =>
      if id !in db.stays then Err(BookingMissing)
      else Ok(Freed(db, id, DeleteBookedRows(db.table, db.stays[id].checkIn, db.stays[id].checkOut), today))
    case MutateAvailability(checkIn, checkOut, action) =>
      Ok(db.(table := MutateHost(db.table, checkIn, checkOut, action, db.feeds, today)))
    case CreateFeed(feed) =>
      if feed in db.feeds then Err(FeedExists)
      else if |db.feeds| >= 10 then Err(TooManyFeeds)
      else Ok(db.(feeds := db.feeds[feed := Feed(true, {})]))
    case SetFeedActive(feed, active) =>
      if feed !in db.feeds then Err(FeedMissing)
      else Ok(WithFeeds(db, db.feeds[feed := db.feeds[feed].(active := active)], today))
    case DeleteFeed(feed) =>
      if feed !in db.feeds then Err(FeedMissing) else Ok(WithFeeds(db, db.feeds - {feed}, today))
    case ReplaceFeedEvents(feed, events) =>
      if feed in db.feeds then Ok(WithFeeds(db, db.feeds[feed := db.feeds[feed].(events := events)], today))
      else if events == {} then Ok(WithFeeds(db, db.feeds, today))
      else Err(FeedMissing)  // the events' foreign key fails
  }

  // ----- writes and commit

  /** What a transaction has written and not yet committed: deletions and upserts, row by row. */
  datatype Writes = Writes(
    removedDays: set<Day>, rows: Table,
    stay: Option<StayWrite>,
    removedFeeds: set<FeedId>, feeds: map<FeedId, Feed>)

  datatype StayWrite = StayWrite(id: BookingId, stay: Stay)

  function Changed<K, V(==)>(before: map<K, V>, after: map<K, V>): map<K, V> {
    map k | k in after && !(k in before && before[k] == after[k]) :: after[k]
  }

  /** The booking row a transaction inserts or updates: the one it created or locked. */
  function OwnStay(db: Db, op: Op): Option<StayWrite> {
    if op.CreateBooking? then Some(StayWrite(op.id, NewStay(op.key, op.checkIn, op.checkOut)))
    else if LocksBooking(op) && op.id in db.stays then Some(StayWrite(op.id, db.stays[op.id].(status := Cancelled, freed := true)))
    else None
  }

  function WritesOf(db: Db, op: Op, after: Db): Writes {
    Writes(db.table.Keys - after.table.Keys, Changed(db.table, after.table),
           OwnStay(db, op),
           db.feeds.Keys - after.feeds.Keys, Changed(db.feeds, after.feeds))
  }

  /** Commit makes exactly the transaction's own writes visible in whatever is committed by then. */
  function Commit(db: Db, w: Writes): Db {
    db.(table := db.table - w.removedDays + w.rows,
        stays := if w.stay.Some? then db.stays[w.stay.value.id := w.stay.value.stay] else db.stays,
        feeds := db.feeds - w.removedFeeds + w.feeds)
  }

  function Run(db: Db, op: Op, today: Day): Result<Writes, Refusal> {
    match Outcome(db, op, today)
    case Ok(after) => Ok(WritesOf(db, op, after))
    case Err(refusal) => Err(refusal)
  }

  lemma ChangedApplies<K, V>(before: map<K, V>, after: map<K, V>)
    ensures before - (before.Keys - after.Keys) + Changed(before, after) == after
  {}

  /** What a transaction does to the booking rows, and that it leaves everybody else's keys alone. */
  ghost predicate OwnRowOnly(db: Db, op: Op, after: Db) {
    && after.otherKeys == db.otherKeys
    && match OwnStay(db, op)
       case None => after.stays == db.stays
       case Some(own) => after.stays == db.stays[own.id := own.stay]
  }

  lemma FreedOwnRowOnly(db: Db, op: Op, rows: Table, today: Day)
    requires LocksBooking(op) && op.id in db.stays
    ensures OwnRowOnly(db, op, Freed(db, op.id, rows, today))
  {
    hide Reconcile;
  }

  lemma OutcomeOwnRowOnly(db: Db, op: Op, today: Day)
    requires Outcome(db, op, today).Ok?
    ensures OwnRowOnly(db, op, Outcome(db, op, today).value)
  {
    hide NightsFree, Book, DeleteBookingRows, DeleteBookedRows, Reconcile, MutateHost, KeyTaken, NewStay;
    if LocksBooking(op) {
      var stay := db.stays[op.id];
      hide OwnRowOnly, Freed;
      FreedOwnRowOnly(db, op, if op.CancelBooking? then DeleteBookingRows(db.table, stay.checkIn, stay.checkOut)
                              else DeleteBookedRows(db.table, stay.checkIn, stay.checkOut), today);
    }
  }

  /** Committed where they were computed, the writes give the transaction's own view. */
  lemma CommitGivesOutcome(db: Db, op: Op, today: Day)
    requires Outcome(db, op, today).Ok?
    ensures Commit(db, Run(db, op, today).value) == Outcome(db, op, today).value
  {
    var after := Outcome(db, op, today).value;
    ChangedApplies(db.table, after.table);
    ChangedApplies(db.feeds, after.feeds);
    OutcomeOwnRowOnly(db, op, today);
    hide Changed, Outcome, OwnStay;
  }

  // ----- the layers

  /** The nights are still the booking's. */
  predicate Live(stay: Stay) {
    !stay.freed
  }

  predicate Occupies(stay: Stay, d: Day) {
    Live(stay) && stay.checkIn <= d < stay.checkOut
  }

  ghost predicate Reserved(stays: map<BookingId, Stay>, d: Day) {
    exists id | id in stays :: Occupies(stays[id], d)
  }

  /** No night belongs to two live bookings. */
  ghost predicate NoDoubleBooking(stays: map<BookingId, Stay>) {
    forall a, b, d | a in stays && b in stays && Occupies(stays[a], d) && Occupies(stays[b], d) :: a == b
  }

  /** What one night shows: a booking, else a host block, else an imported event from today on. */
  predicate Shows(row: Option<Row>, reserved: bool, hostBlocked: bool, covered: bool, past: bool) {
    if reserved then row == Some(BOOKED_ROW)
    else if hostBlocked then row == Some(HOST_ROW)
    else if past then row == None || row == Some(IMPORTED_ROW)
    else row == if covered then Some(IMPORTED_ROW) else None
  }

  /** The table is the materialised view of bookings, host blocks and imported events. */
  ghost predicate Layered(db: Db, hostNights: set<Day>, today: Day) {
    && NoDoubleBooking(db.stays)
    && (forall d | d in hostNights :: !Reserved(db.stays, d))
    && (forall d :: Shows(At(db.table, d), Reserved(db.stays, d), d in hostNights, Covers(db.feeds, d), d < today))
  }

  /** The view, layer by layer. */
  lemma LayersSpelledOut(db: Db, hostNights: set<Day>, today: Day)
    requires Layered(db, hostNights, today)
    ensures forall d :: HasSource(db.table, d, FromBooking) <==> Reserved(db.stays, d)
    ensures forall d :: HasSource(db.table, d, FromHost) <==> d in hostNights
    ensures forall d | today <= d :: HasSource(db.table, d, FromCalendar) <==>
              Covers(db.feeds, d) && !HasSource(db.table, d, FromBooking) && !HasSource(db.table, d, FromHost)
    ensures forall d | d in db.table ::
              db.table[d].status == if db.table[d].source == FromBooking then Booked else Blocked
  {
    forall d ensures HasSource(db.table, d, FromBooking) <==> Reserved(db.stays, d) {
      assert Shows(At(db.table, d), Reserved(db.stays, d), d in hostNights, Covers(db.feeds, d), d < today);
    }
    forall d ensures HasSource(db.table, d, FromHost) <==> d in hostNights {
      assert Shows(At(db.table, d), Reserved(db.stays, d), d in hostNights, Covers(db.feeds, d), d < today);
    }
    forall d | today <= d ensures HasSource(db.table, d, FromCalendar) <==>
        Covers(db.feeds, d) && !HasSource(db.table, d, FromBooking) && !HasSource(db.table, d, FromHost) {
      assert Shows(At(db.table, d), Reserved(db.stays, d), d in hostNights, Covers(db.feeds, d), d < today);
    }
    forall d | d in db.table
      ensures db.table[d].status == if db.table[d].source == FromBooking then Booked else Blocked {
      assert Shows(At(db.table, d), Reserved(db.stays, d), d in hostNights, Covers(db.feeds, d), d < today);
    }
  }

  /** The host layer after a committed transaction: only host actions change it. */
  function HostNightsAfter(db: Db, op: Op, hostNights: set<Day>): set<Day> {
    if !op.MutateAvailability? then hostNights
    else
      var written := set d | d in Nights(op.checkIn, op.checkOut) && HostWritable(db.table, d);
      if op.action == Block then hostNights + written else hostNights - written
  }

  // ----- every transaction keeps the layers

  lemma CreateReserves(stays: map<BookingId, Stay>, id: BookingId, stay: Stay, d: Day)
    requires id !in stays && Live(stay)
    ensures Reserved(stays[id := stay], d) <==> Reserved(stays, d) || stay.checkIn <= d < stay.checkOut
  {
    var after := stays[id := stay];
    assert Occupies(after[id], d) <==> stay.checkIn <= d < stay.checkOut;
    forall other | other in stays ensures after[other] == stays[other] {}
  }

  lemma CreateKeepsLayers(db: Db, op: Op, hostNights: set<Day>, began: Day, today: Day)
    requires Layered(db, hostNights, today) && op.CreateBooking? && op.id !in db.stays && Outcome(db, op, began).Ok?
    ensures Layered(Outcome(db, op, began).value, hostNights, today)
  {
    var after := Outcome(db, op, began).value;
    var stay := NewStay(op.key, op.checkIn, op.checkOut);
    forall d ensures
        && (op.checkIn <= d < op.checkOut ==> !Reserved(db.stays, d) && d !in hostNights)
        && (Reserved(after.stays, d) <==> Reserved(db.stays, d) || op.checkIn <= d < op.checkOut)
        && Shows(At(after.table, d), Reserved(after.stays, d), d in hostNights, Covers(db.feeds, d), d < today) {
      CreateReserves(db.stays, op.id, stay, d);
      assert Shows(At(db.table, d), Reserved(db.stays, d), d in hostNights, Covers(db.feeds, d), d < today);
      assert d in Nights(op.checkIn, op.checkOut) <==> op.checkIn <= d < op.checkOut;
    }
    forall a, b, d | a in after.stays && b in after.stays && Occupies(after.stays[a], d) && Occupies(after.stays[b], d)
      ensures a == b {
      assert a != op.id ==> a in db.stays && Occupies(db.stays[a], d);
      assert b != op.id ==> b in db.stays && Occupies(db.stays[b], d);
      assert op.checkIn <= d < op.checkOut ==> !Reserved(db.stays, d);
    }
  }

  lemma FreeReserves(stays: map<BookingId, Stay>, id: BookingId, d: Day)
    requires NoDoubleBooking(stays) && id in stays && Live(stays[id])
    ensures Reserved(stays[id := stays[id].(status := Cancelled, freed := true)], d)
       <==> Reserved(stays, d) && !(stays[id].checkIn <= d < stays[id].checkOut)
  {
    var after := stays[id := stays[id].(status := Cancelled, freed := true)];
    if Reserved(stays, d) {
      var other :| other in stays && Occupies(stays[other], d);
      assert other != id ==> Occupies(after[other], d);
      assert Occupies(stays[id], d) ==> other == id;
    }
    if Reserved(after, d) {
      var other :| other in after && Occupies(after[other], d);
      assert Occupies(stays[other], d);
    }
  }

  /** A locked booking frees only its own nights, and imported blocks under them show at once. */
  lemma FreedKeepsLayers(db: Db, id: BookingId, rows: Table, hostNights: set<Day>, began: Day, today: Day)
    requires Layered(db, hostNights, today) && began <= today && id in db.stays && Live(db.stays[id])
    requires rows == DeleteBookingRows(db.table, db.stays[id].checkIn, db.stays[id].checkOut)
    ensures Layered(Freed(db, id, rows, began), hostNights, today)
  {
    var stay := db.stays[id];
    var after := Freed(db, id, rows, began);
    forall d ensures
        && (Reserved(after.stays, d) ==> Reserved(db.stays, d))
        && Shows(At(after.table, d), Reserved(after.stays, d), d in hostNights, Covers(db.feeds, d), d < today) {
      FreeReserves(db.stays, id, d);
      ReconcileAt(rows, db.feeds, began, d);
      assert Shows(At(db.table, d), Reserved(db.stays, d), d in hostNights, Covers(db.feeds, d), d < today);
      assert stay.checkIn <= d < stay.checkOut ==> Occupies(stay, d);
    }
    forall a, b, d | a in after.stays && b in after.stays && Occupies(after.stays[a], d) && Occupies(after.stays[b], d)
      ensures a == b {
      assert Occupies(db.stays[a], d) && Occupies(db.stays[b], d);
    }
  }

  /** Deleting by source and deleting by source and status free the same rows. */
  lemma DeletesAgree(db: Db, hostNights: set<Day>, today: Day, checkIn: Day, checkOut: Day)
    requires Layered(db, hostNights, today)
    ensures DeleteBookedRows(db.table, checkIn, checkOut) == DeleteBookingRows(db.table, checkIn, checkOut)
  {
    LayersSpelledOut(db, hostNights, today);
  }

  lemma CancellationKeepsLayers(db: Db, op: Op, hostNights: set<Day>, began: Day, today: Day)
    requires Layered(db, hostNights, today) && began <= today
    requires LocksBooking(op) && op.id in db.stays && Live(db.stays[op.id])
    ensures Outcome(db, op, began).Ok? && Layered(Outcome(db, op, began).value, hostNights, today)
  {
    var stay := db.stays[op.id];
    var rows := DeleteBookingRows(db.table, stay.checkIn, stay.checkOut);
    DeletesAgree(db, hostNights, today, stay.checkIn, stay.checkOut);
    FreedKeepsLayers(db, op.id, rows, hostNights, began, today);
  }

  lemma HostKeepsLayers(db: Db, op: Op, hostNights: set<Day>, began: Day, today: Day)
    requires Layered(db, hostNights, today) && began <= today && op.MutateAvailability?
    ensures Layered(Outcome(db, op, began).value, HostNightsAfter(db, op, hostNights), today)
  {
    var table := MutateHost(db.table, op.checkIn, op.checkOut, op.action, db.feeds, began);
    var hostAfter := HostNightsAfter(db, op, hostNights);
    forall d ensures
        && !(d in hostAfter && Reserved(db.stays, d))
        && Shows(At(table, d), Reserved(db.stays, d), d in hostAfter, Covers(db.feeds, d), d < today) {
      MutateHostAt(db.table, op.checkIn, op.checkOut, op.action, db.feeds, began, d);
      assert Shows(At(db.table, d), Reserved(db.stays, d), d in hostNights, Covers(db.feeds, d), d < today);
      assert d in Nights(op.checkIn, op.checkOut) <==> op.checkIn <= d < op.checkOut;
    }
  }

  /** Whatever becomes of the feeds, reconciling the table with them restores the view. */
  lemma FeedsKeepLayers(db: Db, feeds: map<FeedId, Feed>, hostNights: set<Day>, began: Day, today: Day)
    requires Layered(db, hostNights, today) && began <= today
    ensures Layered(WithFeeds(db, feeds, began), hostNights, today)
  {}

  /** A new feed holds no events, so it covers nothing. */
  lemma NewFeedCovers(feeds: map<FeedId, Feed>, feed: FeedId, d: Day)
    requires feed !in feeds
    ensures Covers(feeds[feed := Feed(true, {})], d) <==> Covers(feeds, d)
  {
    var after := feeds[feed := Feed(true, {})];
    if Covers(feeds, d) {
      var f :| f in feeds && feeds[f].active && CoveredBy(feeds[f].events, d);
      assert after[f] == feeds[f];
    }
  }

  lemma NewFeedKeepsLayers(db: Db, feed: FeedId, hostNights: set<Day>, today: Day)
    requires Layered(db, hostNights, today) && feed !in db.feeds
    ensures Layered(db.(feeds := db.feeds[feed := Feed(true, {})]), hostNights, today)
  {
    forall d ensures Covers(db.feeds[feed := Feed(true, {})], d) <==> Covers(db.feeds, d) {
      NewFeedCovers(db.feeds, feed, d);
    }
  }

  /** Run in turn from a layered database, each transaction leaves a layered database. */
  lemma OutcomeKeepsLayers(db: Db, op: Op, hostNights: set<Day>, began: Day, today: Day)
    requires Layered(db, hostNights, today) && began <= today && Outcome(db, op, began).Ok?
    requires op.CreateBooking? ==> op.id !in db.stays
    requires LocksBooking(op) ==> op.id in db.stays && Live(db.stays[op.id])
    ensures Layered(Outcome(db, op, began).value, HostNightsAfter(db, op, hostNights), today)
  {
    match op
    case CreateBooking(_, _, _, _) => CreateKeepsLayers(db, op, hostNights, began, today);
    case MutateAvailability(_, _, _) => HostKeepsLayers(db, op, hostNights, began, today);
    case CreateFeed(feed) => NewFeedKeepsLayers(db, feed, hostNights, today);
    case SetFeedActive(_, _) => FeedsKeepLayers(db, Outcome(db, op, began).value.feeds, hostNights, began, today);
    case DeleteFeed(_) => FeedsKeepLayers(db, Outcome(db, op, began).value.feeds, hostNights, began, today);
    case ReplaceFeedEvents(_, _) => FeedsKeepLayers(db, Outcome(db, op, began).value.feeds, hostNights, began, today);
    case _ => CancellationKeepsLayers(db, op, hostNights, began, today);
  }
}
