/** What refund and dispute webhooks do to bookings and nights, outside the property lock. */
module AvailabilityRefunds {
  import opened Wrappers
  import opened AvailabilityTable
  import opened AvailabilityTransactions
  import opened AvailabilityLocks

  function WithStatus(db: Db, id: BookingId, status: BookingStatus): Db
    requires id in db.stays
  {
    db.(stays := db.stays[id := db.stays[id].(status := status)])
  }

  /** The status tells whether the nights were released. */
  ghost predicate StatusTellsNights(stays: map<BookingId, Stay>) {
    forall id | id in stays :: Live(stays[id]) <==> stays[id].status != Cancelled
  }

  /**
   * Partial refunds write `confirmed`, full ones `refunded`, disputes `disputed`, whatever the
   * status was. Afterwards the status still tells whether the nights were released exactly when
   * they had not been.
   */
  lemma StatusTellsNightsIff(db: Db, id: BookingId, status: BookingStatus)
    requires StatusTellsNights(db.stays) && id in db.stays && status in {Confirmed, Refunded, Disputed}
    ensures StatusTellsNights(WithStatus(db, id, status).stays) <==> Live(db.stays[id])
  {
    var stays := WithStatus(db, id, status).stays;
    assert stays[id].status == status && stays[id].freed == db.stays[id].freed;
    if Live(db.stays[id]) {
      assert forall other | other in stays && other != id :: stays[other] == db.stays[other];
    }
  }

  /** Only `confirmed` over a released booking makes it releasable a second time. */
  lemma ReleasableStaysLiveIff(db: Db, id: BookingId, status: BookingStatus)
    requires ReleasableIsLive(db.stays) && id in db.stays && status in {Confirmed, Refunded, Disputed}
    ensures ReleasableIsLive(WithStatus(db, id, status).stays) <==> !(status == Confirmed && db.stays[id].freed)
  {
    var stays := WithStatus(db, id, status).stays;
    assert stays[id].status == status && stays[id].freed == db.stays[id].freed;
    assert forall other | other in stays && other != id :: stays[other] == db.stays[other];
  }

  /**
   * A booking confirmed again after its nights were released can be cancelled again, and this frees
   * the nights of whoever has booked them since: the other booking stays and its rows are gone.
   */
  lemma SecondCancellationFreesOthers(db: Db, hostNights: set<Day>, today: Day, id: BookingId, other: BookingId, d: Day)
    requires Layered(db, hostNights, today) && id in db.stays && other in db.stays && id != other
    requires db.stays[id].freed && Occupies(db.stays[other], d) && db.stays[id].checkIn <= d < db.stays[id].checkOut && today <= d
    ensures var confirmed := WithStatus(db, id, Confirmed);
            var result := Outcome(confirmed, CancelBooking(id), today);
            && RowCheck(confirmed.stays[id], CancelBooking(id)) && result.Ok?
            && other in result.value.stays && Occupies(result.value.stays[other], d)
            && !HasSource(result.value.table, d, FromBooking)
            && At(result.value.table, d) == if Covers(db.feeds, d) then Some(IMPORTED_ROW) else None
  {
    var confirmed := WithStatus(db, id, Confirmed);
    var stay := confirmed.stays[id];
    ReconcileAt(DeleteBookingRows(db.table, stay.checkIn, stay.checkOut), db.feeds, today, d);
    assert Shows(At(db.table, d), Reserved(db.stays, d), d in hostNights, Covers(db.feeds, d), d < today);
  }

  /** After that the night can be sold again, and two live bookings have it. */
  lemma NightIsSoldTwice(db: Db, today: Day, other: BookingId, d: Day, created: BookingId, key: IdempotencyKey)
    requires other in db.stays && Occupies(db.stays[other], d) && d !in db.table
    requires created !in db.stays && !KeyTaken(db, key)
    ensures var result := Outcome(db, CreateBooking(created, key, d, d + 1), today);
            result.Ok? && !NoDoubleBooking(result.value.stays)
  {
    var op := CreateBooking(created, key, d, d + 1);
    assert NightsFree(db.table, d, d + 1);
    var after := Outcome(db, op, today).value;
    assert Occupies(after.stays[created], d) && Occupies(after.stays[other], d);
  }

  // ----- exactly when the view is lost

  /** A booking's nights are released a second time, and by now another booking has one of them. */
  ghost predicate TakesNights(db: Db, op: Op) {
    LocksBooking(op) && op.id in db.stays && db.stays[op.id].freed
    && exists d :: db.stays[op.id].checkIn <= d < db.stays[op.id].checkOut && Reserved(db.stays, d)
  }

  /** Releasing a booking that has no nights any more changes no booking's nights. */
  lemma FreedAgainReserves(stays: map<BookingId, Stay>, id: BookingId, d: Day)
    requires id in stays && stays[id].freed
    ensures Reserved(stays[id := stays[id].(status := Cancelled, freed := true)], d) <==> Reserved(stays, d)
  {
    var after := stays[id := stays[id].(status := Cancelled, freed := true)];
    if Reserved(stays, d) {
      var other :| other in stays && Occupies(stays[other], d);
      assert Occupies(after[other], d);
    }
    if Reserved(after, d) {
      var other :| other in after && Occupies(after[other], d);
      assert Occupies(stays[other], d);
    }
  }

  lemma TakenNightIsLost(db: Db, op: Op, hostNights: set<Day>, began: Day, today: Day)
    requires Layered(db, hostNights, today) && TakesNights(db, op)
    ensures Outcome(db, op, began).Ok? && !Layered(Outcome(db, op, began).value, hostNights, today)
  {
    var stay := db.stays[op.id];
    var d :| stay.checkIn <= d < stay.checkOut && Reserved(db.stays, d);
    var rows := DeleteBookingRows(db.table, stay.checkIn, stay.checkOut);
    DeletesAgree(db, hostNights, today, stay.checkIn, stay.checkOut);
    FreedAgainReserves(db.stays, op.id, d);
    ReconcileAt(rows, db.feeds, began, d);
    var after := Outcome(db, op, began).value;
    assert after == Freed(db, op.id, rows, began);
    assert Shows(At(db.table, d), true, d in hostNights, Covers(db.feeds, d), d < today);
    assert d !in rows;
    assert !Shows(At(after.table, d), Reserved(after.stays, d), d in hostNights, Covers(after.feeds, d), d < today);
  }

  lemma NothingToTake(db: Db, op: Op, hostNights: set<Day>, began: Day, today: Day)
    requires Layered(db, hostNights, today) && began <= today && !TakesNights(db, op)
    requires LocksBooking(op) && op.id in db.stays && db.stays[op.id].freed
    ensures Outcome(db, op, began).Ok? && Layered(Outcome(db, op, began).value, hostNights, today)
  {
    var stay := db.stays[op.id];
    NothingDeleted(db, hostNights, today, stay.checkIn, stay.checkOut);
    FeedsKeepLayers(db, db.feeds, hostNights, began, today);
    hide Layered, Reconcile, DeleteBookingRows, DeleteBookedRows;
    SameOccupancy(WithFeeds(db, db.feeds, began), op.id, hostNights, today);
  }

  lemma SameOccupancy(db: Db, id: BookingId, hostNights: set<Day>, today: Day)
    requires Layered(db, hostNights, today) && id in db.stays && db.stays[id].freed
    ensures Layered(db.(stays := db.stays[id := db.stays[id].(status := Cancelled, freed := true)]), hostNights, today)
  {
    var stays := db.stays[id := db.stays[id].(status := Cancelled, freed := true)];
    forall d ensures Reserved(stays, d) <==> Reserved(db.stays, d) {
      FreedAgainReserves(db.stays, id, d);
    }
    assert forall other, d | other in stays :: Occupies(stays[other], d) <==> Occupies(db.stays[other], d);
    hide Reserved;
  }

  lemma NothingDeleted(db: Db, hostNights: set<Day>, today: Day, checkIn: Day, checkOut: Day)
    requires Layered(db, hostNights, today) && forall d | checkIn <= d < checkOut :: !Reserved(db.stays, d)
    ensures DeleteBookingRows(db.table, checkIn, checkOut) == db.table == DeleteBookedRows(db.table, checkIn, checkOut)
  {
    DeletesAgree(db, hostNights, today, checkIn, checkOut);
    LayersSpelledOut(db, hostNights, today);
    hide Layered, Reserved;
    forall d | d in db.table && checkIn <= d < checkOut ensures db.table[d].source != FromBooking {
      assert !Reserved(db.stays, d) && !HasSource(db.table, d, FromBooking);
    }
  }

  /** A committed transaction loses the view exactly when it takes another booking's nights. */
  lemma CommitKeepsLayersIff(s: State, t: Txn)
    requires LockInv(s) && Layered(s.db, s.hostNights, s.today) && Enabled(s, CommitTxn(t))
    ensures var after := Apply(s, CommitTxn(t));
            Layered(after.db, after.hostNights, after.today) <==> !TakesNights(s.db, s.txns[t].op)
  {
    var op, began := s.txns[t].op, s.txns[t].began;
    CommitGivesOutcome(s.db, op, began);
    hide Layered, TakesNights;
    if TakesNights(s.db, op) {
      TakenNightIsLost(s.db, op, s.hostNights, began, s.today);
    } else if LocksBooking(op) && s.db.stays[op.id].freed {
      NothingToTake(s.db, op, s.hostNights, began, s.today);
    } else {
      NotFreed(s.db, op);
      OutcomeKeepsLayers(s.db, op, s.hostNights, began, s.today);
    }
  }

  lemma NotFreed(db: Db, op: Op)
    requires !(LocksBooking(op) && op.id in db.stays && db.stays[op.id].freed)
    ensures !TakesNights(db, op)
  {}

  ghost predicate StepTakesNights(s: State, e: Event)
    requires Enabled(s, e)
  {
    e.CommitTxn? && TakesNights(s.db, s.txns[e.txn].op)
  }

  lemma StepKeepsLayersIff(s: State, e: Event)
    requires LockInv(s) && Layered(s.db, s.hostNights, s.today) && Enabled(s, e)
    ensures var after := Apply(s, e);
            Layered(after.db, after.hostNights, after.today) <==> !StepTakesNights(s, e)
  {
    match e
    case CommitTxn(t) => CommitKeepsLayersIff(s, t);
    case ConfirmBooking(id) => StatusChangeKeepsLayers(s, id, Confirmed);
    case CompleteStay(id) => StatusChangeKeepsLayers(s, id, Completed);
    case WebhookStatus(id, status) => StatusChangeKeepsLayers(s, id, status);
    case NextDay => DayPassesKeepsLayers(s.db, s.hostNights, s.today);
    case _ =>
  }

  ghost predicate LayeredThroughout(s: State, run: seq<Event>)
    requires Valid(s, run)
    decreases |run|
  {
    Layered(s.db, s.hostNights, s.today) && (run == [] || LayeredThroughout(Apply(s, run[0]), run[1..]))
  }

  ghost predicate NoneTaken(s: State, run: seq<Event>)
    requires Valid(s, run)
    decreases |run|
  {
    run == [] || (!StepTakesNights(s, run[0]) && NoneTaken(Apply(s, run[0]), run[1..]))
  }

  /**
   * For every run at all, whatever refunds and disputes write: the table is the layered view in each
   * of its states exactly when no commit releases an already released booking whose nights another
   * booking has by then.
   */
  lemma {:induction false} ViewStandsIff(s: State, run: seq<Event>)
    requires LockInv(s) && Layered(s.db, s.hostNights, s.today) && Valid(s, run)
    ensures LayeredThroughout(s, run) <==> NoneTaken(s, run)
    decreases |run|
  {
    hide LockInv, Layered, Apply, Enabled, StepTakesNights;
    if run != [] {
      StepKeepsLocks(s, run[0]);
      StepKeepsLayersIff(s, run[0]);
      if !StepTakesNights(s, run[0]) {
        ViewStandsIff(Apply(s, run[0]), run[1..]);
      }
    }
  }

  // ----- bookings that nothing releases

  /** No status that a cancellation, an expiry or a discard accepts. */
  predicate BeyondRelease(stay: Stay) {
    Live(stay) && stay.status in {Completed, Refunded, Disputed}
  }

  ghost predicate NeverConfirmed(run: seq<Event>, id: BookingId) {
    forall e | e in run :: e != WebhookStatus(id, Confirmed)
  }

  lemma BeyondReleaseStep(s: State, e: Event, id: BookingId)
    requires LockInv(s) && Enabled(s, e) && id in s.db.stays && BeyondRelease(s.db.stays[id]) && e != WebhookStatus(id, Confirmed)
    ensures var after := Apply(s, e).db.stays;
            && id in after && BeyondRelease(after[id])
            && after[id].checkIn == s.db.stays[id].checkIn && after[id].checkOut == s.db.stays[id].checkOut
  {
    if e.CommitTxn? {
      var t := e.txn;
      if s.txns[t].writes.stay.Some? {
        RunWritesOwnBooking(s.db, s.txns[t].op, s.txns[t].began);
      }
    }
  }

  /**
   * A booking that was refunded in full, disputed or completed without having been cancelled keeps
   * its nights through every further run, until a partial refund confirms it: nothing releases them.
   */
  lemma {:induction false} RefundedStayKeepsNights(s: State, run: seq<Event>, id: BookingId)
    requires LockInv(s) && Valid(s, run) && NeverConfirmed(run, id)
    requires id in s.db.stays && BeyondRelease(s.db.stays[id])
    ensures var after := Exec(s, run).db.stays;
            && id in after && BeyondRelease(after[id])
            && after[id].checkIn == s.db.stays[id].checkIn && after[id].checkOut == s.db.stays[id].checkOut
    decreases |run|
  {
    hide LockInv, BeyondRelease, Apply, Enabled;
    if run != [] {
      assert run[0] in run && forall e | e in run[1..] :: e in run;
      BeyondReleaseStep(s, run[0], id);
      StepKeepsLocks(s, run[0]);
      RefundedStayKeepsNights(Apply(s, run[0]), run[1..], id);
    }
  }
}
