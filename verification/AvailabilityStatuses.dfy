/** Where a booking's status comes from, in every run of transactions, status writes and days. */
module AvailabilityStatuses {
  import opened Wrappers
  import opened AvailabilityTable
  import opened AvailabilityTransactions
  import opened AvailabilityLocks

  /** The event commits the creation of this booking. */
  predicate Creates(s: State, e: Event, id: BookingId)
    requires Enabled(s, e)
  {
    e.CommitTxn? && s.txns[e.txn].op.CreateBooking? && s.txns[e.txn].op.id == id
  }

  /** The event commits the cancellation, the expiry or the discard of this booking. */
  predicate Releases(s: State, e: Event, id: BookingId)
    requires Enabled(s, e)
  {
    e.CommitTxn? && LocksBooking(s.txns[e.txn].op) && s.txns[e.txn].op.id == id
  }

  /** The status that the event writes for this booking outside any transaction, if it writes one. */
  function WrittenStatus(e: Event, id: BookingId): Option<BookingStatus> {
    match e
    case ConfirmBooking(other) => if other == id then Some(Confirmed) else None
    case CompleteStay(other) => if other == id then Some(Completed) else None
    case WebhookStatus(other, status) => if other == id then Some(status) else None
    case _ => None
  }

  /**
   * What one event does to one booking: its creation inserts it pending, with the key and the dates asked
   * for and its nights live; a release cancels it and gives its nights up; a status write changes the status
   * alone; nothing else touches it.
   */
  lemma StayAfter(s: State, e: Event, id: BookingId)
    requires LockInv(s) && Enabled(s, e)
    ensures var before, after := s.db.stays, Apply(s, e).db.stays;
            if Creates(s, e, id) then
              var op := s.txns[e.txn].op;
              && id !in before && id in after
              && after[id] == Stay(op.key, op.checkIn, op.checkOut, PendingPayment, false)
            else if id !in before then id !in after
            else
              && id in after
              && after[id] == if Releases(s, e, id) then before[id].(status := Cancelled, freed := true)
                              else if WrittenStatus(e, id).Some? then before[id].(status := WrittenStatus(e, id).value)
                              else before[id]
  {
    if e.CommitTxn? {
      CommittedStays(s.db, s.txns[e.txn].op, s.txns[e.txn].began);
    }
    hide Run, Commit, KeyTaken, UniqueKeys;
  }

  // ----- over runs

  ghost function GivenBy(s: State, e: Event, id: BookingId): Option<BookingStatus>
    requires Enabled(s, e)
  {
    if Releases(s, e, id) then Some(Cancelled) else WrittenStatus(e, id)
  }

  /** The status that the run gave the booking last, if it gave it any. */
  ghost function LastGiven(s: State, run: seq<Event>, id: BookingId): Option<BookingStatus>
    requires Valid(s, run)
    decreases |run|
  {
    if run == [] then None
    else
      var later := LastGiven(Apply(s, run[0]), run[1..], id);
      if later.Some? then later else GivenBy(s, run[0], id)
  }

  ghost predicate ReleasedIn(s: State, run: seq<Event>, id: BookingId)
    requires Valid(s, run)
    decreases |run|
  {
    run != [] && (Releases(s, run[0], id) || ReleasedIn(Apply(s, run[0]), run[1..], id))
  }

  /** What has become of a booking by the end of a run that began with it in this state. */
  lemma {:induction false} StayAtEnd(s: State, run: seq<Event>, id: BookingId)
    requires LockInv(s) && Valid(s, run) && id in s.db.stays
    ensures var before, end := s.db.stays[id], Exec(s, run).db.stays;
            && id in end
            && end[id].key == before.key && end[id].checkIn == before.checkIn && end[id].checkOut == before.checkOut
            && end[id].status == (if LastGiven(s, run, id).Some? then LastGiven(s, run, id).value else before.status)
            && (end[id].freed <==> before.freed || ReleasedIn(s, run, id))
    decreases |run|
  {
    hide LockInv, Apply, Enabled, Releases, Creates, WrittenStatus;
    if run != [] {
      StayAfter(s, run[0], id);
      StepKeepsLocks(s, run[0]);
      StayAtEnd(Apply(s, run[0]), run[1..], id);
    }
  }

  /** Nothing gives a status to a booking that does not exist. */
  lemma NothingGiven(s: State, e: Event, id: BookingId)
    requires LockInv(s) && Enabled(s, e) && id !in s.db.stays
    ensures GivenBy(s, e, id) == None && !Releases(s, e, id)
  {}

  lemma {:induction false} NewStayAtEnd(s: State, run: seq<Event>, id: BookingId)
    requires LockInv(s) && Valid(s, run) && id !in s.db.stays && id in Exec(s, run).db.stays
    ensures var end := Exec(s, run).db.stays[id];
            && end.status == (if LastGiven(s, run, id).Some? then LastGiven(s, run, id).value else PendingPayment)
            && (end.freed <==> ReleasedIn(s, run, id))
    decreases |run|
  {
    hide LockInv, Apply, Enabled, Releases, Creates, WrittenStatus;
    if run != [] {
      StayAfter(s, run[0], id);
      StepKeepsLocks(s, run[0]);
      NothingGiven(s, run[0], id);
      if Creates(s, run[0], id) {
        StayAtEnd(Apply(s, run[0]), run[1..], id);
      } else {
        NewStayAtEnd(Apply(s, run[0]), run[1..], id);
      }
    }
  }

  /**
   * In every reachable state a booking is pending until something gives it a status, and has the status
   * given to it last; its nights are given up exactly if a release of it was committed.
   */
  lemma StatusIsLastGiven(s: State, run: seq<Event>, id: BookingId)
    requires Initial(s) && Valid(s, run) && id in Exec(s, run).db.stays
    ensures var end := Exec(s, run).db.stays[id];
            && end.status == (if LastGiven(s, run, id).Some? then LastGiven(s, run, id).value else PendingPayment)
            && (end.freed <==> ReleasedIn(s, run, id))
  {
    InitialInv(s);
    NewStayAtEnd(s, run, id);
  }

  lemma {:induction false} GivenInRun(s: State, run: seq<Event>, id: BookingId)
    requires Valid(s, run) && LastGiven(s, run, id).Some?
    ensures || (LastGiven(s, run, id) == Some(Cancelled) && ReleasedIn(s, run, id))
            || exists e | e in run :: WrittenStatus(e, id) == LastGiven(s, run, id)
    decreases |run|
  {
    hide Apply, Enabled, Releases, WrittenStatus;
    var later := LastGiven(Apply(s, run[0]), run[1..], id);
    if later.Some? {
      GivenInRun(Apply(s, run[0]), run[1..], id);
      if e :| e in run[1..] && WrittenStatus(e, id) == later {
        assert e in run;
      }
    } else {
      assert run[0] in run;
    }
  }

  lemma {:induction false} WrittenIsGiven(s: State, run: seq<Event>, id: BookingId, e: Event)
    requires Valid(s, run) && e in run && WrittenStatus(e, id).Some?
    ensures LastGiven(s, run, id).Some?
    decreases |run|
  {
    hide Apply, Enabled, Releases, WrittenStatus;
    if e != run[0] || LastGiven(Apply(s, run[0]), run[1..], id).Some? {
      if e in run[1..] {
        WrittenIsGiven(Apply(s, run[0]), run[1..], id, e);
      }
    } else {
      WritesAreNoReleases(s, e, id);
    }
  }

  lemma WritesAreNoReleases(s: State, e: Event, id: BookingId)
    requires Enabled(s, e) && WrittenStatus(e, id).Some?
    ensures GivenBy(s, e, id) == WrittenStatus(e, id)
  {}

  lemma ConfirmingWrites(e: Event, id: BookingId)
    ensures WrittenStatus(e, id) == Some(Confirmed) <==> e == ConfirmBooking(id) || e == WebhookStatus(id, Confirmed)
  {}

  /** In every reachable state a booking is confirmed only if it was confirmed by a payment or a partial refund of its own. */
  lemma ConfirmedWasConfirmed(s: State, run: seq<Event>, id: BookingId)
    requires Initial(s) && Valid(s, run) && id in Exec(s, run).db.stays && Exec(s, run).db.stays[id].status == Confirmed
    ensures ConfirmBooking(id) in run || WebhookStatus(id, Confirmed) in run
  {
    StatusIsLastGiven(s, run, id);
    GivenInRun(s, run, id);
    hide Exec, Valid, LastGiven, ReleasedIn, WrittenStatus;
    var e :| e in run && WrittenStatus(e, id) == Some(Confirmed);
    ConfirmingWrites(e, id);
  }

  /** In every reachable state the pending bookings are those that nothing was written for and nothing has released. */
  lemma PendingIff(s: State, run: seq<Event>, id: BookingId)
    requires Initial(s) && Valid(s, run) && id in Exec(s, run).db.stays
    ensures Exec(s, run).db.stays[id].status == PendingPayment <==>
            !ReleasedIn(s, run, id) && forall e | e in run :: WrittenStatus(e, id) == None
  {
    StatusIsLastGiven(s, run, id);
    if LastGiven(s, run, id).Some? {
      GivenInRun(s, run, id);
      NeverPendingAgain(s, run, id);
    } else {
      forall e | e in run ensures WrittenStatus(e, id) == None {
        if WrittenStatus(e, id).Some? {
          WrittenIsGiven(s, run, id, e);
        }
      }
      if ReleasedIn(s, run, id) {
        ReleaseIsGiven(s, run, id);
      }
    }
  }

  lemma {:induction false} NeverPendingAgain(s: State, run: seq<Event>, id: BookingId)
    requires Valid(s, run)
    ensures LastGiven(s, run, id) != Some(PendingPayment)
    decreases |run|
  {
    if run != [] {
      NeverPendingAgain(Apply(s, run[0]), run[1..], id);
    }
    hide Apply;
  }

  lemma {:induction false} ReleaseIsGiven(s: State, run: seq<Event>, id: BookingId)
    requires Valid(s, run) && ReleasedIn(s, run, id)
    ensures LastGiven(s, run, id).Some?
    decreases |run|
  {
    hide Apply, Enabled, Releases;
    if !Releases(s, run[0], id) {
      ReleaseIsGiven(Apply(s, run[0]), run[1..], id);
    }
  }

  // ----- what may be released

  /**
   * A cancellation begins on pending and confirmed bookings, the release of an expired hold and a discard on
   * pending ones only, each unless another release of the booking is under way; and whatever happens
   * meanwhile, the booking is still such a one when the release is committed.
   */
  lemma ReleaseBeginsIff(s: State, t: Txn, op: Op)
    requires LocksBooking(op) && t !in s.txns && t !in s.answers
    ensures Enabled(s, Begin(t, op)) <==>
            && op.id in s.db.stays && op.id !in s.rowLocks
            && (s.db.stays[op.id].status == PendingPayment || (s.db.stays[op.id].status == Confirmed && op.CancelBooking?))
  {}

  lemma ReleasedAsBegun(s: State, run: seq<Event>, t: Txn)
    requires Initial(s) && Valid(s, run) && Enabled(Exec(s, run), CommitTxn(t)) && LocksBooking(Exec(s, run).txns[t].op)
    ensures var end := Exec(s, run);
            var op := end.txns[t].op;
            && op.id in end.db.stays
            && (end.db.stays[op.id].status == PendingPayment || (end.db.stays[op.id].status == Confirmed && op.CancelBooking?))
  {
    InitialInv(s);
    RunKeepsLocks(s, run);
    hide Run, UniqueKeys;
  }

  // ----- every booking has a night

  ghost predicate AllHaveNights(s: State) {
    && (forall id | id in s.db.stays :: s.db.stays[id].checkIn < s.db.stays[id].checkOut)
    && (forall t | t in s.txns && s.txns[t].op.CreateBooking? :: s.txns[t].op.checkIn < s.txns[t].op.checkOut)
  }

  lemma StepKeepsNights(s: State, e: Event)
    requires LockInv(s) && AllHaveNights(s) && Enabled(s, e)
    ensures AllHaveNights(Apply(s, e))
  {
    var t := Apply(s, e);
    forall id | id in t.db.stays ensures t.db.stays[id].checkIn < t.db.stays[id].checkOut {
      StayAfter(s, e, id);
    }
    hide LockInv, Run, Commit, KeyTaken;
  }

  lemma {:induction false} RunKeepsNights(s: State, run: seq<Event>)
    requires LockInv(s) && AllHaveNights(s) && Valid(s, run)
    ensures AllHaveNights(Exec(s, run))
    decreases |run|
  {
    hide LockInv, AllHaveNights, Apply, Enabled;
    if run != [] {
      StepKeepsLocks(s, run[0]);
      StepKeepsNights(s, run[0]);
      RunKeepsNights(Apply(s, run[0]), run[1..]);
    }
  }

  lemma EveryStayHasANight(s: State, run: seq<Event>, id: BookingId)
    requires Initial(s) && Valid(s, run) && id in Exec(s, run).db.stays
    ensures Exec(s, run).db.stays[id].checkIn < Exec(s, run).db.stays[id].checkOut
  {
    InitialInv(s);
    RunKeepsNights(s, run);
  }
}
