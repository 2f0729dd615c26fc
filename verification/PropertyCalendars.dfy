/**
 * The same transactions as the code runs them on one property, uninterrupted:
 * statement by statement and date by date on mutable tables. Every method is
 * proved to commit exactly the writes of its transaction, or nothing.
 */
module PropertyCalendars {
  import opened Wrappers
  import opened AvailabilityTable
  import opened AvailabilityTransactions

  datatype BookingError =
    | InvalidDateRange
    | NightUnavailable(date: Day)
    | BookingNotFound
    | NotCancellable
    | AlreadyArchived
    | NotDiscardable
    | PaymentExists

  /** The payment proofs checked before a discard. */
  datatype DiscardFacts = DiscardFacts(archived: bool, hasLegacyPayment: bool, hasSuccessfulAttempt: bool, hasEntitlement: bool)

  /** What a transaction leaves behind: its outcome, or nothing if it threw. */
  function AfterTransaction(db: Db, op: Op, today: Day): Db {
    var after := Outcome(db, op, today);
    if after.Ok? then after.value else db
  }

  lemma HostOutcome(db: Db, checkIn: Day, checkOut: Day, action: Action, today: Day)
    ensures AfterTransaction(db, AvailabilityTransactions.MutateAvailability(checkIn, checkOut, action), today)
         == db.(table := MutateHost(db.table, checkIn, checkOut, action, db.feeds, today))
  {}

  lemma SetActiveOutcome(db: Db, feed: FeedId, active: bool, today: Day)
    ensures AfterTransaction(db, AvailabilityTransactions.SetFeedActive(feed, active), today)
         == if feed in db.feeds then WithFeeds(db, db.feeds[feed := db.feeds[feed].(active := active)], today) else db
  {}

  lemma ReplaceOutcome(db: Db, feed: FeedId, events: set<Interval>, today: Day)
    ensures AfterTransaction(db, AvailabilityTransactions.ReplaceFeedEvents(feed, events), today)
         == if feed in db.feeds then WithFeeds(db, db.feeds[feed := db.feeds[feed].(events := events)], today)
            else if events == {} then WithFeeds(db, db.feeds, today) else db
  {}

  /** The two `enumerateDates` loops. */
  method EnumerateDates(checkIn: Day, checkOut: Day) returns (dates: seq<Day>)
    ensures dates == Dates(checkIn, checkOut)
  {
    dates := [];
    var d := checkIn;
    while d < checkOut
      invariant checkIn <= d && (d <= checkOut || d == checkIn)
      invariant dates == Dates(checkIn, d)
    {
      dates := dates + [d];
      d := d + 1;
    }
  }

  class PropertyCalendar {
    var rows: Table
    var stays: map<BookingId, Stay>
    var feeds: map<FeedId, Feed>
    var otherKeys: map<IdempotencyKey, BookingId>

    constructor (otherKeys: map<IdempotencyKey, BookingId>)
      ensures View() == Db(map[], map[], map[], otherKeys)
    {
      rows, stays, feeds := map[], map[], map[];
      this.otherKeys := otherKeys;
    }

    function View(): Db
      reads this
    {
      Db(rows, stays, feeds, otherKeys)
    }

    /** Rebuilds the imported rows and reports how many it inserted. */
    method ReconcileCalendarAvailability(today: Day) returns (inserted: nat)
      modifies this`rows
      ensures rows == Reconcile(old(rows), feeds, today)
      ensures inserted == |NewImports(WithoutImports(old(rows)), feeds, today)|
    {
      rows := WithoutImports(rows);
      var imports := NewImports(rows, feeds, today);
      rows := rows + imports;
      inserted := |imports|;
    }

    /** The upsert loop of createBooking. */
    method UpsertBooked(checkIn: Day, checkOut: Day)
      modifies this`rows
      ensures rows == Book(old(rows), checkIn, checkOut)
    {
      var dates := EnumerateDates(checkIn, checkOut);
      for i := 0 to |dates|
        invariant rows == UpsertAll(old(rows), dates[..i])
      {
        rows := rows[dates[i] := BOOKED_ROW];
        assert dates[..i + 1][..i] == dates[..i];
      }
      assert dates[..|dates|] == dates;
      UpsertAllBooks(old(rows), checkIn, checkOut);
    }

    method CreateBooking(freshId: BookingId, key: IdempotencyKey, checkIn: Day, checkOut: Day, today: Day)
      returns (result: Result<BookingId, BookingError>)
      requires freshId !in stays
      modifies this
      ensures checkOut <= checkIn ==> View() == old(View()) && result == Err(InvalidDateRange)
      // a key committed before the call returns the booking made with it and writes nothing
      ensures checkIn < checkOut && KeyTaken(old(View()), key) ==>
                && View() == old(View()) && result.Ok?
                && (key in otherKeys ==> result.value == otherKeys[key])
                && (key !in otherKeys ==> result.value in stays && stays[result.value].key == key)
      ensures checkIn < checkOut && !KeyTaken(old(View()), key) ==>
                && View() == AfterTransaction(old(View()), AvailabilityTransactions.CreateBooking(freshId, key, checkIn, checkOut), today)
                && (result.Ok? <==> NightsFree(old(rows), checkIn, checkOut))
                && (result.Ok? ==> result.value == freshId && stays == old(stays)[freshId := Stay(key, checkIn, checkOut, PendingPayment, false)])
                && (result.Err? ==> result.error.NightUnavailable? && checkIn <= result.error.date < checkOut
                                    && result.error.date in old(rows) && old(rows)[result.error.date].status != Available)
    {
      if checkOut <= checkIn {
        return Err(InvalidDateRange);
      }
      if key in otherKeys {
        return Ok(otherKeys[key]);
      }
      if existing :| existing in stays && stays[existing].key == key {
        return Ok(existing);
      }
      if unavailable :| unavailable in Nights(checkIn, checkOut) && unavailable in rows && rows[unavailable].status != Available {
        return Err(NightUnavailable(unavailable));
      }
      UpsertBooked(checkIn, checkOut);
      stays := stays[freshId := NewStay(key, checkIn, checkOut)];
      result := Ok(freshId);
    }

    /** Deletes the booking's rows, reconciles, and marks it cancelled. */
    method FreeBooking(id: BookingId, today: Day, byStatus: bool)
      requires id in stays
      modifies this
      ensures View() == Freed(old(View()), id,
                          if byStatus then DeleteBookedRows(old(rows), old(stays)[id].checkIn, old(stays)[id].checkOut)
                          else DeleteBookingRows(old(rows), old(stays)[id].checkIn, old(stays)[id].checkOut), today)
    {
      hide Reconcile, DeleteBookedRows, DeleteBookingRows, WithoutImports, NewImports;
      var stay := stays[id];
      if byStatus {
        rows := DeleteBookedRows(rows, stay.checkIn, stay.checkOut);
      } else {
        rows := DeleteBookingRows(rows, stay.checkIn, stay.checkOut);
      }
      var _ := ReconcileCalendarAvailability(today);
      stays := stays[id := stay.(status := Cancelled, freed := true)];
    }

    method CancelBooking(id: BookingId, today: Day) returns (result: Result<(), BookingError>)
      modifies this
      ensures result.Ok? <==> id in old(stays) && old(stays)[id].status in {PendingPayment, Confirmed}
      ensures result.Ok? ==> View() == AfterTransaction(old(View()), AvailabilityTransactions.CancelBooking(id), today)
      ensures result.Err? ==> View() == old(View()) && result.error == if id in stays then NotCancellable else BookingNotFound
    {
      if id !in stays {
        return Err(BookingNotFound);
      }
      if stays[id].status != PendingPayment && stays[id].status != Confirmed {
        return Err(NotCancellable);
      }
      FreeBooking(id, today, false);
      result := Ok(());
    }

    /** `holdExpires` is the column read with the booking row. */
    method ReleaseExpiredHold(id: BookingId, holdExpires: Option<nat>, now: nat, today: Day) returns (released: bool)
      modifies this
      ensures released <==> id in old(stays) && old(stays)[id].status == PendingPayment && holdExpires.Some? && holdExpires.value <= now
      ensures View() == if released then AfterTransaction(old(View()), AvailabilityTransactions.ReleaseExpiredHold(id), today)
                        else old(View())
    {
      if id !in stays || stays[id].status != PendingPayment {
        return false;
      }
      if holdExpires.None? {
        return false;
      }
      if now < holdExpires.value {
        return false;
      }
      FreeBooking(id, today, true);
      released := true;
    }

    /** `ofGuest` and `facts` are what the query reads beside the booking row. */
    method DiscardUnpaidBooking(id: BookingId, ofGuest: bool, facts: DiscardFacts, today: Day) returns (result: Result<(), BookingError>)
      modifies this
      ensures result.Ok? <==>
                && id in old(stays) && ofGuest && !facts.archived && old(stays)[id].status == PendingPayment
                && !facts.hasLegacyPayment && !facts.hasSuccessfulAttempt && !facts.hasEntitlement
      ensures result.Ok? ==> View() == AfterTransaction(old(View()), AvailabilityTransactions.DiscardUnpaidBooking(id), today)
      ensures result.Err? ==>
                && View() == old(View())
                && result.error == (if id !in stays || !ofGuest then BookingNotFound else if facts.archived then AlreadyArchived
                                    else if stays[id].status != PendingPayment then NotDiscardable else PaymentExists)
    {
      if id !in stays || !ofGuest {
        return Err(BookingNotFound);
      }
      if facts.archived {
        return Err(AlreadyArchived);
      }
      if stays[id].status != PendingPayment {
        return Err(NotDiscardable);
      }
      if facts.hasLegacyPayment || facts.hasSuccessfulAttempt || facts.hasEntitlement {
        return Err(PaymentExists);
      }
      FreeBooking(id, today, true);
      result := Ok(());
    }

    /** The host's block and unblock loop: existing rows are read once, before the first date. */
    method WriteHostRows(checkIn: Day, checkOut: Day, action: Action) returns (result: BlockResult)
      modifies this`rows
      ensures rows == HostMutation(old(rows), Nights(checkIn, checkOut), action)
      ensures result == Report(old(rows), Dates(checkIn, checkOut), action)
    {
      var dates := EnumerateDates(checkIn, checkOut);
      var existingByDate := rows;
      result := BlockResult([], []);
      for i := 0 to |dates|
        invariant rows == MutateAll(old(rows), old(rows), dates[..i], action)
        invariant result == Report(old(rows), dates[..i], action)
      {
        var date := dates[i];
        assert dates[..i + 1][..i] == dates[..i];
        if HasSource(existingByDate, date, FromBooking) {
          var reason := if action == Block then AlreadyBooked else CannotUnblockBooking;
          result := result.(skipped := result.skipped + [Skipped(date, reason)]);
        } else if HasSource(existingByDate, date, FromCalendar) {
          result := result.(skipped := result.skipped + [Skipped(date, ManagedByCalendarSync)]);
        } else {
          if action == Block {
            rows := rows[date := HOST_ROW];
          } else if HasSource(rows, date, FromHost) {
            rows := rows - {date};
          }
          result := result.(blocked := result.blocked + [date]);
        }
      }
      assert dates[..|dates|] == dates;
      MutateAllMutates(old(rows), checkIn, checkOut, action);
    }

    method MutateAvailability(checkIn: Day, checkOut: Day, action: Action, today: Day) returns (result: BlockResult)
      modifies this`rows
      ensures View() == AfterTransaction(old(View()), AvailabilityTransactions.MutateAvailability(checkIn, checkOut, action), today)
      ensures result == Report(old(rows), Dates(checkIn, checkOut), action)
    {
      hide Reconcile, HostMutation, NewImports, WithoutImports, Report, AfterTransaction;
      result := WriteHostRows(checkIn, checkOut, action);
      var _ := ReconcileCalendarAvailability(today);
      assert rows == MutateHost(old(rows), checkIn, checkOut, action, feeds, today);
      HostOutcome(old(View()), checkIn, checkOut, action, today);
    }

    method SetCalendarFeedActive(feed: FeedId, active: bool, today: Day) returns (found: bool)
      modifies this
      ensures found <==> feed in old(feeds)
      ensures View() == AfterTransaction(old(View()), AvailabilityTransactions.SetFeedActive(feed, active), today)
    {
      SetActiveOutcome(View(), feed, active, today);
      if feed !in feeds {
        return false;
      }
      feeds := feeds[feed := feeds[feed].(active := active)];
      var _ := ReconcileCalendarAvailability(today);
      assert View() == WithFeeds(old(View()), feeds, today);
      found := true;
    }

    method DeleteCalendarFeed(feed: FeedId, today: Day) returns (found: bool)
      modifies this
      ensures found <==> feed in old(feeds)
      ensures View() == AfterTransaction(old(View()), AvailabilityTransactions.DeleteFeed(feed), today)
    {
      if feed !in feeds {
        return false;
      }
      feeds := feeds - {feed};
      var _ := ReconcileCalendarAvailability(today);
      found := true;
    }

    /** Delete the feed's events, insert the new ones, reconcile. */
    method ReplaceFeedEvents(feed: FeedId, events: set<Interval>, today: Day) returns (blockedDateCount: Option<nat>)
      modifies this
      ensures View() == AfterTransaction(old(View()), AvailabilityTransactions.ReplaceFeedEvents(feed, events), today)
      ensures blockedDateCount == if feed !in old(feeds) && events != {} then None
                                  else Some(|NewImports(WithoutImports(old(rows)), feeds, today)|)
    {
      ReplaceOutcome(View(), feed, events, today);
      if feed !in feeds && events != {} {
        return None;
      }
      if feed in feeds {
        feeds := feeds[feed := feeds[feed].(events := events)];
      }
      var inserted := ReconcileCalendarAvailability(today);
      assert View() == WithFeeds(old(View()), feeds, today);
      blockedDateCount := Some(inserted);
    }
  }
}
