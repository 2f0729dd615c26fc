/**
 * The availability table of one property: at most one row a night, written by
 * bookings, by the host and by imported calendars. Days are day numbers.
 */
module AvailabilityTable {
  import opened Wrappers

  type Day = int

  datatype Status = Available | Blocked | Booked
  datatype Source = FromHost | FromBooking | FromCalendar
  datatype Row = Row(status: Status, source: Source)

  type Table = map<Day, Row>

  const BOOKED_ROW := Row(Booked, FromBooking)
  const HOST_ROW := Row(Blocked, FromHost)
  const IMPORTED_ROW := Row(Blocked, FromCalendar)

  type FeedId = nat
  datatype Interval = Interval(startsOn: Day, endsOn: Day)
  datatype Feed = Feed(active: bool, events: set<Interval>)

  predicate HasSource(table: Table, d: Day, source: Source) {
    d in table && table[d].source == source
  }

  /** The nights of a stay in order: from check-in up to, not including, check-out. */
  function Dates(checkIn: Day, checkOut: Day): (dates: seq<Day>)
    ensures |dates| == Max(checkOut - checkIn, 0)
    ensures forall i | 0 <= i < |dates| :: dates[i] == checkIn + i
    ensures forall d :: d in dates <==> checkIn <= d < checkOut
  {
    var dates := seq(Max(checkOut - checkIn, 0), i => checkIn + i);
    assert forall d | checkIn <= d < checkOut :: d in dates by {
      forall d | checkIn <= d < checkOut ensures d in dates {
        assert dates[d - checkIn] == d;
      }
    }
    dates
  }

  function Nights(checkIn: Day, checkOut: Day): (nights: set<Day>)
    ensures forall d :: d in nights <==> checkIn <= d < checkOut
  {
    set d | d in Dates(checkIn, checkOut)
  }

  // ----- imported events

  predicate Covers(feeds: map<FeedId, Feed>, d: Day) {
    exists f | f in feeds && feeds[f].active :: CoveredBy(feeds[f].events, d)
  }

  predicate CoveredBy(events: set<Interval>, d: Day) {
    exists e | e in events :: e.startsOn <= d < e.endsOn
  }

  /** Every night from `today` on that a stored event of an active feed occupies. */
  function ImportedNights(feeds: map<FeedId, Feed>, today: Day): (nights: set<Day>)
    ensures forall d :: d in nights <==> today <= d && Covers(feeds, d)
  {
    var nights := set f, e, d | f in feeds && feeds[f].active && e in feeds[f].events
                                && d in Nights(Max(e.startsOn, today), e.endsOn) :: d;
    assert forall d | today <= d && Covers(feeds, d) :: d in nights by {
      forall d | today <= d && Covers(feeds, d) ensures d in nights {
        var f :| f in feeds && feeds[f].active && CoveredBy(feeds[f].events, d);
        var e :| e in feeds[f].events && e.startsOn <= d < e.endsOn;
        assert d in Nights(Max(e.startsOn, today), e.endsOn);
      }
    }
    nights
  }

  function Max(a: int, b: int): int {
    if a < b then b else a
  }

  // ----- statements on the table

  function WithoutImports(table: Table): Table {
    map d | d in table && table[d].source != FromCalendar :: table[d]
  }

  /** The insert: imported nights that no row occupies yet. */
  function NewImports(table: Table, feeds: map<FeedId, Feed>, today: Day): Table {
    map d | d in ImportedNights(feeds, today) && d !in table :: IMPORTED_ROW
  }

  /** Drops every imported row and inserts the imported nights that no other row occupies. */
  function Reconcile(table: Table, feeds: map<FeedId, Feed>, today: Day): Table {
    var kept := WithoutImports(table);
    kept + NewImports(kept, feeds, today)
  }

  /** The row of one night, if it has one. */
  function At(table: Table, d: Day): Option<Row> {
    if d in table then Some(table[d]) else None
  }

  lemma ReconcileAt(table: Table, feeds: map<FeedId, Feed>, today: Day, d: Day)
    ensures At(Reconcile(table, feeds, today), d)
         == if d in table && table[d].source != FromCalendar then Some(table[d])
            else if today <= d && Covers(feeds, d) then Some(IMPORTED_ROW)
            else None
  {}

  lemma SameRows(a: Table, b: Table)
    requires forall d :: At(a, d) == At(b, d)
    ensures a == b
  {
    forall d ensures d in a <==> d in b {
      assert At(a, d) == At(b, d);
    }
    forall d | d in a ensures a[d] == b[d] {
      assert At(a, d) == At(b, d);
    }
  }

  predicate NightsFree(table: Table, checkIn: Day, checkOut: Day) {
    forall d | d in Nights(checkIn, checkOut) && d in table :: table[d].status == Available
  }

  function Book(table: Table, checkIn: Day, checkOut: Day): Table {
    table + map d | d in Nights(checkIn, checkOut) :: BOOKED_ROW
  }

  /** A cancellation deletes by source. */
  function DeleteBookingRows(table: Table, checkIn: Day, checkOut: Day): Table {
    map d | d in table && !(checkIn <= d < checkOut && table[d].source == FromBooking) :: table[d]
  }

  /** The expiry sweep and a discard delete by source and status. */
  function DeleteBookedRows(table: Table, checkIn: Day, checkOut: Day): Table {
    map d | d in table && !(checkIn <= d < checkOut && table[d].status == Booked && table[d].source == FromBooking) :: table[d]
  }

  /** The rows that the two deletes leave: a cancellation looks at the source of a night, a release also at its status. */
  lemma DeletesAt(table: Table, checkIn: Day, checkOut: Day, d: Day)
    ensures At(DeleteBookingRows(table, checkIn, checkOut), d) ==
            if checkIn <= d < checkOut && HasSource(table, d, FromBooking) then None else At(table, d)
    ensures At(DeleteBookedRows(table, checkIn, checkOut), d) ==
            if checkIn <= d < checkOut && At(table, d) == Some(Row(Booked, FromBooking)) then None else At(table, d)
  {}

  // ----- host blocks

  datatype Action = Block | Unblock
  datatype Reason = AlreadyBooked | CannotUnblockBooking | ManagedByCalendarSync
  datatype Skipped = Skipped(date: Day, reason: Reason)
  datatype BlockResult = BlockResult(blocked: seq<Day>, skipped: seq<Skipped>)

  /** The host may write a night that no booking and no imported event occupies. */
  predicate HostWritable(table: Table, d: Day) {
    d !in table || table[d].source == FromHost
  }

  function HostMutation(table: Table, nights: set<Day>, action: Action): Table {
    match action
    case Block => table + map d | d in nights && HostWritable(table, d) :: HOST_ROW
    case Unblock => map d | d in table && !(d in nights && table[d].source == FromHost) :: table[d]
  }

  /** Host write and reconciliation in one transaction. */
  function MutateHost(table: Table, checkIn: Day, checkOut: Day, action: Action, feeds: map<FeedId, Feed>, today: Day): Table {
    Reconcile(HostMutation(table, Nights(checkIn, checkOut), action), feeds, today)
  }

  function SkipReason(row: Row, action: Action): Reason {
    if row.source == FromBooking then (if action == Block then AlreadyBooked else CannotUnblockBooking)
    else ManagedByCalendarSync
  }

  function Report(table: Table, dates: seq<Day>, action: Action): BlockResult {
    if dates == [] then BlockResult([], [])
    else
      var before := Report(table, dates[..|dates| - 1], action);
      var d := dates[|dates| - 1];
      if HostWritable(table, d) then before.(blocked := before.blocked + [d])
      else before.(skipped := before.skipped + [Skipped(d, SkipReason(table[d], action))])
  }

  function SkippedDates(skipped: seq<Skipped>): (dates: seq<Day>)
    ensures |dates| == |skipped|
    ensures forall i | 0 <= i < |dates| :: dates[i] == skipped[i].date
  {
    seq(|skipped|, i requires 0 <= i < |skipped| => skipped[i].date)
  }

  predicate Increasing(dates: seq<Day>) {
    forall i, j | 0 <= i < j < |dates| :: dates[i] < dates[j]
  }

  lemma {:induction false} ReportEntries(table: Table, dates: seq<Day>, action: Action)
    ensures var r := Report(table, dates, action);
            && (forall d | d in r.blocked :: d in dates && HostWritable(table, d))
            && (forall s | s in r.skipped :: s.date in dates && !HostWritable(table, s.date)
                                             && s.reason == SkipReason(table[s.date], action))
  {
    if dates != [] {
      ReportEntries(table, dates[..|dates| - 1], action);
    }
  }

  lemma IncreasingSnoc(dates: seq<Day>, d: Day)
    requires Increasing(dates) && forall x | x in dates :: x < d
    ensures Increasing(dates + [d])
  {
    assert forall i | 0 <= i < |dates| :: dates[i] in dates;
  }

  lemma {:induction false} ReportIncreasing(table: Table, dates: seq<Day>, action: Action)
    requires Increasing(dates)
    ensures var r := Report(table, dates, action);
            Increasing(r.blocked) && Increasing(SkippedDates(r.skipped))
  {
    if dates != [] {
      var init := dates[..|dates| - 1];
      ReportIncreasing(table, init, action);
      ReportEntries(table, init, action);
      var before, d := Report(table, init, action), dates[|dates| - 1];
      assert forall x | x in init :: x < d;
      hide Increasing, HostWritable;
      IncreasingSnoc(before.blocked, d);
      forall x | x in SkippedDates(before.skipped) ensures x < d {
        var i :| 0 <= i < |before.skipped| && SkippedDates(before.skipped)[i] == x;
        assert before.skipped[i] in before.skipped;
      }
      IncreasingSnoc(SkippedDates(before.skipped), d);
      assert forall reason :: SkippedDates(before.skipped + [Skipped(d, reason)]) == SkippedDates(before.skipped) + [d];
    }
  }

  lemma {:induction false} ReportCounts(table: Table, dates: seq<Day>, action: Action)
    ensures var r := Report(table, dates, action);
            multiset(r.blocked) + multiset(SkippedDates(r.skipped)) == multiset(dates)
  {
    if dates != [] {
      var init, d := dates[..|dates| - 1], dates[|dates| - 1];
      ReportCounts(table, init, action);
      assert dates == init + [d];
      var before, after := Report(table, init, action), Report(table, dates, action);
      if !HostWritable(table, d) {
        assert SkippedDates(after.skipped) == SkippedDates(before.skipped) + [d];
      }
    }
  }

  /** Blocked and skipped nights partition the range, each in date order, by who occupies the night. */
  lemma ReportPartitions(table: Table, checkIn: Day, checkOut: Day, action: Action)
    ensures var r := Report(table, Dates(checkIn, checkOut), action);
            && multiset(r.blocked) + multiset(SkippedDates(r.skipped)) == multiset(Dates(checkIn, checkOut))
            && Increasing(r.blocked) && Increasing(SkippedDates(r.skipped))
            && (forall d :: d in r.blocked <==> checkIn <= d < checkOut && HostWritable(table, d))
            && (forall s | s in r.skipped :: checkIn <= s.date < checkOut && !HostWritable(table, s.date)
                                             && s.reason == SkipReason(table[s.date], action))
            && (forall s | s in r.skipped ::
                  && (s.reason == AlreadyBooked <==> HasSource(table, s.date, FromBooking) && action == Block)
                  && (s.reason == CannotUnblockBooking <==> HasSource(table, s.date, FromBooking) && action == Unblock)
                  && (s.reason == ManagedByCalendarSync <==> HasSource(table, s.date, FromCalendar)))
  {
    var dates := Dates(checkIn, checkOut);
    ReportEntries(table, dates, action);
    ReportIncreasing(table, dates, action);
    ReportCounts(table, dates, action);
    var r := Report(table, dates, action);
    forall d | d in dates && HostWritable(table, d) ensures d in r.blocked {
      assert d in multiset(r.blocked) + multiset(SkippedDates(r.skipped));
      forall i | 0 <= i < |r.skipped| ensures SkippedDates(r.skipped)[i] != d {
        assert r.skipped[i] in r.skipped;
      }
    }
  }

  /** Neither action touches a booking row, and host rows outside the range stay as they are. */
  lemma HostActionsSpareOthers(table: Table, checkIn: Day, checkOut: Day, action: Action,
                               feeds: map<FeedId, Feed>, today: Day)
    ensures var after := MutateHost(table, checkIn, checkOut, action, feeds, today);
            && (forall d :: HasSource(after, d, FromBooking) <==> HasSource(table, d, FromBooking))
            && (forall d | HasSource(table, d, FromBooking) :: after[d] == table[d])
            && (forall d | !(checkIn <= d < checkOut) :: HasSource(after, d, FromHost) <==> HasSource(table, d, FromHost))
            && (forall d | checkIn <= d < checkOut ::
                  HasSource(after, d, FromHost) <==> action == Block && HostWritable(table, d))
  {}

  lemma MutateHostAt(table: Table, checkIn: Day, checkOut: Day, action: Action,
                     feeds: map<FeedId, Feed>, today: Day, d: Day)
    ensures At(MutateHost(table, checkIn, checkOut, action, feeds, today), d)
         == if checkIn <= d < checkOut && HostWritable(table, d) && action == Block then Some(HOST_ROW)
            else if d in table && table[d].source != FromCalendar
                    && !(checkIn <= d < checkOut && table[d].source == FromHost) then Some(table[d])
            else if today <= d && Covers(feeds, d) then Some(IMPORTED_ROW)
            else None
  {}

  /** Blocking a range and then unblocking it leaves exactly what unblocking alone leaves. */
  lemma BlockThenUnblock(table: Table, checkIn: Day, checkOut: Day,
                         feeds: map<FeedId, Feed>, blockDay: Day, unblockDay: Day)
    ensures MutateHost(MutateHost(table, checkIn, checkOut, Block, feeds, blockDay), checkIn, checkOut, Unblock, feeds, unblockDay)
         == MutateHost(table, checkIn, checkOut, Unblock, feeds, unblockDay)
  {
    var blocked := MutateHost(table, checkIn, checkOut, Block, feeds, blockDay);
    var after := MutateHost(blocked, checkIn, checkOut, Unblock, feeds, unblockDay);
    var alone := MutateHost(table, checkIn, checkOut, Unblock, feeds, unblockDay);
    forall d ensures At(after, d) == At(alone, d) {
      MutateHostAt(table, checkIn, checkOut, Block, feeds, blockDay, d);
      MutateHostAt(blocked, checkIn, checkOut, Unblock, feeds, unblockDay, d);
      MutateHostAt(table, checkIn, checkOut, Unblock, feeds, unblockDay, d);
    }
    SameRows(after, alone);
  }

  /** Reconciling twice on the same day is reconciling once. */
  lemma ReconcileIsIdempotent(table: Table, feeds: map<FeedId, Feed>, today: Day)
    ensures Reconcile(Reconcile(table, feeds, today), feeds, today) == Reconcile(table, feeds, today)
  {}

  // ----- date by date

  /** One upsert for each date, in order. */
  function UpsertAll(table: Table, dates: seq<Day>): Table {
    if dates == [] then table else UpsertAll(table, dates[..|dates| - 1])[dates[|dates| - 1] := BOOKED_ROW]
  }

  /** One host write for each date, in order; `existing` was read before the first. */
  function MutateAll(table: Table, existing: Table, dates: seq<Day>, action: Action): Table {
    if dates == [] then table
    else
      var d := dates[|dates| - 1];
      var before := MutateAll(table, existing, dates[..|dates| - 1], action);
      if !HostWritable(existing, d) then before
      else if action == Block then before[d := HOST_ROW]
      else if HasSource(before, d, FromHost) then before - {d}
      else before
  }

  lemma {:induction false} UpsertAllAt(table: Table, dates: seq<Day>, d: Day)
    ensures At(UpsertAll(table, dates), d) == if d in dates then Some(BOOKED_ROW) else At(table, d)
  {
    if dates != [] {
      UpsertAllAt(table, dates[..|dates| - 1], d);
    }
  }

  lemma {:induction false} MutateAllAt(table: Table, dates: seq<Day>, action: Action, d: Day)
    ensures At(MutateAll(table, table, dates, action), d)
         == if d !in dates || !HostWritable(table, d) then At(table, d)
            else if action == Block then Some(HOST_ROW) else None
  {
    if dates != [] {
      var init, last := dates[..|dates| - 1], dates[|dates| - 1];
      assert d in dates <==> d in init || d == last;
      MutateAllAt(table, init, action, d);
      MutateAllAt(table, init, action, last);
    }
  }

  /** The upsert loop books the nights of the stay and no others. */
  lemma UpsertAllBooks(table: Table, checkIn: Day, checkOut: Day)
    ensures UpsertAll(table, Dates(checkIn, checkOut)) == Book(table, checkIn, checkOut)
  {
    var looped, booked := UpsertAll(table, Dates(checkIn, checkOut)), Book(table, checkIn, checkOut);
    forall d ensures At(looped, d) == At(booked, d) {
      UpsertAllAt(table, Dates(checkIn, checkOut), d);
    }
    SameRows(looped, booked);
  }

  /** The host loop writes the writable nights of the range and no others. */
  lemma MutateAllMutates(table: Table, checkIn: Day, checkOut: Day, action: Action)
    ensures MutateAll(table, table, Dates(checkIn, checkOut), action) == HostMutation(table, Nights(checkIn, checkOut), action)
  {
    var looped := MutateAll(table, table, Dates(checkIn, checkOut), action);
    var mutated := HostMutation(table, Nights(checkIn, checkOut), action);
    forall d ensures At(looped, d) == At(mutated, d) {
      MutateAllAt(table, Dates(checkIn, checkOut), action, d);
    }
    SameRows(looped, mutated);
  }
}
