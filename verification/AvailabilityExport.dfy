/** What leaves the platform: the calendar that is exported from the availability table in any reachable state. */
module AvailabilityExport {
  import opened Wrappers
  import opened Text
  import opened CivilDates
  import opened DateGrouping
  import opened ICalParser
  import opened CalendarExport
  import opened CalendarEventLines
  import opened CalendarRoundTrip
  import A = AvailabilityTable
  import T = AvailabilityTransactions
  import L = AvailabilityLocks

  // ----- the query of the export

  /** A list of the members of a set. */
  ghost function Listed(days: set<Day>): (list: seq<Day>)
    ensures forall d :: d in list <==> d in days
  {
    if days == {} then [] else var d :| d in days; [d] + Listed(days - {d})
  }

  /** `date >= CURRENT_DATE AND status != 'available' ORDER BY date`. */
  ghost function UnavailableFrom(table: A.Table, today: nat): (nights: seq<Day>)
    ensures StrictlyIncreasing(nights)
    ensures forall d: nat :: d in nights <==> today <= d && d in table && table[d].status != A.Available
  {
    var days := set d: int | d in table && today <= d && table[d].status != A.Available :: d as nat;
    SortedUniqueIsSorted(Listed(days));
    SortedUnique(Listed(days))
  }

  ghost function ExportedRanges(table: A.Table, today: nat): seq<DateRange> {
    Group(SortedUnique(UnavailableFrom(table, today)))
  }

  // ----- the dates that a reader finds occupied

  predicate OccupiedBy(event: CalendarEvent, date: string) {
    !Less(date, event.startsOn) && Less(date, event.endsOn)
  }

  predicate Occupied(events: seq<CalendarEvent>, date: string) {
    exists i | 0 <= i < |events| :: OccupiedBy(events[i], date)
  }

  /** The order of the texts is the order of the days. */
  lemma IsoLess(m: nat, n: nat)
    requires Writable(Civil(m)) && Writable(Civil(n))
    ensures Less(Iso(Civil(m)), Iso(Civil(n))) <==> m < n
  {
    if m < n {
      IsoIncreases(m, n);
    } else if m == n {
      LessIrreflexive(Iso(Civil(m)));
    } else {
      CivilIncreasing(n, m);
      IsoOrder(Civil(m), Civil(n));
    }
  }

  lemma ImportedOccupies(id: string, r: DateRange, d: nat)
    requires Printable(r) && Writable(Civil(d))
    ensures OccupiedBy(Imported(id, r), Iso(Civil(d))) <==> InRange(d, r)
  {
    IsoLess(d, r.startsOn);
    IsoLess(d, r.endsOn);
    hide Less, Iso, Uid;
  }

  lemma AllImportedOccupy(id: string, ranges: seq<DateRange>, d: nat)
    requires AllPrintable(ranges) && Writable(Civil(d))
    ensures Occupied(AllImported(id, ranges), Iso(Civil(d))) <==> Covered(d, ranges)
  {
    hide OccupiedBy, Imported, Iso, InRange;
    forall i | 0 <= i < |ranges| ensures OccupiedBy(AllImported(id, ranges)[i], Iso(Civil(d))) <==> InRange(d, ranges[i]) {
      ImportedOccupies(id, ranges[i], d);
    }
  }

  // ----- in every reachable state

  /** The night has a booking or a host block, or an active feed covers it. */
  ghost predicate Taken(s: L.State, d: A.Day) {
    T.Reserved(s.db.stays, d) || d in s.hostNights || A.Covers(s.db.feeds, d)
  }

  lemma UnavailableAreTaken(s: L.State, run: seq<L.Event>)
    requires L.Initial(s) && L.Valid(s, run) && L.NoneReconfirmed(s, run) && L.Exec(s, run).today >= 0
    ensures var end := L.Exec(s, run);
            forall d: nat :: d in UnavailableFrom(end.db.table, end.today) <==> end.today <= d && Taken(end, d)
  {
    L.TableIsLayeredView(s, run);
    var end := L.Exec(s, run);
    forall d: nat | end.today <= d
      ensures (d in end.db.table && end.db.table[d].status != A.Available) <==> Taken(end, d)
    {
      assert A.HasSource(end.db.table, d, A.FromBooking) <==> T.Reserved(end.db.stays, d);
      assert A.HasSource(end.db.table, d, A.FromHost) <==> d in end.hostNights;
      assert A.HasSource(end.db.table, d, A.FromCalendar) <==>
        A.Covers(end.db.feeds, d) && !A.HasSource(end.db.table, d, A.FromBooking) && !A.HasSource(end.db.table, d, A.FromHost);
      assert d in end.db.table ==> end.db.table[d].source in {A.FromBooking, A.FromHost, A.FromCalendar};
    }
  }

  /**
   * After any run of transactions, and for every harmless name within the limits: the exported
   * calendar is accepted, the dates that its reader finds occupied are exactly those from today on
   * with a booking, a host block or an imported event, and a feed that syncs it stores none of them.
   */
  lemma ExportShowsTakenNights(s: L.State, run: seq<L.Event>, id: string, name: string, stamp: string, collate: Collation)
    requires L.Initial(s) && L.Valid(s, run) && L.NoneReconfirmed(s, run) && L.Exec(s, run).today >= 0
    requires forall d: nat | L.Exec(s, run).today <= d && Taken(L.Exec(s, run), d) :: Writable(Civil(d + 1))
    requires PlainId(id) && IsStamp(stamp)
    ensures var end := L.Exec(s, run);
            var ranges := ExportedRanges(end.db.table, end.today);
            && AllPrintable(ranges)
            && var text := Calendar(id, name, stamp, ranges);
               && (ByteLength(text) <= MAX_ICAL_BYTES && |ranges| <= MAX_ICAL_EVENTS ==>
                     (Parse(text, collate) == Ok(AllImported(id, ranges)) <==> TitleIsHarmless(name, AllImported(id, ranges))))
               && (forall d: nat | Writable(Civil(d)) ::
                     Occupied(AllImported(id, ranges), Iso(Civil(d))) <==> end.today <= d && Taken(end, d))
               && StoredEvents(AllImported(id, ranges)) == []
  {
    UnavailableAreTaken(s, run);
    var end := L.Exec(s, run);
    var nights := UnavailableFrom(end.db.table, end.today);
    hide Taken, L.Initial, L.Valid, L.NoneReconfirmed, L.Exec, Parse, Calendar, Occupied, TitleIsHarmless, Imported, Covered;
    var ranges := ExportedNightsComeBack(id, name, stamp, nights, collate);
    forall d: nat | Writable(Civil(d))
      ensures Occupied(AllImported(id, ranges), Iso(Civil(d))) <==> end.today <= d && Taken(end, d)
    {
      AllImportedOccupy(id, ranges, d);
    }
  }

  // ----- on the platform that syncs the calendar

  /** What a sync stores of these events: their days. */
  function Intervals(ranges: seq<DateRange>): set<A.Interval> {
    set r | r in ranges :: A.Interval(r.startsOn, r.endsOn)
  }

  lemma IntervalsCover(ranges: seq<DateRange>, d: nat)
    ensures A.CoveredBy(Intervals(ranges), d) <==> Covered(d, ranges)
  {
    if Covered(d, ranges) {
      var i :| 0 <= i < |ranges| && InRange(d, ranges[i]);
      assert ranges[i] in ranges && A.Interval(ranges[i].startsOn, ranges[i].endsOn) in Intervals(ranges);
    }
    if A.CoveredBy(Intervals(ranges), d) {
      var e :| e in Intervals(ranges) && e.startsOn <= d < e.endsOn;
      var r :| r in ranges && e == A.Interval(r.startsOn, r.endsOn);
      assert InRange(d, r);
    }
  }

  lemma OnlyFeedCovers(feed: A.FeedId, events: set<A.Interval>, d: A.Day)
    ensures A.Covers(map[feed := A.Feed(true, events)], d) <==> A.CoveredBy(events, d)
  {
    assert map[feed := A.Feed(true, events)][feed].active;
  }

  lemma RangesCoverTaken(s: L.State, run: seq<L.Event>, d: nat)
    requires L.Initial(s) && L.Valid(s, run) && L.NoneReconfirmed(s, run) && L.Exec(s, run).today >= 0
    ensures var end := L.Exec(s, run);
            Covered(d, ExportedRanges(end.db.table, end.today)) <==> end.today <= d && Taken(end, d)
  {
    UnavailableAreTaken(s, run);
    var end := L.Exec(s, run);
    GroupingIsCanonical(UnavailableFrom(end.db.table, end.today));
    hide Taken, L.Exec, L.Valid, L.Initial, L.NoneReconfirmed;
  }

  /**
   * From one platform to another that does not skip our events: a property that knows nothing but a feed, and syncs the calendar that
   * another property exports in any reachable state, blocks from its own today on exactly the nights that
   * the other one has taken, by a booking, a host block or an import of its own.
   */
  lemma SyncedElsewhere(s: L.State, run: seq<L.Event>, db: T.Db, feed: A.FeedId, today: nat, d: nat)
    requires L.Initial(s) && L.Valid(s, run) && L.NoneReconfirmed(s, run) && L.Exec(s, run).today >= 0
    requires db.table == map[] && feed in db.feeds && db.feeds[feed].active && db.feeds.Keys == {feed} && today <= d
    ensures var end := L.Exec(s, run);
            var synced := T.Outcome(db, T.ReplaceFeedEvents(feed, Intervals(ExportedRanges(end.db.table, end.today))), today);
            && synced.Ok?
            && A.At(synced.value.table, d) == if end.today <= d && Taken(end, d) then Some(A.IMPORTED_ROW) else None
  {
    RangesCoverTaken(s, run, d);
    var end := L.Exec(s, run);
    var ranges := ExportedRanges(end.db.table, end.today);
    IntervalsCover(ranges, d);
    OnlyFeedCovers(feed, Intervals(ranges), d);
    var feeds := db.feeds[feed := db.feeds[feed].(events := Intervals(ranges))];
    assert feeds == map[feed := A.Feed(true, Intervals(ranges))];
    A.ReconcileAt(db.table, feeds, today, d);
    hide Taken, L.Exec, L.Valid, L.Initial, L.NoneReconfirmed, ExportedRanges, Intervals, A.Reconcile, A.Covers, A.CoveredBy;
  }
}
