/** The lines of one exported event, and what the reader makes of them. */
module CalendarEventLines {
  import opened Wrappers
  import opened Text
  import opened CivilDates
  import opened Folding
  import opened DateGrouping
  import opened ICalParser
  import opened ICalGuarantee
  import opened CalendarExport

  // ----- the expected events

  /** An identifier that needs no escape and leaves room for the rest of a UID of 500 characters. */
  predicate PlainId(id: string) {
    OneLine(id) && '\\' !in id && |id| <= 454
  }

  /** `20260102T030405Z`. */
  predicate IsStamp(s: string) {
    |s| == 16 && s[8] == 'T' && s[15] == 'Z' && forall i | 0 <= i < 15 && i != 8 :: IsDigit(s[i])
  }

  function Imported(id: string, r: DateRange): CalendarEvent
    requires Printable(r)
  {
    CalendarEvent(Uid(id, r), Uid(id, r), Iso(Civil(r.startsOn)), Iso(Civil(r.endsOn)), Some("Unavailable"))
  }

  function AllImported(id: string, ranges: seq<DateRange>): (events: seq<CalendarEvent>)
    requires AllPrintable(ranges)
    ensures |events| == |ranges|
    ensures forall i | 0 <= i < |ranges| :: events[i] == Imported(id, ranges[i])
  {
    seq(|ranges|, i requires 0 <= i < |ranges| => Imported(id, ranges[i]))
  }

  // ----- single lines

  lemma FirstStays(line: string)
    requires line != "" && !IsSpace(line[0])
    ensures Trim(TrimEnd(line)) != "" && Trim(TrimEnd(line))[0] == line[0]
  {}

  /** A line whose first letter is neither B nor E is no marker. */
  lemma NotAMarker(line: string)
    requires line != "" && !IsSpace(line[0]) && UpperChar(line[0]) != 'B' && UpperChar(line[0]) != 'E'
    ensures !IsBegin(line) && !IsEnd(line)
  {
    FirstStays(line);
    var marker := Marker(line);
    assert marker[0] == UpperChar(line[0]);
    assert "BEGIN:VEVENT"[0] == 'B' && "END:VEVENT"[0] == 'E';
  }

  lemma MarkerOfSolid(line: string)
    requires Solid(line) && Upper(line) == line
    ensures Marker(line) == line
  {}

  /** Capital letters only, and none at the front that could start a marker. */
  predicate PlainName(name: string) {
    name != "" && name[0] != 'B' && name[0] != 'E' && forall i | 0 <= i < |name| :: 'A' <= name[i] <= 'Z'
  }

  lemma PlainNameFacts(name: string)
    requires PlainName(name)
    ensures ':' !in name && ';' !in name && Upper(name) == name && !IsSpace(name[0]) && UpperChar(name[0]) == name[0]
  {}

  /** `name:value`, without parameters. */
  lemma PlainContentLine(name: string, value: string)
    requires PlainName(name)
    ensures SplitContentLine(name + ":" + value) == ContentLine(name, value)
  {
    var line := name + [':'] + value;
    PlainNameFacts(name);
    IndexAfterPrefix(name, ':', value);
    assert line == name + ":" + value;
    assert line[..|name|] == name && line[|name| + 1..] == value;
  }

  /** `name;parameters:value`. */
  lemma ParameterContentLine(name: string, parameters: string, value: string)
    requires PlainName(name) && ':' !in parameters
    ensures SplitContentLine(name + ";" + parameters + ":" + value) == ContentLine(name, value)
  {
    var property := name + [';'] + parameters;
    var line := property + [':'] + value;
    PlainNameFacts(name);
    IndexAfterPrefix(property, ':', value);
    IndexAfterPrefix(name, ';', parameters);
    assert line == name + ";" + parameters + ":" + value;
    assert line[..|property|] == property && line[|property| + 1..] == value;
    assert property[..|name|] == name;
  }

  lemma NamesArePlain()
    ensures PlainName("UID") && PlainName("DTSTAMP") && PlainName("DTSTART") && PlainName("DTEND")
    ensures PlainName("STATUS") && PlainName("TRANSP") && PlainName("SUMMARY")
  {}

  lemma NamedProperties()
    ensures PropertyNamed("UID") == ExternalId && PropertyNamed("DTSTAMP") == Other
    ensures PropertyNamed("DTSTART") == Start && PropertyNamed("DTEND") == End
    ensures PropertyNamed("STATUS") == Status && PropertyNamed("TRANSP") == Other && PropertyNamed("SUMMARY") == Summary
  {}

  lemma ReadCompact(d: Date)
    requires Writable(d)
    ensures ParseCalendarDate(Compact(d)) == Ok(Iso(d))
  {
    var s := Compact(d);
    TrimSolid(s);
    assert s[0..4] == Four(d.year) && s[4..6] == Two(d.month) && s[6..8] == Two(d.day);
    ReadIsoOfIso(d);
  }

  lemma UnescapePlain(value: string)
    requires '\\' !in value && Solid(value)
    ensures UnescapeText(value) == value
  {
    NoPairs(value, '\\', {'n', 'N'}, " ");
    NoPairs(value, '\\', {','}, ",");
    NoPairs(value, '\\', {';'}, ";");
    NoPairs(value, '\\', {'\\'}, "\\");
    TrimSolid(value);
  }

  // ----- runs over several lines

  lemma {:induction false} RunConcat(s: State, a: seq<string>, b: seq<string>)
    ensures RunFrom(s, a + b) ==
            match RunFrom(s, a)
            case Err(error) => Err(error)
            case Ok(next) => RunFrom(next, b)
    decreases |a|
  {
    if a == [] {
      assert a + b == b;
    } else {
      assert (a + b)[1..] == a[1..] + b;
      if Step(s, a[0]).Ok? {
        RunConcat(Step(s, a[0]).value, a[1..], b);
      }
    }
  }

  lemma {:induction false} OutsideEvents(events: seq<CalendarEvent>, lines: seq<string>)
    requires forall i | 0 <= i < |lines| :: !IsBegin(lines[i]) && !IsEnd(lines[i])
    ensures RunFrom(State(None, events), lines) == Ok(State(None, events))
    decreases |lines|
  {
    if lines != [] {
      OutsideEvents(events, lines[1..]);
    }
  }

  /** A content line of an open event whose property is set as `after` says. */
  lemma PropertyStep(event: PendingEvent, events: seq<CalendarEvent>, line: string, name: string, property: Property, value: string,
                     after: PendingEvent)
    requires line != "" && Solid(line) && UpperChar(line[0]) != 'B' && UpperChar(line[0]) != 'E'
    requires SplitContentLine(line) == ContentLine(name, value)
    requires PropertyNamed(name) == property && AssignProperty(event, property, value) == Ok(after)
    ensures Step(State(Some(event), events), line) == Ok(State(Some(after), events))
  {
    NotAMarker(line);
    TrimSolid(line);
  }

  lemma PlainStep(event: PendingEvent, events: seq<CalendarEvent>, name: string, property: Property, value: string, after: PendingEvent)
    requires PlainName(name) && PropertyNamed(name) == property
    requires value != "" && !IsSpace(value[|value| - 1]) && AssignProperty(event, property, value) == Ok(after)
    ensures Step(State(Some(event), events), name + ":" + value) == Ok(State(Some(after), events))
  {
    hide PropertyNamed, AssignProperty, Step, SplitContentLine;
    PlainNameFacts(name);
    PlainContentLine(name, value);
    PropertyStep(event, events, name + ":" + value, name, property, value, after);
  }

  lemma DateStep(event: PendingEvent, events: seq<CalendarEvent>, name: string, property: Property, d: Date, after: PendingEvent)
    requires PlainName(name) && PropertyNamed(name) == property && Writable(d)
    requires AssignProperty(event, property, Compact(d)) == Ok(after)
    ensures Step(State(Some(event), events), name + ";VALUE=DATE:" + Compact(d)) == Ok(State(Some(after), events))
  {
    hide PropertyNamed, AssignProperty, Step, SplitContentLine, IsReal;
    PlainNameFacts(name);
    ParameterContentLine(name, "VALUE=DATE", Compact(d));
    var line := name + ";VALUE=DATE:" + Compact(d);
    assert name + ";" + "VALUE=DATE" + ":" + Compact(d) == line;
    assert line[|line| - 1] == Compact(d)[7];
    PropertyStep(event, events, line, name, property, Compact(d), after);
  }

  // ----- one exported event

  lemma BeginStep(events: seq<CalendarEvent>)
    ensures Step(State(None, events), "BEGIN:VEVENT") == Ok(State(Some(NOTHING_YET), events))
  {}

  lemma UidIsPlain(id: string, r: DateRange)
    requires Printable(r) && PlainId(id)
    ensures var uid := Uid(id, r);
            OneLine(uid) && '\\' !in uid && uid != "" && Solid(uid) && uid[0] == 'h' && uid[|uid| - 1] == 'm' && |uid| == |id| + 46
  {
    IsoIsPlain(Civil(r.startsOn));
    IsoIsPlain(Civil(r.endsOn));
  }

  lemma IsoIsPlain(d: Date)
    requires Writable(d)
    ensures forall c | c in Iso(d) :: IsDigit(c) || c == '-'
  {}

  lemma UidStep(id: string, r: DateRange, events: seq<CalendarEvent>)
    requires Printable(r) && PlainId(id)
    ensures var uid := Uid(id, r);
            Step(State(Some(NOTHING_YET), events), "UID:" + uid) == Ok(State(Some(NOTHING_YET.(uid := Some(uid))), events))
  {
    var uid := Uid(id, r);
    NamesArePlain();
    NamedProperties();
    UidIsPlain(id, r);
    hide Uid, PropertyNamed, Step, PlainName;
    PlainStep(NOTHING_YET, events, "UID", ExternalId, uid, NOTHING_YET.(uid := Some(uid)));
    assert "UID" + ":" + uid == "UID:" + uid;
  }

  lemma StampStep(event: PendingEvent, events: seq<CalendarEvent>, stamp: string)
    requires IsStamp(stamp)
    ensures Step(State(Some(event), events), "DTSTAMP:" + stamp) == Ok(State(Some(event), events))
  {
    NamesArePlain();
    NamedProperties();
    hide PropertyNamed, Step, PlainName;
    PlainStep(event, events, "DTSTAMP", Other, stamp, event);
    assert "DTSTAMP" + ":" + stamp == "DTSTAMP:" + stamp;
  }

  lemma DateLiterals()
    ensures "DTSTART" + ";VALUE=DATE:" == "DTSTART;VALUE=DATE:" && "DTEND" + ";VALUE=DATE:" == "DTEND;VALUE=DATE:"
  {}

  lemma StartStep(event: PendingEvent, events: seq<CalendarEvent>, d: Date)
    requires Writable(d)
    ensures Step(State(Some(event), events), "DTSTART;VALUE=DATE:" + Compact(d)) ==
            Ok(State(Some(event.(startsOn := Some(Iso(d)))), events))
  {
    NamesArePlain();
    NamedProperties();
    ReadCompact(d);
    DateLiterals();
    hide PropertyNamed, Step, PlainName, ParseCalendarDate, IsReal, Compact, Iso;
    DateStep(event, events, "DTSTART", Start, d, event.(startsOn := Some(Iso(d))));
  }

  lemma EndStep(event: PendingEvent, events: seq<CalendarEvent>, d: Date)
    requires Writable(d)
    ensures Step(State(Some(event), events), "DTEND;VALUE=DATE:" + Compact(d)) ==
            Ok(State(Some(event.(endsOn := Some(Iso(d)))), events))
  {
    NamesArePlain();
    NamedProperties();
    ReadCompact(d);
    DateLiterals();
    hide PropertyNamed, Step, PlainName, ParseCalendarDate, IsReal, Compact, Iso;
    DateStep(event, events, "DTEND", End, d, event.(endsOn := Some(Iso(d))));
  }

  lemma StatusStep(event: PendingEvent, events: seq<CalendarEvent>)
    ensures Step(State(Some(event), events), "STATUS:CONFIRMED") == Ok(State(Some(event.(status := Some("CONFIRMED"))), events))
  {
    NamesArePlain();
    NamedProperties();
    hide PropertyNamed, Step, PlainName;
    PlainStep(event, events, "STATUS", Status, "CONFIRMED", event.(status := Some("CONFIRMED")));
    assert "STATUS" + ":" + "CONFIRMED" == "STATUS:CONFIRMED";
  }

  lemma TranspStep(event: PendingEvent, events: seq<CalendarEvent>)
    ensures Step(State(Some(event), events), "TRANSP:OPAQUE") == Ok(State(Some(event), events))
  {
    NamesArePlain();
    NamedProperties();
    hide PropertyNamed, Step, PlainName;
    PlainStep(event, events, "TRANSP", Other, "OPAQUE", event);
    assert "TRANSP" + ":" + "OPAQUE" == "TRANSP:OPAQUE";
  }

  lemma SummaryStep(event: PendingEvent, events: seq<CalendarEvent>)
    ensures Step(State(Some(event), events), "SUMMARY:Unavailable") == Ok(State(Some(event.(summary := Some("Unavailable"))), events))
  {
    NamesArePlain();
    NamedProperties();
    hide PropertyNamed, Step, PlainName;
    PlainStep(event, events, "SUMMARY", Summary, "Unavailable", event.(summary := Some("Unavailable")));
    assert "SUMMARY" + ":" + "Unavailable" == "SUMMARY:Unavailable";
  }

  /** The event that is pending when its END line is read. */
  function Complete(id: string, r: DateRange): PendingEvent
    requires Printable(r)
  {
    PendingEvent(Some(Uid(id, r)), None, Some(Iso(Civil(r.startsOn))), Some(Iso(Civil(r.endsOn))),
                 Some("Unavailable"), Some("CONFIRMED"), false)
  }

  lemma IsoIncreases(m: nat, n: nat)
    requires m < n && Writable(Civil(m)) && Writable(Civil(n))
    ensures Less(Iso(Civil(m)), Iso(Civil(n)))
  {
    CivilIncreasing(m, n);
    IsoOrder(Civil(m), Civil(n));
  }

  lemma FixedTexts()
    ensures UnescapeText("") == "" && UnescapeText("Unavailable") == "Unavailable"
    ensures Upper("CONFIRMED") != "CANCELLED"
  {
    hide UnescapeText;
    UnescapePlain("");
    UnescapePlain("Unavailable");
    assert Upper("CONFIRMED")[1] == 'O' && "CANCELLED"[1] == 'A';
  }

  /** An event with a UID, dates and a summary, whatever these texts are, is finished as it stands. */
  lemma FinishPlain(uid: string, startsOn: string, endsOn: string, summary: string, status: string)
    requires 0 < |uid| <= 500 && 0 < |summary| <= 300 && Less(startsOn, endsOn) && Upper(status) != "CANCELLED"
    requires UnescapeText(uid) == uid && UnescapeText(summary) == summary && UnescapeText("") == ""
    ensures FinishEvent(PendingEvent(Some(uid), None, Some(startsOn), Some(endsOn), Some(summary), Some(status), false))
         == Ok(Some(CalendarEvent(uid, uid, startsOn, endsOn, Some(summary))))
  {
    hide UnescapeText, Upper, Less;
  }

  lemma FinishComplete(id: string, r: DateRange)
    requires Printable(r) && PlainId(id) && r.startsOn < r.endsOn
    ensures FinishEvent(Complete(id, r)) == Ok(Some(Imported(id, r)))
  {
    FixedTexts();
    UidIsPlain(id, r);
    UnescapePlain(Uid(id, r));
    IsoIncreases(r.startsOn, r.endsOn);
    hide UnescapeText, Upper, Less, Uid, Iso, FinishEvent;
    FinishPlain(Uid(id, r), Iso(Civil(r.startsOn)), Iso(Civil(r.endsOn)), "Unavailable", "CONFIRMED");
  }

  lemma FinishStep(id: string, r: DateRange, events: seq<CalendarEvent>)
    requires Printable(r) && PlainId(id) && r.startsOn < r.endsOn
    ensures var after := Put(events, Imported(id, r));
            Step(State(Some(Complete(id, r)), events), "END:VEVENT") ==
            if |after| > MAX_ICAL_EVENTS then Err(TooManyEvents) else Ok(State(None, after))
  {
    UpperOfUpper("END:VEVENT");
    MarkerOfSolid("END:VEVENT");
    FinishComplete(id, r);
  }

  lemma EventBody(id: string, stamp: string, r: DateRange, events: seq<CalendarEvent>, rest: seq<string>)
    requires Printable(r) && PlainId(id) && IsStamp(stamp)
    ensures RunFrom(State(None, events), EventLines(id, stamp, r) + rest) ==
            RunFrom(State(Some(Complete(id, r)), events), ["END:VEVENT"] + rest)
  {
    hide Step, Uid, Iso, Compact, IsReal;
    var lines := EventLines(id, stamp, r);
    var e1 := NOTHING_YET.(uid := Some(Uid(id, r)));
    var e2 := e1.(startsOn := Some(Iso(Civil(r.startsOn))));
    var e3 := e2.(endsOn := Some(Iso(Civil(r.endsOn))));
    var e4 := e3.(status := Some("CONFIRMED"));
    BeginStep(events);
    UidStep(id, r, events);
    StampStep(e1, events, stamp);
    StartStep(e1, events, Civil(r.startsOn));
    EndStep(e2, events, Civil(r.endsOn));
    StatusStep(e3, events);
    TranspStep(e4, events);
    SummaryStep(e4, events);
    var steps := [State(None, events), State(Some(NOTHING_YET), events), State(Some(e1), events), State(Some(e1), events),
                  State(Some(e2), events), State(Some(e3), events), State(Some(e4), events), State(Some(e4), events),
                  State(Some(Complete(id, r)), events)];
    Steps(steps, lines[..8]);
    assert lines + rest == lines[..8] + (["END:VEVENT"] + rest);
    RunConcat(State(None, events), lines[..8], ["END:VEVENT"] + rest);
  }

  lemma {:induction false} Steps(steps: seq<State>, lines: seq<string>)
    requires |steps| == |lines| + 1
    requires forall i | 0 <= i < |lines| :: Step(steps[i], lines[i]) == Ok(steps[i + 1])
    ensures RunFrom(steps[0], lines) == Ok(steps[|lines|])
    decreases |lines|
  {
    if lines != [] {
      assert Step(steps[0], lines[0]) == Ok(steps[1]);
      Steps(steps[1..], lines[1..]);
    }
  }

  // ----- all of them

  /** Ranges that start on different days have different UIDs. */
  lemma UidsDiffer(id: string, a: DateRange, b: DateRange)
    requires Printable(a) && Printable(b) && a.startsOn < b.startsOn
    ensures Uid(id, a) != Uid(id, b)
  {
    var k := 5 + |id| + 1;
    assert Uid(id, a)[k..k + 10] == Iso(Civil(a.startsOn)) && Uid(id, b)[k..k + 10] == Iso(Civil(b.startsOn));
    IsoIncreases(a.startsOn, b.startsOn);
    LessIrreflexive(Iso(Civil(a.startsOn)));
  }

  /** The UID tells the property and both dates: no two exported events of any properties share one. */
  lemma UidsAreUnique(id: string, a: DateRange, other: string, b: DateRange)
    requires Printable(a) && Printable(b) && Uid(id, a) == Uid(other, b)
    ensures id == other && a == b
  {
    var uid, n := Uid(id, a), 5 + |id|;
    assert |uid| == n + 41 && |other| == |id|;
    assert uid[5..n] == id && Uid(other, b)[5..n] == other;
    assert uid[n + 1..n + 11] == Iso(Civil(a.startsOn)) && Uid(other, b)[n + 1..n + 11] == Iso(Civil(b.startsOn));
    assert uid[n + 12..n + 22] == Iso(Civil(a.endsOn)) && Uid(other, b)[n + 12..n + 22] == Iso(Civil(b.endsOn));
    hide Iso;
    SameIso(a.startsOn, b.startsOn);
    SameIso(a.endsOn, b.endsOn);
  }

  lemma SameIso(m: Day, n: Day)
    requires Writable(Civil(m)) && Writable(Civil(n)) && Iso(Civil(m)) == Iso(Civil(n))
    ensures m == n
  {
    LessIrreflexive(Iso(Civil(m)));
    if m < n {
      IsoIncreases(m, n);
    } else if n < m {
      IsoIncreases(n, m);
    }
  }

  /** The events of the ranges are put into the map, whatever it holds, one after the other. */
  lemma {:induction false} EventsRun(id: string, stamp: string, ranges: seq<DateRange>, events: seq<CalendarEvent>, rest: seq<string>)
    requires AllPrintable(ranges) && PlainId(id) && IsStamp(stamp) && |events| <= MAX_ICAL_EVENTS
    requires forall i | 0 <= i < |ranges| :: ranges[i].startsOn < ranges[i].endsOn
    ensures var all := PutAll(events, AllImported(id, ranges));
            RunFrom(State(None, events), AllEventLines(id, stamp, ranges) + rest) ==
            if |all| > MAX_ICAL_EVENTS then Err(TooManyEvents) else RunFrom(State(None, all), rest)
    decreases |ranges|
  {
    hide Step, EventLines, Imported, Complete, Put;
    if ranges == [] {
      assert [] + rest == rest;
    } else {
      var r := ranges[0];
      var more := AllEventLines(id, stamp, ranges[1..]) + rest;
      assert AllEventLines(id, stamp, ranges) + rest == EventLines(id, stamp, r) + more;
      assert AllImported(id, ranges)[1..] == AllImported(id, ranges[1..]);
      EventBody(id, stamp, r, events, more);
      FinishStep(id, r, events);
      assert (["END:VEVENT"] + more)[1..] == more;
      var after := Put(events, Imported(id, r));
      PutAllGrows(after, AllImported(id, ranges[1..]));
      if |after| <= MAX_ICAL_EVENTS {
        EventsRun(id, stamp, ranges[1..], after, rest);
      }
    }
  }

  // ----- header and footer

  lemma OpeningIsOutside()
    ensures var lines := OpeningLines();
            forall i | 0 <= i < |lines| :: !IsBegin(lines[i]) && !IsEnd(lines[i])
    ensures IsCalendarLine(OpeningLines()[0])
  {
    hide IsBegin, IsEnd, IsCalendarLine;
    FirstLineIsOutside();
    NotAMarker("VERSION:2.0");
    NotAMarker("PRODID:" + PRODUCT);
    NotAMarker("CALSCALE:GREGORIAN");
    NotAMarker("METHOD:PUBLISH");
  }

  lemma FirstLineIsOutside()
    ensures !IsBegin("BEGIN:VCALENDAR") && !IsEnd("BEGIN:VCALENDAR") && IsCalendarLine("BEGIN:VCALENDAR")
  {}

  predicate IsCalendarLine(line: string) {
    Upper(Trim(line)) == "BEGIN:VCALENDAR"
  }

  lemma FooterIsOutside()
    ensures !IsBegin("END:VCALENDAR") && !IsEnd("END:VCALENDAR") && !IsBegin("") && !IsEnd("")
  {}

  // ----- the lines survive the wire

  predicate Prints(line: string) {
    OneLine(line) && !Continues(line)
  }

  lemma EventLinesPrint(id: string, stamp: string, r: DateRange)
    requires Printable(r) && PlainId(id) && IsStamp(stamp)
    ensures forall l | l in EventLines(id, stamp, r) :: Prints(l)
  {
    UidIsPlain(id, r);
    StampIsOneLine(stamp);
    CompactIsOneLine(Civil(r.startsOn));
    CompactIsOneLine(Civil(r.endsOn));
    NamesPrint();
    MarkersPrint();
    FixedLinesPrint();
    hide Uid, Compact, IsReal, Prints;
    LinePrints("UID:", Uid(id, r));
    LinePrints("DTSTAMP:", stamp);
    LinePrints("DTSTART;VALUE=DATE:", Compact(Civil(r.startsOn)));
    LinePrints("DTEND;VALUE=DATE:", Compact(Civil(r.endsOn)));
  }

  lemma LinePrints(name: string, value: string)
    requires name != "" && Prints(name) && OneLine(value)
    ensures Prints(name + value)
  {}

  lemma NamesPrint()
    ensures Prints("UID:") && Prints("DTSTAMP:") && Prints("DTSTART;VALUE=DATE:") && Prints("DTEND;VALUE=DATE:")
  {}

  lemma MarkersPrint()
    ensures Prints("BEGIN:VEVENT") && Prints("END:VEVENT") && Prints("END:VCALENDAR")
  {}

  lemma FixedLinesPrint()
    ensures Prints("STATUS:CONFIRMED") && Prints("TRANSP:OPAQUE") && Prints("SUMMARY:Unavailable")
  {}

  lemma CompactIsOneLine(d: Date)
    requires Writable(d)
    ensures OneLine(Compact(d))
  {}

  lemma StampIsOneLine(stamp: string)
    requires IsStamp(stamp)
    ensures OneLine(stamp)
  {}

  lemma {:induction false} AllEventLinesPrint(id: string, stamp: string, ranges: seq<DateRange>)
    requires AllPrintable(ranges) && PlainId(id) && IsStamp(stamp)
    ensures forall l | l in AllEventLines(id, stamp, ranges) :: Prints(l)
  {
    if ranges != [] {
      EventLinesPrint(id, stamp, ranges[0]);
      AllEventLinesPrint(id, stamp, ranges[1..]);
    }
  }

  lemma ProductPrints()
    ensures Prints("PRODID:" + PRODUCT)
  {
    assert OneLine(PRODUCT);
    LinePrints("PRODID:", PRODUCT);
  }

  lemma OpeningPrints()
    ensures Prints("BEGIN:VCALENDAR") && Prints("VERSION:2.0")
  {}

  lemma FixedHeadersPrint()
    ensures Prints("CALSCALE:GREGORIAN") && Prints("METHOD:PUBLISH") && Prints("X-WR-CALNAME:")
  {}

  lemma AllOpeningPrints()
    ensures forall l | l in OpeningLines() :: Prints(l)
  {
    ProductPrints();
    OpeningPrints();
    FixedHeadersPrint();
    hide Prints;
  }
}
