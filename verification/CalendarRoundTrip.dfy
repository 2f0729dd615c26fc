/**
 * Reading a printed calendar back: for every property name, exactly when it gives the printed
 * ranges, and that no feed stores any of them.
 */
module CalendarRoundTrip {
  import opened Wrappers
  import opened Text
  import opened CivilDates
  import opened Folding
  import opened DateGrouping
  import opened ICalParser
  import opened ICalGuarantee
  import opened CalendarExport
  import opened CalendarEventLines
  import opened BrokenLines

  // ----- HOST's own events

  /** `isHostCalendarEvent`. */
  predicate IsHostCalendarEvent(event: CalendarEvent) {
    EndsWith(Lower(Trim(event.externalUid)), "@hostcityliving.com")
  }

  /** The events of a feed that are stored. */
  function StoredEvents(events: seq<CalendarEvent>): seq<CalendarEvent> {
    if events == [] then []
    else (if IsHostCalendarEvent(events[0]) then [] else [events[0]]) + StoredEvents(events[1..])
  }

  // ----- the title line

  lemma {:induction false} ReplacementRemoves(s: string, c: char, with: string)
    requires c !in with
    ensures c !in ReplaceChars(s, c, with)
  {
    if s != "" {
      ReplacementRemoves(s[1..], c, with);
    }
  }

  /** Whatever the name, the title is one text without line feeds that starts with its property name. */
  lemma TitleHasNoLF(name: string)
    ensures LF !in TitleLine(name) && PlainStart(TitleLine(name))
  {
    var value := "HOST - " + name;
    var backslashes := ReplaceChars(value, '\\', "\\\\");
    var pairs := ReplacePairs(backslashes, CR, {LF}, "\\n");
    var breaks := ReplaceChars(pairs, LF, "\\n");
    ReplacementRemoves(pairs, LF, "\\n");
    ReplaceCharsKeepsOthers(breaks, ',', "\\,", LF);
    ReplaceCharsKeepsOthers(ReplaceChars(breaks, ',', "\\,"), ';', "\\;", LF);
    hide ReplaceChars, ReplacePairs;
  }

  /** What the reader makes of a calendar that holds nothing but the title line. */
  function TitleAlone(name: string): Result<seq<CalendarEvent>, ParseError> {
    ReadEvents(Unfold(Wire([TitleLine(name)])))
  }

  /** The title is read as no event, or as events that the printed ones replace. */
  predicate TitleIsHarmless(name: string, events: seq<CalendarEvent>) {
    var read := TitleAlone(name);
    read.Ok? && forall e | e in read.value :: exists i | 0 <= i < |events| :: events[i].eventKey == e.eventKey
  }

  // ----- the lines that are read

  const FOOTER: seq<string> := ["END:VCALENDAR", ""]

  lemma LinesRead(id: string, name: string, stamp: string, ranges: seq<DateRange>)
    requires AllPrintable(ranges) && PlainId(id) && IsStamp(stamp)
    ensures Unfold(Calendar(id, name, stamp, ranges)) ==
            OpeningLines() + (ReadLine(TitleLine(name)) + (AllEventLines(id, stamp, ranges) + FOOTER))
    ensures Unfold(Wire([TitleLine(name)])) == ReadLine(TitleLine(name)) + [""]
  {
    TitleHasNoLF(name);
    AllOpeningPrints();
    AllEventLinesPrint(id, stamp, ranges);
    MarkersPrint();
    var title, events := ReadLine(TitleLine(name)), AllEventLines(id, stamp, ranges);
    var after := events + ["END:VCALENDAR"];
    hide OpeningLines, TitleLine, AllEventLines, Unfold, Wire, ReadLine, Fold, Prints, PlainStart;
    PrintsArePlain(OpeningLines());
    PrintsArePlain(after);
    PrintsArePlain([]);
    OneBrokenLine(OpeningLines(), TitleLine(name), after);
    OneBrokenLine([], TitleLine(name), []);
    hide AllPlain;
    LinesOf(id, name, stamp, ranges);
    Regrouped(OpeningLines(), title, events);
    assert [] + [TitleLine(name)] + [] == [TitleLine(name)] && [] + title + [] + [""] == title + [""];
  }

  lemma LinesOf(id: string, name: string, stamp: string, ranges: seq<DateRange>)
    requires AllPrintable(ranges)
    ensures CalendarLines(id, name, stamp, ranges) ==
            OpeningLines() + [TitleLine(name)] + (AllEventLines(id, stamp, ranges) + ["END:VCALENDAR"])
  {
    hide OpeningLines, TitleLine, AllEventLines;
  }

  lemma Regrouped(opening: seq<string>, title: seq<string>, events: seq<string>)
    ensures opening + title + (events + ["END:VCALENDAR"]) + [""] == opening + (title + (events + FOOTER))
  {
    assert ["END:VCALENDAR"] + [""] == FOOTER;
  }

  lemma PrintsArePlain(lines: seq<string>)
    requires forall l | l in lines :: Prints(l)
    ensures AllPlain(lines)
  {}

  // ----- reading them

  /** A line that holds no property leaves an open event alone. */
  lemma LineIgnored(s: State, line: string)
    requires !IsBegin(line) && !IsEnd(line) && TrimEnd(line) == line && PropertyNamed(SplitContentLine(line).name) == Other
    ensures Step(s, line) == Ok(s)
  {
    hide PropertyNamed, SplitContentLine, Marker;
  }

  lemma FooterContent()
    ensures SplitContentLine("END:VCALENDAR").name == "END" && SplitContentLine("").name == ""
  {
    OtherNames();
    hide PropertyNamed, Upper;
    var name, line := "END", "END:VCALENDAR";
    assert line == name + [':'] + "VCALENDAR";
    IndexAfterPrefix(name, ':', "VCALENDAR");
    assert line[..3] == name && IndexOf(name, ';') == -1;
  }

  lemma FooterIsSolid()
    ensures TrimEnd("END:VCALENDAR") == "END:VCALENDAR" && TrimEnd("") == ""
  {}

  lemma NothingAssigned(s: State)
    ensures Step(s, "END:VCALENDAR") == Ok(s) && Step(s, "") == Ok(s)
  {
    hide PropertyNamed, SplitContentLine, IsBegin, IsEnd, Step, TrimEnd;
    FooterIsOutside();
    FooterContent();
    FooterIsSolid();
    OtherNames();
    LineIgnored(s, "END:VCALENDAR");
    LineIgnored(s, "");
  }

  lemma OtherNames()
    ensures PropertyNamed("END") == Other && PropertyNamed("") == Other && Upper("END") == "END"
  {}

  lemma FooterRun(s: State)
    ensures RunFrom(s, FOOTER) == Ok(s)
  {
    NothingAssigned(s);
    hide Step;
    assert FOOTER[1..] == [""] && [""][1..] == [];
  }

  lemma ReadAlone(title: seq<string>)
    ensures var run := RunFrom(State(None, []), title);
            ReadEvents(title + [""]) ==
            if run.Err? then Err(run.error) else if run.value.pending.Some? then Err(MissingEnd) else Ok(run.value.events)
  {
    var start := State(None, []);
    RunConcat(start, title, [""]);
    var run := RunFrom(start, title);
    if run.Ok? {
      NothingAssigned(run.value);
      assert [""][1..] == [];
    }
    hide Step;
  }

  lemma NestedRun(s: State, id: string, stamp: string, ranges: seq<DateRange>)
    requires s.pending.Some? && ranges != [] && AllPrintable(ranges)
    ensures RunFrom(s, AllEventLines(id, stamp, ranges) + FOOTER) == Err(NestedEvent)
  {
    var lines := AllEventLines(id, stamp, ranges) + FOOTER;
    assert lines[0] == "BEGIN:VEVENT";
    BeginIsBegin();
    hide Marker, EventLines;
  }

  lemma BeginIsBegin()
    ensures Marker("BEGIN:VEVENT") == "BEGIN:VEVENT"
  {
    var begin := "BEGIN:VEVENT";
    assert forall i | 0 <= i < |begin| :: UpperChar(begin[i]) == begin[i];
    UpperOfUpper(begin);
    hide Upper, Marker;
    MarkerOfSolid(begin);
  }

  /** The whole reading, told by what the title reads as. */
  lemma CalendarRead(id: string, name: string, stamp: string, ranges: seq<DateRange>)
    requires AllPrintable(ranges) && Canonical(ranges) && PlainId(id) && IsStamp(stamp)
    ensures var title, whole := TitleAlone(name), ReadEvents(Unfold(Calendar(id, name, stamp, ranges)));
            if title.Err? then whole.Err? && (title.error != MissingEnd ==> whole.error == title.error)
            else
              var all := PutAll(title.value, AllImported(id, ranges));
              whole == if |all| > MAX_ICAL_EVENTS then Err(TooManyEvents) else Ok(all)
    ensures IsCalendar(Unfold(Calendar(id, name, stamp, ranges)))
  {
    var start := State(None, []);
    var title := ReadLine(TitleLine(name));
    var events := AllEventLines(id, stamp, ranges);
    LinesRead(id, name, stamp, ranges);
    OpeningIsOutside();
    OutsideEvents([], OpeningLines());
    hide OpeningLines, ReadLine, TitleLine, Calendar, Wire, Unfold, Step, AllEventLines, IsBegin, IsEnd, AllImported;
    assert IsCalendarLine((OpeningLines() + (title + (events + FOOTER)))[0]);
    ReadAlone(title);
    RunConcat(start, OpeningLines(), title + (events + FOOTER));
    RunConcat(start, title, events + FOOTER);
    var run := RunFrom(start, title);
    if run.Ok? {
      if run.value.pending.Some? {
        if ranges == [] {
          NoEventLines(id, stamp, ranges);
          assert events + FOOTER == FOOTER;
          FooterRun(run.value);
        } else {
          NestedRun(run.value, id, stamp, ranges);
        }
      } else {
        TitleEventsFit(name);
        EventsRun(id, stamp, ranges, run.value.events, FOOTER);
        FooterRun(State(None, PutAll(run.value.events, AllImported(id, ranges))));
      }
    }
  }

  lemma NoEventLines(id: string, stamp: string, ranges: seq<DateRange>)
    requires ranges == []
    ensures AllPrintable(ranges) && AllEventLines(id, stamp, ranges) == []
  {}

  lemma TitleEventsFit(name: string)
    requires TitleAlone(name).Ok?
    ensures |TitleAlone(name).value| <= MAX_ICAL_EVENTS && DistinctKeys(TitleAlone(name).value)
  {
    var lines := Unfold(Wire([TitleLine(name)]));
    hide Unfold, Wire, ReadEvents;
    AcceptedIff(lines);
    LastOfAllWins(EventsOf(Bodies(lines)));
  }

  // ----- the map and the sort

  predicate HasKey(events: seq<CalendarEvent>, key: string) {
    exists i | 0 <= i < |events| :: events[i].eventKey == key
  }

  /** Put behind each other, later events replace those with their keys. */
  lemma {:induction false} PutAllMembers(events: seq<CalendarEvent>, more: seq<CalendarEvent>)
    requires DistinctKeys(events) && DistinctKeys(more)
    ensures DistinctKeys(PutAll(events, more))
    ensures forall e :: e in PutAll(events, more) <==> e in more || (e in events && !HasKey(more, e.eventKey))
    decreases |more|
  {
    if more != [] {
      var first, rest := more[0], more[1..];
      PutKeeps(events, first);
      assert forall i | 0 <= i < |rest| :: rest[i] == more[i + 1];
      PutAllMembers(Put(events, first), rest);
      hide Put, PutAll, DistinctKeys;
      forall e ensures e in PutAll(events, more) <==> e in more || (e in events && !HasKey(more, e.eventKey)) {
        HasKeyCons(first, rest, e.eventKey);
        assert more == [first] + rest;
        FirstKeyIsNew(more, e.eventKey);
      }
    }
  }

  lemma HasKeyCons(first: CalendarEvent, rest: seq<CalendarEvent>, key: string)
    ensures HasKey([first] + rest, key) <==> first.eventKey == key || HasKey(rest, key)
  {
    var all := [first] + rest;
    assert all[0] == first && forall i | 0 <= i < |rest| :: all[i + 1] == rest[i];
  }

  lemma FirstKeyIsNew(more: seq<CalendarEvent>, key: string)
    requires more != [] && DistinctKeys(more)
    ensures more[0].eventKey == key ==> !HasKey(more[1..], key)
  {
    assert forall i | 0 <= i < |more[1..]| :: more[1..][i] == more[i + 1];
  }

  lemma ImportedKeys(id: string, ranges: seq<DateRange>)
    requires AllPrintable(ranges) && Canonical(ranges)
    ensures DistinctKeys(AllImported(id, ranges)) && StrictlyByStart(AllImported(id, ranges))
  {
    var events := AllImported(id, ranges);
    forall i, j | 0 <= i < j < |events|
      ensures events[i].eventKey != events[j].eventKey && Less(events[i].startsOn, events[j].startsOn)
    {
      assert ranges[i].startsOn < ranges[i].endsOn < ranges[j].startsOn;
      UidsDiffer(id, ranges[i], ranges[j]);
      IsoIncreases(ranges[i].startsOn, ranges[j].startsOn);
    }
  }

  predicate StrictlyByStart(events: seq<CalendarEvent>) {
    forall i, j | 0 <= i < j < |events| :: Less(events[i].startsOn, events[j].startsOn)
  }

  lemma FirstAgrees(sorted: seq<CalendarEvent>, strict: seq<CalendarEvent>)
    requires SortedByStart(sorted) && StrictlyByStart(strict) && multiset(sorted) == multiset(strict) && strict != []
    ensures sorted != [] && sorted[0] == strict[0]
  {
    assert strict[0] in multiset(sorted);
    assert sorted[0] in multiset(strict);
    var i :| 0 <= i < |strict| && strict[i] == sorted[0];
    var j :| 0 <= j < |sorted| && sorted[j] == strict[0];
    LessIrreflexive(strict[0].startsOn);
    assert j > 0 ==> !Less(sorted[j].startsOn, sorted[0].startsOn);
    assert i > 0 ==> Less(strict[0].startsOn, strict[i].startsOn);
  }

  lemma MultisetTail(s: seq<CalendarEvent>)
    requires s != []
    ensures multiset(s[1..]) == multiset(s) - multiset{s[0]}
  {
    assert s == [s[0]] + s[1..];
  }

  /** Sorting events that start on different days gives them in one order only. */
  lemma {:induction false} OneOrder(sorted: seq<CalendarEvent>, strict: seq<CalendarEvent>)
    requires SortedByStart(sorted) && StrictlyByStart(strict) && multiset(sorted) == multiset(strict)
    ensures sorted == strict
  {
    if strict == [] {
      assert |multiset(sorted)| == 0;
    } else {
      FirstAgrees(sorted, strict);
      MultisetTail(sorted);
      MultisetTail(strict);
      assert SortedByStart(sorted[1..]) && StrictlyByStart(strict[1..]);
      OneOrder(sorted[1..], strict[1..]);
      assert sorted == [sorted[0]] + sorted[1..] && strict == [strict[0]] + strict[1..];
    }
  }

  lemma SameMultiset(a: seq<CalendarEvent>, b: seq<CalendarEvent>)
    requires DistinctKeys(a) && DistinctKeys(b) && forall e :: e in a <==> e in b
    ensures multiset(a) == multiset(b)
  {
    forall e ensures multiset(a)[e] == multiset(b)[e] {
      OnceEach(a, e);
      OnceEach(b, e);
      assert (e in a <==> multiset(a)[e] > 0) && (e in b <==> multiset(b)[e] > 0);
    }
  }

  /** The sorted map is the printed events exactly when every key in it before was one of theirs. */
  lemma SortedMapIff(before: seq<CalendarEvent>, printed: seq<CalendarEvent>, collate: Collation)
    requires DistinctKeys(before) && DistinctKeys(printed) && StrictlyByStart(printed)
    ensures Sort(collate, PutAll(before, printed)) == printed <==> forall e | e in before :: HasKey(printed, e.eventKey)
    ensures (forall e | e in before :: HasKey(printed, e.eventKey)) ==> |PutAll(before, printed)| == |printed|
  {
    var all := PutAll(before, printed);
    PutAllMembers(before, printed);
    SortSorts(collate, all);
    var sorted := Sort(collate, all);
    hide PutAll, Sort, DistinctKeys;
    if forall e | e in before :: HasKey(printed, e.eventKey) {
      SameMultiset(all, printed);
      assert |multiset(all)| == |all| && |multiset(printed)| == |printed|;
      OneOrder(sorted, printed);
    } else {
      var e :| e in before && !HasKey(printed, e.eventKey);
      assert e in multiset(sorted);
      assert e !in printed;
    }
  }

  // ----- recognised as HOST's own

  lemma RecognisedAsOwn(id: string, r: DateRange)
    requires Printable(r) && PlainId(id)
    ensures IsHostCalendarEvent(Imported(id, r))
  {
    var uid := Uid(id, r);
    UidIsPlain(id, r);
    TrimSolid(uid);
    var suffix := "@hostcityliving.com";
    var n := |uid| - |suffix|;
    assert uid[n..] == suffix;
    LowerOfLower(suffix);
    forall i | n <= i < |uid| ensures Lower(uid)[i] == suffix[i - n] {
      assert uid[i] == uid[n..][i - n] && Lower(suffix)[i - n] == LowerChar(suffix[i - n]);
    }
    assert Lower(uid)[n..] == suffix;
  }

  lemma LowerIsPointwise(s: string, n: nat)
    requires n <= |s|
    ensures Lower(s)[n..] == Lower(s[n..])
  {}

  /** An event is HOST's own exactly if its UID, blanks at its ends aside, ends with the domain in any letter case. */
  lemma OwnIff(event: CalendarEvent)
    ensures IsHostCalendarEvent(event) <==>
            exists front, domain :: Trim(event.externalUid) == front + domain && Lower(domain) == "@hostcityliving.com"
  {
    var uid, suffix := Trim(event.externalUid), "@hostcityliving.com";
    hide Trim, Lower;
    if IsHostCalendarEvent(event) {
      var n := |uid| - |suffix|;
      LowerIsPointwise(uid, n);
      assert uid == uid[..n] + uid[n..];
    }
    if front, domain :| uid == front + domain && Lower(domain) == suffix {
      LowerIsPointwise(uid, |front|);
      assert uid[|front|..] == domain;
    }
  }

  /** What a sync stores: the events of others, in their order. */
  lemma {:induction false} StoredAreOthers(events: seq<CalendarEvent>)
    ensures forall e :: e in StoredEvents(events) <==> e in events && !IsHostCalendarEvent(e)
    ensures (forall i | 0 <= i < |events| :: !IsHostCalendarEvent(events[i])) ==> StoredEvents(events) == events
  {
    hide IsHostCalendarEvent;
    if events != [] {
      StoredAreOthers(events[1..]);
      assert events == [events[0]] + events[1..];
      assert (forall i | 0 <= i < |events| :: !IsHostCalendarEvent(events[i])) ==> forall i | 0 <= i < |events[1..]| :: events[1..][i] == events[i + 1];
    }
  }

  lemma {:induction false} NothingStored(events: seq<CalendarEvent>)
    requires forall i | 0 <= i < |events| :: IsHostCalendarEvent(events[i])
    ensures StoredEvents(events) == []
  {
    if events != [] {
      NothingStored(events[1..]);
    }
  }

  // ----- the theorems

  /** Every UID line is longer than a physical line, unless the property identifier has fewer than 24 characters. */
  lemma UidLineIsFolded(id: string, r: DateRange)
    requires Printable(r)
    ensures |Fold("UID:" + Uid(id, r))| == 1 <==> |id| <= 23
  {}

  /**
   * For every property name: within the limits of 2 MB and 5000 ranges, reading a printed calendar
   * back gives exactly its ranges, in order, if and only if its title line alone reads as nothing
   * but events that the printed ones replace.
   */
  lemma ExportThenImportIff(id: string, name: string, stamp: string, ranges: seq<DateRange>, collate: Collation)
    requires AllPrintable(ranges) && Canonical(ranges) && PlainId(id) && IsStamp(stamp)
    requires ByteLength(Calendar(id, name, stamp, ranges)) <= MAX_ICAL_BYTES && |ranges| <= MAX_ICAL_EVENTS
    ensures Parse(Calendar(id, name, stamp, ranges), collate) == Ok(AllImported(id, ranges))
            <==> TitleIsHarmless(name, AllImported(id, ranges))
  {
    var printed := AllImported(id, ranges);
    CalendarRead(id, name, stamp, ranges);
    ImportedKeys(id, ranges);
    if TitleAlone(name).Ok? {
      TitleEventsFit(name);
      SortedMapIff(TitleAlone(name).value, printed, collate);
    }
    hide Calendar, Unfold, ReadEvents, IsCalendar, TitleAlone, PutAll, Sort, AllImported, ByteLength, DistinctKeys, StrictlyByStart;
  }

  /** What the reader says of any calendar whose title alone is refused. */
  lemma RefusedTitle(id: string, name: string, stamp: string, ranges: seq<DateRange>, collate: Collation)
    requires AllPrintable(ranges) && Canonical(ranges) && PlainId(id) && IsStamp(stamp)
    requires TitleAlone(name).Err? && TitleAlone(name).error != MissingEnd
    ensures var text := Calendar(id, name, stamp, ranges);
            Parse(text, collate) == if ByteLength(text) > MAX_ICAL_BYTES then Err(TooLarge) else Err(TitleAlone(name).error)
  {
    CalendarRead(id, name, stamp, ranges);
    hide Calendar, Unfold, ReadEvents, IsCalendar, TitleAlone, ByteLength;
  }

  lemma TitleOfPlainName(name: string)
    requires NoBareCR(name)
    ensures TitleAlone(name) == Ok([])
  {
    var line := TitleLine(name);
    TitleHasNoBareCR(name);
    EscapedIsOneLineIff("HOST - " + name);
    assert OneLine(line) && !Continues(line);
    FoldUnfoldRoundTrip([line]);
    TitleIsOutside(name);
    FooterIsOutside();
    hide TitleLine, Unfold, Wire, IsBegin, IsEnd;
    OutsideEvents([], [line] + [""]);
  }

  lemma TitleHasNoBareCR(name: string)
    requires NoBareCR(name)
    ensures NoBareCR("HOST - " + name)
  {
    var title := "HOST - " + name;
    assert forall i | 0 <= i < 7 :: title[i] != CR;
    assert forall i | 7 <= i < |title| :: title[i] == name[i - 7];
  }

  lemma TitleIsOutside(name: string)
    ensures !IsBegin(TitleLine(name)) && !IsEnd(TitleLine(name))
  {
    hide EscapeIcalText, IsBegin, IsEnd;
    NotAMarker(TitleLine(name));
  }

  /**
   * A name without a bare carriage return is harmless to every calendar: too large a text and more
   * than 5000 ranges are refused, and every other calendar gives exactly its ranges, in order.
   */
  lemma ExportThenImport(id: string, name: string, stamp: string, ranges: seq<DateRange>, collate: Collation)
    requires AllPrintable(ranges) && Canonical(ranges) && PlainId(id) && IsStamp(stamp) && NoBareCR(name)
    ensures var text := Calendar(id, name, stamp, ranges);
            Parse(text, collate) ==
            if ByteLength(text) > MAX_ICAL_BYTES then Err(TooLarge)
            else if |ranges| > MAX_ICAL_EVENTS then Err(TooManyEvents)
            else Ok(AllImported(id, ranges))
  {
    CalendarRead(id, name, stamp, ranges);
    TitleOfPlainName(name);
    ImportedKeys(id, ranges);
    SortedMapIff([], AllImported(id, ranges), collate);
    hide Calendar, Unfold, ReadEvents, IsCalendar, TitleAlone, PutAll, Sort, ByteLength, DistinctKeys, StrictlyByStart, Imported;
  }

  /** Two printed ranges that read back as the same event are the same range. */
  lemma ImportedIsInjective(id: string, a: DateRange, b: DateRange)
    requires Printable(a) && Printable(b)
    requires Imported(id, a).startsOn == Imported(id, b).startsOn && Imported(id, a).endsOn == Imported(id, b).endsOn
    ensures a == b
  {
    LessIrreflexive(Iso(Civil(a.startsOn)));
    LessIrreflexive(Iso(Civil(a.endsOn)));
    if a.startsOn != b.startsOn {
      IsoIncreases(if a.startsOn < b.startsOn then a.startsOn else b.startsOn, if a.startsOn < b.startsOn then b.startsOn else a.startsOn);
    } else if a.endsOn != b.endsOn {
      IsoIncreases(if a.endsOn < b.endsOn then a.endsOn else b.endsOn, if a.endsOn < b.endsOn then b.endsOn else a.endsOn);
    }
  }

  lemma GroupedArePrintable(nights: seq<Day>, ranges: seq<DateRange>)
    requires forall d | d in nights :: Writable(Civil(d + 1))
    requires Canonical(ranges) && forall d :: Covered(d, ranges) <==> d in nights
    ensures AllPrintable(ranges)
  {
    hide IsReal, NextDay;
    forall i | 0 <= i < |ranges| ensures Printable(ranges[i]) {
      var r := ranges[i];
      assert InRange(r.endsOn - 1, r);
      assert Covered(r.endsOn - 1, ranges);
      CivilIncreasing(r.startsOn, r.endsOn);
    }
  }

  /**
   * The whole way from any list of nights and any name: the ranges cover exactly those nights, they
   * come back exactly when the title is harmless, and a feed that syncs them stores nothing.
   */
  lemma ExportedNightsComeBack(id: string, name: string, stamp: string, nights: seq<Day>, collate: Collation)
    returns (ranges: seq<DateRange>)
    requires forall d | d in nights :: Writable(Civil(d + 1))
    requires PlainId(id) && IsStamp(stamp)
    ensures ranges == Group(SortedUnique(nights)) && AllPrintable(ranges)
    ensures forall d :: Covered(d, ranges) <==> d in nights
    ensures var text := Calendar(id, name, stamp, ranges);
            ByteLength(text) <= MAX_ICAL_BYTES && |ranges| <= MAX_ICAL_EVENTS ==>
              (Parse(text, collate) == Ok(AllImported(id, ranges)) <==> TitleIsHarmless(name, AllImported(id, ranges)))
    ensures StoredEvents(AllImported(id, ranges)) == []
  {
    ranges := Group(SortedUnique(nights));
    GroupingIsCanonical(nights);
    GroupedArePrintable(nights, ranges);
    hide Parse, IsHostCalendarEvent, Imported, Calendar, Covered, Canonical, ByteLength, TitleIsHarmless;
    if ByteLength(Calendar(id, name, stamp, ranges)) <= MAX_ICAL_BYTES && |ranges| <= MAX_ICAL_EVENTS {
      ExportThenImportIff(id, name, stamp, ranges, collate);
    }
    forall i | 0 <= i < |ranges| ensures IsHostCalendarEvent(AllImported(id, ranges)[i]) {
      RecognisedAsOwn(id, ranges[i]);
    }
    NothingStored(AllImported(id, ranges));
  }
}
