/** Two property names with a bare carriage return: one that every feed imports, and one that none can. */
module CalendarNames {
  import opened Wrappers
  import opened Text
  import opened Folding
  import opened DateGrouping
  import opened ICalParser
  import opened ICalGuarantee
  import opened CalendarExport
  import opened CalendarEventLines
  import opened BrokenLines
  import opened CalendarRoundTrip

  const TITLE: string := "X-WR-CALNAME:HOST - "
  const HARMLESS: string := [CR] + "GARDEN"
  const BROKEN: string := [CR] + "END:VEVENT"

  lemma {:induction false} NoSeconds(s: string, first: char, seconds: set<char>, with: string)
    requires forall c | c in s :: c !in seconds
    ensures ReplacePairs(s, first, seconds, with) == s
  {
    if s != "" {
      NoSeconds(s[1..], first, seconds, with);
    }
  }

  lemma EscapeNothing(s: string)
    requires '\\' !in s && LF !in s && ',' !in s && ';' !in s
    ensures EscapeIcalText(s) == s
  {
    NoChars(s, '\\', "\\\\");
    NoSeconds(s, CR, {LF}, "\\n");
    NoChars(s, LF, "\\n");
    NoChars(s, ',', "\\,");
    NoChars(s, ';', "\\;");
  }

  /** A short name that starts with a carriage return makes two lines of the title. */
  lemma TwoLines(rest: string)
    requires OneLine(rest) && !Continues(rest) && |rest| <= 50 && '\\' !in rest && ',' !in rest && ';' !in rest
    ensures Unfold(Wire([TitleLine([CR] + rest)])) == [TITLE, rest, ""]
  {
    var line := TitleLine([CR] + rest);
    TitleHasNoLF([CR] + rest);
    BrokenTitle(rest);
    OneBrokenLine([], line, []);
    ReadsAsTwo(line, rest);
    hide *;
    assert [] + [line] + [] == [line] && [] + [TITLE, rest] + [] + [""] == [TITLE, rest, ""];
  }

  lemma ReadsAsTwo(line: string, rest: string)
    requires OneLine(rest) && !Continues(rest) && line == TITLE + [CR] + rest && Fold(line) == [line]
    ensures ReadLine(line) == [TITLE, rest]
  {
    CutTwo(TITLE, rest);
    TitlePrints();
    hide Cut, Fold;
    assert CutAll([line]) == [TITLE, rest] by {
      assert [line][1..] == [] && Cut(line) + [] == Cut(line);
    }
    PlainLinesStay([], [TITLE, rest]);
    assert [] + [TITLE, rest] == [TITLE, rest];
  }

  lemma BrokenTitle(rest: string)
    requires OneLine(rest) && |rest| <= 50 && '\\' !in rest && ',' !in rest && ';' !in rest
    ensures var line := TitleLine([CR] + rest);
            line == TITLE + [CR] + rest && Fold(line) == [line]
  {
    HostPrefix(rest);
    EscapeNothing("HOST - " + ([CR] + rest));
    Joined(rest);
    hide EscapeIcalText;
  }

  lemma HostPrefix(rest: string)
    requires OneLine(rest) && '\\' !in rest && ',' !in rest && ';' !in rest
    ensures var value := "HOST - " + ([CR] + rest);
            '\\' !in value && LF !in value && ',' !in value && ';' !in value
  {}

  lemma Joined(rest: string)
    ensures "X-WR-CALNAME:" + ("HOST - " + ([CR] + rest)) == TITLE + [CR] + rest
  {
    assert "X-WR-CALNAME:" + "HOST - " == TITLE;
  }

  lemma TitlePrints()
    ensures OneLine(TITLE) && !Continues(TITLE)
  {}

  lemma CutTwo(a: string, b: string)
    requires OneLine(a) && OneLine(b)
    ensures Cut(a + [CR] + b) == [a, b]
  {
    ReplaceAtCR(a, b);
    SplitConcat(a, b);
    SplitNoBreak(a);
    SplitNoBreak(b);
    hide SplitLines;
  }

  lemma {:induction false} ReplaceAtCR(a: string, b: string)
    requires CR !in a && CR !in b
    ensures ReplaceChars(a + [CR] + b, CR, [LF]) == a + [LF] + b
  {
    var s := a + [CR] + b;
    if a == "" {
      NoChars(b, CR, [LF]);
      assert s[1..] == b;
    } else {
      ReplaceAtCR(a[1..], b);
      assert s[0] == a[0] && s[1..] == a[1..] + [CR] + b;
    }
  }

  // ----- a harmless name

  lemma GardenIsPlain()
    ensures var rest := "GARDEN";
            OneLine(rest) && !Continues(rest) && '\\' !in rest && ',' !in rest && ';' !in rest
    ensures !IsBegin("GARDEN") && !IsEnd("GARDEN") && !IsBegin(TITLE) && !IsEnd(TITLE)
  {
    hide IsBegin, IsEnd;
    NotAMarker("GARDEN");
    NotAMarker(TITLE);
  }

  lemma GardenIsRead()
    ensures ReadEvents([TITLE, "GARDEN", ""]) == Ok([])
  {
    GardenIsPlain();
    FooterIsOutside();
    hide IsBegin, IsEnd;
    OutsideEvents([], [TITLE, "GARDEN", ""]);
  }

  lemma GardenAlone()
    ensures TitleAlone(HARMLESS) == Ok([])
  {
    GardenIsPlain();
    hide TitleLine, Unfold, Wire, ReadEvents;
    TwoLines("GARDEN");
    GardenIsRead();
  }

  /** A bare carriage return alone does no harm: what follows it is read as a line outside every event. */
  lemma HarmlessName(id: string, stamp: string, ranges: seq<DateRange>, collate: Collation)
    requires AllPrintable(ranges) && Canonical(ranges) && PlainId(id) && IsStamp(stamp)
    requires ByteLength(Calendar(id, HARMLESS, stamp, ranges)) <= MAX_ICAL_BYTES && |ranges| <= MAX_ICAL_EVENTS
    ensures !NoBareCR(HARMLESS)
    ensures Parse(Calendar(id, HARMLESS, stamp, ranges), collate) == Ok(AllImported(id, ranges))
  {
    assert HARMLESS[0] == CR && HARMLESS[1] == 'G';
    GardenAlone();
    hide TitleAlone, Calendar, ByteLength, Parse, AllImported;
    ExportThenImportIff(id, HARMLESS, stamp, ranges, collate);
  }

  // ----- a name that no reader accepts

  lemma EndIsPlain()
    ensures var rest := "END:VEVENT";
            OneLine(rest) && !Continues(rest) && '\\' !in rest && ',' !in rest && ';' !in rest
    ensures !IsBegin(TITLE) && !IsEnd(TITLE)
  {
    hide IsBegin, IsEnd;
    NotAMarker(TITLE);
  }

  lemma StrayEnd()
    ensures ReadEvents([TITLE, "END:VEVENT", ""]) == Err(EndWithoutBegin)
  {
    var start := State(None, []);
    EndIsPlain();
    EndIsEnd();
    hide Marker, IsBegin, IsEnd;
    OutsideEvents([], [TITLE]);
    RunConcat(start, [TITLE], ["END:VEVENT", ""]);
    assert [TITLE] + ["END:VEVENT", ""] == [TITLE, "END:VEVENT", ""];
  }

  lemma EndIsEnd()
    ensures Marker("END:VEVENT") == "END:VEVENT" && Marker("END:VEVENT") != "BEGIN:VEVENT"
  {
    assert |"END:VEVENT"| == 10 && |"BEGIN:VEVENT"| == 12;
  }

  lemma BrokenAlone()
    ensures TitleAlone(BROKEN) == Err(EndWithoutBegin)
  {
    EndIsPlain();
    hide TitleLine, Unfold, Wire, ReadEvents;
    TwoLines("END:VEVENT");
    StrayEnd();
  }

  /** With this name no calendar can be imported, whatever its ranges. */
  lemma BrokenName(id: string, stamp: string, ranges: seq<DateRange>, collate: Collation)
    requires AllPrintable(ranges) && Canonical(ranges) && PlainId(id) && IsStamp(stamp)
    ensures var text := Calendar(id, BROKEN, stamp, ranges);
            Parse(text, collate) == if ByteLength(text) > MAX_ICAL_BYTES then Err(TooLarge) else Err(EndWithoutBegin)
  {
    BrokenAlone();
    hide TitleAlone, Calendar, ByteLength, Parse;
    RefusedTitle(id, BROKEN, stamp, ranges, collate);
  }
}
