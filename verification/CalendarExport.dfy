/** The iCalendar printer: escaping, event lines, and the whole calendar text. */
module CalendarExport {
  import opened Text
  import opened CivilDates
  import opened Folding
  import opened DateGrouping

  /** `escapeIcalText`. */
  function EscapeIcalText(value: string): string {
    var backslashes := ReplaceChars(value, '\\', "\\\\");
    var breaks := ReplaceChars(ReplacePairs(backslashes, CR, {LF}, "\\n"), LF, "\\n");
    ReplaceChars(ReplaceChars(breaks, ',', "\\,"), ';', "\\;")
  }

  /** The first and the last day of the range can be written with a four-digit year. */
  predicate Printable(r: DateRange) {
    Writable(Civil(r.startsOn)) && Writable(Civil(r.endsOn))
  }

  predicate AllPrintable(ranges: seq<DateRange>) {
    forall i | 0 <= i < |ranges| :: Printable(ranges[i])
  }

  function Uid(propertyId: string, r: DateRange): string
    requires Printable(r)
  {
    "host-" + propertyId + "-" + Iso(Civil(r.startsOn)) + "-" + Iso(Civil(r.endsOn)) + "@hostcityliving.com"
  }

  const PRODUCT: string := "-//HOST//Property Availability//EN"

  function OpeningLines(): (lines: seq<string>)
    ensures |lines| == 5
  {
    ["BEGIN:VCALENDAR", "VERSION:2.0", "PRODID:" + PRODUCT, "CALSCALE:GREGORIAN", "METHOD:PUBLISH"]
  }

  function TitleLine(propertyName: string): string {
    "X-WR-CALNAME:" + EscapeIcalText("HOST - " + propertyName)
  }

  function HeaderLines(propertyName: string): seq<string> {
    OpeningLines() + [TitleLine(propertyName)]
  }

  function EventLines(propertyId: string, generatedAt: string, r: DateRange): seq<string>
    requires Printable(r)
  {
    ["BEGIN:VEVENT", "UID:" + Uid(propertyId, r), "DTSTAMP:" + generatedAt,
     "DTSTART;VALUE=DATE:" + Compact(Civil(r.startsOn)), "DTEND;VALUE=DATE:" + Compact(Civil(r.endsOn)),
     "STATUS:CONFIRMED", "TRANSP:OPAQUE", "SUMMARY:Unavailable", "END:VEVENT"]
  }

  function AllEventLines(propertyId: string, generatedAt: string, ranges: seq<DateRange>): seq<string>
    requires AllPrintable(ranges)
  {
    if ranges == [] then [] else EventLines(propertyId, generatedAt, ranges[0]) + AllEventLines(propertyId, generatedAt, ranges[1..])
  }

  function CalendarLines(propertyId: string, propertyName: string, generatedAt: string, ranges: seq<DateRange>): seq<string>
    requires AllPrintable(ranges)
  {
    HeaderLines(propertyName) + AllEventLines(propertyId, generatedAt, ranges) + ["END:VCALENDAR"]
  }

  function Calendar(propertyId: string, propertyName: string, generatedAt: string, ranges: seq<DateRange>): string
    requires AllPrintable(ranges)
  {
    Wire(CalendarLines(propertyId, propertyName, generatedAt, ranges))
  }

  /** `buildCalendar`, with the time of generation as an argument. */
  method BuildCalendar(propertyId: string, propertyName: string, generatedAt: string, ranges: seq<DateRange>)
    returns (body: string)
    requires AllPrintable(ranges)
    ensures body == Calendar(propertyId, propertyName, generatedAt, ranges)
  {
    var lines := HeaderLines(propertyName);
    for i := 0 to |ranges|
      invariant lines + AllEventLines(propertyId, generatedAt, ranges[i..]) ==
                HeaderLines(propertyName) + AllEventLines(propertyId, generatedAt, ranges)
    {
      var range := ranges[i];
      var added := ["BEGIN:VEVENT",
                    "UID:" + Uid(propertyId, range),
                    "DTSTAMP:" + generatedAt,
                    "DTSTART;VALUE=DATE:" + RemoveDashes(Iso(Civil(range.startsOn))),
                    "DTEND;VALUE=DATE:" + RemoveDashes(Iso(Civil(range.endsOn))),
                    "STATUS:CONFIRMED", "TRANSP:OPAQUE", "SUMMARY:Unavailable", "END:VEVENT"];
      CompactIsoDate(Civil(range.startsOn));
      CompactIsoDate(Civil(range.endsOn));
      assert added == EventLines(propertyId, generatedAt, range);
      NextEvent(lines, propertyId, generatedAt, ranges[i..]);
      assert ranges[i..][1..] == ranges[i + 1..];
      lines := lines + added;
    }
    assert lines + [] == lines;
    lines := lines + ["END:VCALENDAR"];
    var folded := FoldLines(lines);
    body := Join(folded, CRLF) + CRLF;
  }

  /** `lines.flatMap(foldLine)`. */
  method FoldLines(lines: seq<string>) returns (folded: seq<string>)
    ensures folded == FoldAll(lines)
  {
    folded := [];
    for i := 0 to |lines|
      invariant folded + FoldAll(lines[i..]) == FoldAll(lines)
    {
      var physical := FoldLine(lines[i]);
      assert lines[i..][1..] == lines[i + 1..];
      folded := folded + physical;
    }
    assert folded + [] == folded;
  }

  lemma NextEvent(lines: seq<string>, propertyId: string, generatedAt: string, ranges: seq<DateRange>)
    requires ranges != [] && AllPrintable(ranges)
    ensures lines + AllEventLines(propertyId, generatedAt, ranges) ==
            lines + EventLines(propertyId, generatedAt, ranges[0]) + AllEventLines(propertyId, generatedAt, ranges[1..])
  {}

  // ----- which names stay on one line

  /** Every carriage return is followed by a line feed. */
  predicate NoBareCR(s: string) {
    forall i | 0 <= i < |s| && s[i] == CR :: i + 1 < |s| && s[i + 1] == LF
  }

  lemma NoBareCRCons(c: char, s: string)
    ensures NoBareCR([c] + s) <==> (c == CR ==> s != "" && s[0] == LF) && NoBareCR(s)
  {
    var t := [c] + s;
    assert forall i | 0 <= i < |s| :: s[i] == t[i + 1];
    if NoBareCR(t) {
      assert t[0] == c;
      forall i | 0 <= i < |s| && s[i] == CR ensures i + 1 < |s| && s[i + 1] == LF {
        assert t[i + 1] == CR;
      }
    } else if NoBareCR(s) {
      assert exists i :: 0 <= i < |t| && t[i] == CR && !(i + 1 < |t| && t[i + 1] == LF);
      assert forall i | 0 < i < |t| :: t[i] == s[i - 1];
    }
  }

  lemma {:induction false} ReplaceKeepsPairs(s: string, c: char, with: string)
    requires c != CR && c != LF && |with| == 2 && CR !in with && LF !in with
    ensures NoBareCR(ReplaceChars(s, c, with)) <==> NoBareCR(s)
  {
    if s != "" {
      var rest := ReplaceChars(s[1..], c, with);
      ReplaceKeepsPairs(s[1..], c, with);
      assert s == [s[0]] + s[1..];
      NoBareCRCons(s[0], s[1..]);
      if s[0] == c {
        assert with + rest == [with[0]] + ([with[1]] + rest);
        NoBareCRCons(with[1], rest);
        NoBareCRCons(with[0], [with[1]] + rest);
      } else {
        NoBareCRCons(s[0], rest);
      }
    }
  }

  lemma {:induction false} PairsTakeCR(s: string, with: string)
    requires CR !in with
    ensures CR !in ReplacePairs(s, CR, {LF}, with) <==> NoBareCR(s)
  {
    if |s| >= 2 && s[0] == CR && s[1] == LF {
      PairsTakeCR(s[2..], with);
      assert s == [s[0]] + ([s[1]] + s[2..]);
      NoBareCRCons(s[1], s[2..]);
      NoBareCRCons(s[0], [s[1]] + s[2..]);
    } else if s != "" {
      PairsTakeCR(s[1..], with);
      assert s == [s[0]] + s[1..];
      NoBareCRCons(s[0], s[1..]);
    }
  }

  lemma {:induction false} ReplaceCharsKeepsOthers(s: string, c: char, with: string, x: char)
    requires x != c && x !in with
    ensures x in ReplaceChars(s, c, with) <==> x in s
  {
    if s != "" {
      ReplaceCharsKeepsOthers(s[1..], c, with, x);
      assert s == [s[0]] + s[1..];
    }
  }

  /** Escaping leaves one line exactly when the text has no carriage return of its own. */
  lemma EscapedIsOneLineIff(value: string)
    ensures OneLine(EscapeIcalText(value)) <==> NoBareCR(value)
  {
    var backslashes := ReplaceChars(value, '\\', "\\\\");
    var pairs := ReplacePairs(backslashes, CR, {LF}, "\\n");
    var breaks := ReplaceChars(pairs, LF, "\\n");
    ReplaceKeepsPairs(value, '\\', "\\\\");
    PairsTakeCR(backslashes, "\\n");
    ReplaceCharsKeepsOthers(pairs, LF, "\\n", CR);
    if LF in breaks {
      ReplaceCharsMembers(pairs, LF, "\\n", LF);
      assert false;
    }
    forall x | x == CR || x == LF ensures x in EscapeIcalText(value) <==> x in breaks {
      ReplaceCharsKeepsOthers(breaks, ',', "\\,", x);
      ReplaceCharsKeepsOthers(ReplaceChars(breaks, ',', "\\,"), ';', "\\;", x);
    }
  }
}
