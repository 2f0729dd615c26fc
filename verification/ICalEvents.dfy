/**
 * What the lines of one event make of it, told by the values that the lines give, and what becomes of
 * every event of an accepted text.
 */
module ICalEvents {
  import opened Wrappers
  import opened Text
  import opened CivilDates
  import opened Folding
  import opened ICalParser
  import opened ICalGuarantee

  // ----- the values of a property

  function Content(line: string): ContentLine {
    SplitContentLine(TrimEnd(line))
  }

  /** The values of the lines with this name, in order. */
  function Values(body: seq<string>, name: string): (values: seq<string>) {
    if body == [] then []
    else
      var last := Content(body[|body| - 1]);
      Values(body[..|body| - 1], name) + if last.name == name then [last.value] else []
  }

  function Last(values: seq<string>): Option<string> {
    if values == [] then None else Some(values[|values| - 1])
  }

  /** The start and end dates given by the lines, whichever comes first. */
  function DateValues(body: seq<string>): (values: seq<string>) {
    if body == [] then []
    else
      var last := Content(body[|body| - 1]);
      DateValues(body[..|body| - 1]) + if last.name in {"DTSTART", "DTEND"} then [last.value] else []
  }

  /**
   * The name of a content line is what stands before its first semicolon or colon, in capitals,
   * the value all that follows its first colon.
   */
  lemma ContentLineIs(name: string, parameters: string, value: string)
    requires ':' !in name && ';' !in name && ':' !in parameters && (parameters == "" || parameters[0] == ';') && name + parameters != ""
    ensures SplitContentLine(name + parameters + ":" + value) == ContentLine(Upper(name), value)
  {
    var property := name + parameters;
    var line := property + ":" + value;
    assert ":" == [':'];
    IndexAfterPrefix(property, ':', value);
    assert line[..|property|] == property && line[|property| + 1..] == value;
    if parameters != "" {
      IndexAfterPrefix(name, ';', parameters[1..]);
      assert property == name + [';'] + parameters[1..] && property[..|name|] == name;
    } else {
      assert property == name;
    }
  }

  /** A line without a colon, or with nothing before it, has no name. */
  lemma NoContent(line: string)
    ensures ':' !in line || line[0] == ':' ==> SplitContentLine(line) == ContentLine("", "")
  {}

  // ----- dates

  function Dashed(s: string): string
    requires |s| == 8
  {
    s[0..4] + "-" + s[4..6] + "-" + s[6..8]
  }

  lemma DashedIsIso(s: string, d: Date)
    requires |s| == 8 && Writable(d)
    ensures Dashed(s) == Iso(d) <==> s == Compact(d)
  {
    var year, month, day := Four(d.year), Two(d.month), Two(d.day);
    hide Four, Two;
    if Dashed(s) == Iso(d) {
      assert Dashed(s)[0..4] == s[0..4] && Dashed(s)[5..7] == s[4..6] && Dashed(s)[8..10] == s[6..8];
      assert Iso(d)[0..4] == year && Iso(d)[5..7] == month && Iso(d)[8..10] == day;
      assert s == s[0..4] + s[4..6] + s[6..8];
    }
    if s == Compact(d) {
      assert s[0..4] == year && s[4..6] == month && s[6..8] == day;
    }
  }

  lemma CompactIsDigits(d: Date)
    requires Writable(d)
    ensures EightDigits(Compact(d))
  {
    assert forall i | 0 <= i < 8 :: Compact(d)[i] in Compact(d);
  }

  /**
   * A date is read exactly from a value whose first eight characters, blanks in front aside, are the
   * digits of a Gregorian date; there is one error for other characters and one for other digits.
   */
  lemma DateReadIff(value: string, date: string)
    ensures ParseCalendarDate(value) == Ok(date) <==>
            exists d :: Writable(d) && Slice(Trim(value), 8) == Compact(d) && date == Iso(d)
    ensures ParseCalendarDate(value) == Err(InvalidDateText) <==> !EightDigits(Slice(Trim(value), 8))
    ensures ParseCalendarDate(value).Err? ==> ParseCalendarDate(value).error in {InvalidDateText, InvalidDate}
  {
    var s := Slice(Trim(value), 8);
    ReadDigits(value, s);
    hide ParseCalendarDate, Trim, Slice, EightDigits, Iso, Compact, Dashed, IsRealDate, Writable;
    if EightDigits(s) {
      RealDateIff(Dashed(s));
      forall d | Writable(d) ensures Dashed(s) == Iso(d) <==> s == Compact(d) {
        DashedIsIso(s, d);
      }
    }
    if d :| Writable(d) && s == Compact(d) && date == Iso(d) {
      CompactIsDigits(d);
    }
  }

  lemma ReadDigits(value: string, s: string)
    requires s == Slice(Trim(value), 8)
    ensures EightDigits(s) ==> |s| == 8
    ensures ParseCalendarDate(value) ==
            if !EightDigits(s) then Err(InvalidDateText) else if IsRealDate(Dashed(s)) then Ok(Dashed(s)) else Err(InvalidDate)
  {
    hide Trim, IsRealDate;
  }

  predicate Readable(value: string) {
    ParseCalendarDate(value).Ok?
  }

  predicate AllReadable(values: seq<string>) {
    forall i | 0 <= i < |values| :: Readable(values[i])
  }

  /** The first of these values that is not a date has this error. */
  ghost predicate FirstUnreadable(values: seq<string>, error: ParseError) {
    exists k | 0 <= k < |values| :: AllReadable(values[..k]) && ParseCalendarDate(values[k]) == Err(error)
  }

  /** The last of these dates, if it is one. */
  function DateOf(values: seq<string>): Option<string> {
    if values == [] then None
    else
      match ParseCalendarDate(values[|values| - 1])
      case Err(_) => None
      case Ok(date) => Some(date)
  }

  // ----- the pending event after the lines

  predicate Recurs(body: seq<string>) {
    Values(body, "RRULE") != [] || Values(body, "RDATE") != []
  }

  /** What is pending after the lines: the last value of each property, and whether anything recurs. */
  ghost predicate Gathered(event: PendingEvent, body: seq<string>) {
    && event.uid == Last(Values(body, "UID"))
    && event.recurrenceId == Last(Values(body, "RECURRENCE-ID"))
    && event.summary == Last(Values(body, "SUMMARY"))
    && event.status == Last(Values(body, "STATUS"))
    && (event.recurring <==> Recurs(body))
    && event.startsOn == DateOf(Values(body, "DTSTART"))
    && event.endsOn == DateOf(Values(body, "DTEND"))
  }

  lemma ValuesSnoc(body: seq<string>, line: string, name: string)
    ensures Values(body + [line], name) == Values(body, name) + if Content(line).name == name then [Content(line).value] else []
  {}

  lemma DateValuesSnoc(body: seq<string>, line: string)
    ensures DateValues(body + [line]) == DateValues(body) + if Content(line).name in {"DTSTART", "DTEND"} then [Content(line).value] else []
  {}

  lemma ReadSnoc(body: seq<string>, line: string)
    ensures ReadBody(body + [line]) ==
            match ReadBody(body)
            case Err(error) => Err(error)
            case Ok(event) => Assign(event, TrimEnd(line))
  {
    assert (body + [line])[..|body|] == body;
  }

  lemma AssignGathers(event: PendingEvent, body: seq<string>, line: string)
    requires Gathered(event, body)
    ensures var content := Content(line);
            var after := Assign(event, TrimEnd(line));
            && (after.Ok? <==> content.name in {"DTSTART", "DTEND"} ==> Readable(content.value))
            && (after.Ok? ==> Gathered(after.value, body + [line]))
            && (after.Err? ==> Err(after.error) == ParseCalendarDate(content.value))
  {
    ValuesSnoc(body, line, "UID");
    ValuesSnoc(body, line, "RECURRENCE-ID");
    ValuesSnoc(body, line, "SUMMARY");
    ValuesSnoc(body, line, "STATUS");
    ValuesSnoc(body, line, "RRULE");
    ValuesSnoc(body, line, "RDATE");
    ValuesSnoc(body, line, "DTSTART");
    ValuesSnoc(body, line, "DTEND");
    hide Values, ParseCalendarDate, SplitContentLine, TrimEnd;
  }

  lemma AllReadableSnoc(values: seq<string>, value: string)
    ensures AllReadable(values + [value]) <==> AllReadable(values) && Readable(value)
  {
    hide Readable;
    var longer := values + [value];
    assert forall i | 0 <= i < |values| :: longer[i] == values[i];
    assert longer[|values|] == value;
  }

  lemma FirstUnreadableSnoc(values: seq<string>, value: string, error: ParseError)
    ensures FirstUnreadable(values, error) ==> FirstUnreadable(values + [value], error)
    ensures AllReadable(values) && ParseCalendarDate(value) == Err(error) ==> FirstUnreadable(values + [value], error)
  {
    hide Readable, ParseCalendarDate;
    var longer := values + [value];
    if k :| 0 <= k < |values| && AllReadable(values[..k]) && ParseCalendarDate(values[k]) == Err(error) {
      assert longer[..k] == values[..k] && longer[k] == values[k];
    }
    assert longer[..|values|] == values && longer[|values|] == value;
  }

  /** The lines are read exactly if every date is, and then the last values count; otherwise the first unreadable date does. */
  lemma {:induction false} BodyGathers(body: seq<string>)
    ensures ReadBody(body).Ok? <==> AllReadable(DateValues(body))
    ensures ReadBody(body).Ok? ==> Gathered(ReadBody(body).value, body)
    ensures ReadBody(body).Err? ==> FirstUnreadable(DateValues(body), ReadBody(body).error)
  {
    if body != [] {
      var init, line := body[..|body| - 1], body[|body| - 1];
      assert body == init + [line];
      BodyGathers(init);
      hide Gathered, Assign, Readable, ParseCalendarDate, AllReadable, FirstUnreadable, SplitContentLine;
      ReadSnoc(init, line);
      DateValuesSnoc(init, line);
      var value := Content(line).value;
      AllReadableSnoc(DateValues(init), value);
      if ReadBody(init).Ok? {
        AssignGathers(ReadBody(init).value, init, line);
        NotRead(value);
        if ReadBody(body).Err? {
          FirstUnreadableSnoc(DateValues(init), value, ReadBody(body).error);
        }
      } else {
        FirstUnreadableSnoc(DateValues(init), value, ReadBody(init).error);
        assert DateValues(body) == DateValues(init) || DateValues(body) == DateValues(init) + [value];
      }
    }
  }

  lemma NotRead(value: string)
    ensures Readable(value) <==> ParseCalendarDate(value).Ok?
  {}

  // ----- what one event becomes

  /** The last status given says so, in any letter case. */
  predicate IsCancelled(body: seq<string>) {
    var status := Last(Values(body, "STATUS"));
    status.Some? && Upper(status.value) == "CANCELLED"
  }

  function UidOf(body: seq<string>): string {
    UnescapeText(OrElse(Last(Values(body, "UID")), ""))
  }

  function RecurrenceOf(body: seq<string>): string {
    UnescapeText(OrElse(Last(Values(body, "RECURRENCE-ID")), ""))
  }

  /** A moved occurrence has a key of its own. */
  function KeyOf(body: seq<string>): string {
    if RecurrenceOf(body) == "" then UidOf(body) else UidOf(body) + "::" + RecurrenceOf(body)
  }

  function SummaryOf(body: seq<string>): string {
    UnescapeText(OrElse(Last(Values(body, "SUMMARY")), ""))
  }

  predicate HasDates(body: seq<string>) {
    DateOf(Values(body, "DTSTART")).Some? && DateOf(Values(body, "DTEND")).Some?
  }

  predicate EndsLater(body: seq<string>)
    requires HasDates(body)
  {
    Less(DateOf(Values(body, "DTSTART")).value, DateOf(Values(body, "DTEND")).value)
  }

  /** The lines make this event. */
  predicate Makes(body: seq<string>, event: CalendarEvent) {
    && !IsCancelled(body)
    && event.eventKey == KeyOf(body) && event.externalUid == UidOf(body)
    && Some(event.startsOn) == DateOf(Values(body, "DTSTART")) && Some(event.endsOn) == DateOf(Values(body, "DTEND"))
    && (event.summary.None? <==> SummaryOf(body) == "")
    && (event.summary.Some? ==> event.summary.value <= SummaryOf(body) && |event.summary.value| == if |SummaryOf(body)| < 300 then |SummaryOf(body)| else 300)
  }

  /**
   * No event comes of lines whose dates can all be read exactly if they are cancelled, whatever else they
   * hold. Every other one is refused for the first thing wrong with it, or is the event of its last values.
   */
  lemma EventOfLines(body: seq<string>)
    requires AllReadable(DateValues(body))
    ensures EventOf(body) == Ok(None) <==> IsCancelled(body)
    ensures EventOf(body) == Err(RecurringEvent) <==> !IsCancelled(body) && Recurs(body)
    ensures EventOf(body) == Err(MissingUid) <==> !IsCancelled(body) && !Recurs(body) && UidOf(body) == ""
    ensures EventOf(body) == Err(UidTooLong) <==> !IsCancelled(body) && !Recurs(body) && |UidOf(body)| > 500
    ensures EventOf(body) == Err(MissingDates) <==>
            !IsCancelled(body) && !Recurs(body) && 1 <= |UidOf(body)| <= 500 && !HasDates(body)
    ensures EventOf(body) == Err(EndNotAfterStart) <==>
            !IsCancelled(body) && !Recurs(body) && 1 <= |UidOf(body)| <= 500 && HasDates(body) && !EndsLater(body)
    ensures EventOf(body) == Err(KeyTooLong) <==>
            && !IsCancelled(body) && !Recurs(body) && 1 <= |UidOf(body)| <= 500 && HasDates(body) && EndsLater(body)
            && |KeyOf(body)| > 500
    ensures EventOf(body).Ok? && EventOf(body).value.Some? <==>
            && !IsCancelled(body) && !Recurs(body) && 1 <= |UidOf(body)| <= 500 && HasDates(body) && EndsLater(body)
            && |KeyOf(body)| <= 500
    ensures EventOf(body).Ok? && EventOf(body).value.Some? ==> Makes(body, EventOf(body).value.value)
  {
    BodyGathers(body);
    hide Values, DateOf, UnescapeText, ReadBody, Recurs, Less, AllReadable;
  }

  /** Lines with a date that cannot be read are refused for the first such date, even if they are cancelled. */
  lemma UnreadableLines(body: seq<string>)
    requires !AllReadable(DateValues(body))
    ensures EventOf(body).Err? && FirstUnreadable(DateValues(body), EventOf(body).error)
  {
    BodyGathers(body);
  }

  // ----- every event of a text

  predicate NoneWithKey(bodies: seq<seq<string>>, key: string) {
    forall j | 0 <= j < |bodies| :: IsCancelled(bodies[j]) || KeyOf(bodies[j]) != key
  }

  /** These lines make the event, and all later ones with its key are cancelled. */
  ghost predicate LastMade(event: CalendarEvent, bodies: seq<seq<string>>) {
    exists i | 0 <= i < |bodies| :: Makes(bodies[i], event) && NoneWithKey(bodies[i + 1..], event.eventKey)
  }

  lemma MadeBehind(event: CalendarEvent, first: seq<string>, rest: seq<seq<string>>)
    requires LastMade(event, rest) || (Makes(first, event) && NoneWithKey(rest, event.eventKey))
    ensures LastMade(event, [first] + rest)
  {
    hide Makes, NoneWithKey;
    var all := [first] + rest;
    if LastMade(event, rest) {
      var i :| 0 <= i < |rest| && Makes(rest[i], event) && NoneWithKey(rest[i + 1..], event.eventKey);
      assert all[i + 1] == rest[i] && all[i + 1 + 1..] == rest[i + 1..];
    } else {
      assert all[0] == first && all[0 + 1..] == rest;
    }
  }

  lemma MadeAhead(event: CalendarEvent, first: seq<string>, rest: seq<seq<string>>)
    requires LastMade(event, [first] + rest)
    ensures LastMade(event, rest) || (Makes(first, event) && NoneWithKey(rest, event.eventKey))
  {
    hide Makes, NoneWithKey;
    var all := [first] + rest;
    var i :| 0 <= i < |all| && Makes(all[i], event) && NoneWithKey(all[i + 1..], event.eventKey);
    assert all[i + 1..] == rest[i..];
    if i == 0 {
      assert rest[i..] == rest;
    } else {
      assert all[i] == rest[i - 1];
    }
  }

  lemma LastMadeCons(event: CalendarEvent, first: seq<string>, rest: seq<seq<string>>)
    ensures LastMade(event, [first] + rest) <==> LastMade(event, rest) || (Makes(first, event) && NoneWithKey(rest, event.eventKey))
  {
    hide LastMade, Makes, NoneWithKey;
    if LastMade(event, [first] + rest) {
      MadeAhead(event, first, rest);
    } else if LastMade(event, rest) || (Makes(first, event) && NoneWithKey(rest, event.eventKey)) {
      MadeBehind(event, first, rest);
    }
  }

  lemma WinsAfter(event: CalendarEvent, first: CalendarEvent, rest: seq<CalendarEvent>)
    requires Wins(event, [first] + rest)
    ensures Wins(event, rest) || (event == first && forall e | e in rest :: e.eventKey != event.eventKey)
  {
    var all := [first] + rest;
    var i :| 0 <= i < |all| && all[i] == event && forall j | i < j < |all| :: all[j].eventKey != event.eventKey;
    forall j | i <= j < |rest| ensures rest[j].eventKey != event.eventKey {
      assert all[j + 1] == rest[j];
    }
    if i > 0 {
      assert rest[i - 1] == event;
    }
  }

  lemma WinsBefore(event: CalendarEvent, first: CalendarEvent, rest: seq<CalendarEvent>)
    requires Wins(event, rest) || (event == first && forall e | e in rest :: e.eventKey != event.eventKey)
    ensures Wins(event, [first] + rest)
  {
    var all := [first] + rest;
    if Wins(event, rest) {
      var i :| 0 <= i < |rest| && rest[i] == event && forall j | i < j < |rest| :: rest[j].eventKey != event.eventKey;
      assert all[i + 1] == event;
      forall j | i + 1 < j < |all| ensures all[j].eventKey != event.eventKey {
        assert all[j] == rest[j - 1];
      }
    } else {
      assert all[0] == event;
      forall j | 0 < j < |all| ensures all[j].eventKey != event.eventKey {
        assert all[j] == rest[j - 1] && rest[j - 1] in rest;
      }
    }
  }

  /** What a good body contributes to the list of events. */
  lemma GoodBody(body: seq<string>, event: CalendarEvent)
    requires EventOf(body).Ok?
    ensures EventOf(body).value.None? <==> IsCancelled(body)
    ensures EventOf(body).value == Some(event) <==> Makes(body, event)
    ensures EventOf(body).value.Some? ==> EventOf(body).value.value.eventKey == KeyOf(body)
  {
    if !AllReadable(DateValues(body)) {
      UnreadableLines(body);
    } else {
      EventOfLines(body);
      hide EventOf, IsCancelled, KeyOf, UidOf, SummaryOf, DateOf, Values, AllReadable, DateValues, EndsLater, HasDates, Recurs;
      if Makes(body, event) {
        SameMade(body, event, EventOf(body).value.value);
      }
    }
  }

  lemma SameMade(body: seq<string>, a: CalendarEvent, b: CalendarEvent)
    requires Makes(body, a) && Makes(body, b)
    ensures a == b
  {
    hide IsCancelled, KeyOf, UidOf, SummaryOf, DateOf, Values;
    if a.summary.Some? {
      assert a.summary.value == SummaryOf(body)[..|a.summary.value|] == b.summary.value;
    }
  }

  lemma {:induction false} EventsWithKey(bodies: seq<seq<string>>, key: string)
    requires AllGood(bodies)
    ensures NoneWithKey(bodies, key) <==> forall e | e in EventsOf(bodies) :: e.eventKey != key
  {
    hide EventOf, IsCancelled, KeyOf, Makes;
    if bodies != [] {
      var event := EventOf(bodies[0]).value;
      if event.Some? {
        GoodBody(bodies[0], event.value);
      } else {
        GoodBody(bodies[0], CalendarEvent("", "", "", "", None));
      }
      EventsWithKey(bodies[1..], key);
      assert NoneWithKey(bodies, key) <==> (IsCancelled(bodies[0]) || KeyOf(bodies[0]) != key) && NoneWithKey(bodies[1..], key) by {
        assert forall j | 0 < j < |bodies| :: bodies[j] == bodies[1..][j - 1];
      }
    }
  }

  lemma {:induction false} WinnersAreLastMade(bodies: seq<seq<string>>, event: CalendarEvent)
    requires AllGood(bodies)
    ensures Wins(event, EventsOf(bodies)) <==> LastMade(event, bodies)
  {
    hide EventOf, IsCancelled, KeyOf, Makes, Wins, LastMade, NoneWithKey;
    if bodies == [] {
      NothingLastMade(event);
    } else {
      var first, rest := bodies[0], bodies[1..];
      assert bodies == [first] + rest && AllGood(rest);
      WinnersAreLastMade(rest, event);
      LastMadeCons(event, first, rest);
      GoodBody(first, event);
      EventsWithKey(rest, event.eventKey);
      if EventOf(first).value.Some? {
        var made := EventOf(first).value.value;
        if Wins(event, [made] + EventsOf(rest)) {
          WinsAfter(event, made, EventsOf(rest));
        } else if Wins(event, EventsOf(rest)) || (event == made && forall e | e in EventsOf(rest) :: e.eventKey != event.eventKey) {
          WinsBefore(event, made, EventsOf(rest));
        }
      } else {
        assert [] + EventsOf(rest) == EventsOf(rest);
      }
    }
  }

  lemma NothingLastMade(event: CalendarEvent)
    ensures !Wins(event, EventsOf([])) && !LastMade(event, [])
  {}

  /**
   * The events of an accepted text are exactly those that the lines of some event make, uncancelled, with
   * no later uncancelled one under their key: a night given back by a cancelled event is never imported.
   */
  lemma AcceptedEventsAreLastMade(source: string, collate: Collation, event: CalendarEvent)
    requires Parse(source, collate).Ok?
    ensures event in Parse(source, collate).value <==> LastMade(event, Bodies(Unfold(source)))
  {
    ParserGuarantee(source, collate);
    hide Parse, Unfold, Bodies, LastMade, Wins, SortedByStart, DistinctKeys, AllGood;
    WinnersAreLastMade(Bodies(Unfold(source)), event);
  }

  // ----- the order of the events

  function KeysOf(events: seq<CalendarEvent>): (keys: seq<string>)
    ensures |keys| == |events| && forall i | 0 <= i < |events| :: keys[i] == events[i].eventKey
  {
    seq(|events|, i requires 0 <= i < |events| => events[i].eventKey)
  }

  lemma KeysCons(first: CalendarEvent, rest: seq<CalendarEvent>)
    ensures KeysOf([first] + rest) == [first.eventKey] + KeysOf(rest)
  {}

  /** A later event takes the place of an earlier one with its key; a new key goes to the end. */
  lemma {:induction false} PutKeepsPlaces(events: seq<CalendarEvent>, event: CalendarEvent)
    ensures KeysOf(Put(events, event)) == if event.eventKey in KeysOf(events) then KeysOf(events) else KeysOf(events) + [event.eventKey]
  {
    hide KeysOf;
    if events == [] {
      KeysCons(event, []);
      NoKeys();
      assert [event] + [] == [event];
    } else {
      var first, rest := events[0], events[1..];
      assert events == [first] + rest;
      KeysCons(first, rest);
      if first.eventKey == event.eventKey {
        KeysCons(event, rest);
      } else {
        PutKeepsPlaces(rest, event);
        KeysCons(first, Put(rest, event));
        assert [first.eventKey] + (KeysOf(rest) + [event.eventKey]) == [first.eventKey] + KeysOf(rest) + [event.eventKey];
      }
    }
  }

  lemma NoKeys()
    ensures KeysOf([]) == []
  {}

  /** The comparison orders the keys, and may hold different ones for equal. */
  ghost predicate OrdersKeys(collate: Collation) {
    && (forall a, b :: collate(a, b) < 0 <==> collate(b, a) > 0)
    && (forall a, b, c :: collate(a, b) <= 0 && collate(b, c) <= 0 ==> collate(a, c) <= 0)
  }

  ghost predicate InOrder(collate: Collation, a: CalendarEvent, b: CalendarEvent) {
    Less(a.startsOn, b.startsOn) || (a.startsOn == b.startsOn && collate(a.eventKey, b.eventKey) <= 0)
  }

  ghost predicate AllInOrder(collate: Collation, events: seq<CalendarEvent>) {
    forall i, j | 0 <= i < j < |events| :: InOrder(collate, events[i], events[j])
  }

  lemma LessTotal(a: string, b: string)
    ensures a == b || Less(a, b) || Less(b, a)
  {}

  lemma LessTransitive(a: string, b: string, c: string)
    requires Less(a, b) && Less(b, c)
    ensures Less(a, c)
  {}

  lemma PrecedesIff(collate: Collation, a: CalendarEvent, b: CalendarEvent)
    requires OrdersKeys(collate)
    ensures Precedes(collate, a, b) ==> InOrder(collate, a, b)
    ensures !Precedes(collate, a, b) ==> InOrder(collate, b, a)
  {
    LessTotal(a.startsOn, b.startsOn);
  }

  lemma OrderTransitive(collate: Collation, a: CalendarEvent, b: CalendarEvent, c: CalendarEvent)
    requires OrdersKeys(collate) && InOrder(collate, a, b) && InOrder(collate, b, c)
    ensures InOrder(collate, a, c)
  {
    if Less(a.startsOn, b.startsOn) && Less(b.startsOn, c.startsOn) {
      LessTransitive(a.startsOn, b.startsOn, c.startsOn);
    }
  }

  lemma {:induction false} InsertInOrder(collate: Collation, sorted: seq<CalendarEvent>, event: CalendarEvent)
    requires OrdersKeys(collate) && AllInOrder(collate, sorted)
    ensures AllInOrder(collate, InsertEvent(collate, sorted, event))
    ensures forall e :: e in InsertEvent(collate, sorted, event) <==> e in sorted || e == event
  {
    hide OrdersKeys, InOrder, Precedes;
    if sorted != [] {
      var init, last := sorted[..|sorted| - 1], sorted[|sorted| - 1];
      assert sorted == init + [last];
      PrecedesIff(collate, event, last);
      if Precedes(collate, event, last) {
        InsertInOrder(collate, init, event);
        var inserted := InsertEvent(collate, init, event);
        assert forall e | e in inserted :: e in init || e == event;
        assert forall e | e in init :: InOrder(collate, e, last);
      } else {
        forall e | e in init ensures InOrder(collate, e, event) {
          assert InOrder(collate, e, last);
          OrderTransitive(collate, e, last, event);
        }
      }
    }
  }

  /** Where the locale orders the keys, the events are in order of start, and of key where they start on one day. */
  lemma {:induction false} SortedByStartAndKey(collate: Collation, events: seq<CalendarEvent>)
    requires OrdersKeys(collate)
    ensures AllInOrder(collate, Sort(collate, events))
  {
    if events != [] {
      SortedByStartAndKey(collate, events[..|events| - 1]);
      InsertInOrder(collate, Sort(collate, events[..|events| - 1]), events[|events| - 1]);
    }
  }
}
