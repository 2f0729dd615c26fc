/** Why a calendar is refused: the first line that offends. */
module ICalRefusals {
  import opened Wrappers
  import opened Text
  import opened Folding
  import opened ICalParser
  import opened ICalGuarantee
  import opened ICalEvents

  const START: State := State(None, [])

  /** The lines since the last BEGIN, if no END has come since. */
  function OpenBody(lines: seq<string>): Option<seq<string>> {
    if lines == [] then None
    else
      var last := lines[|lines| - 1];
      if IsBegin(last) then Some([])
      else if IsEnd(last) then None
      else
        match OpenBody(lines[..|lines| - 1])
        case None => None
        case Some(body) => Some(body + [last])
  }

  /** The events of the bodies that have ended, a later one in the place of an earlier one with its key. */
  function Kept(lines: seq<string>): seq<CalendarEvent> {
    if lines == [] then []
    else
      var init, last := lines[..|lines| - 1], lines[|lines| - 1];
      if IsEnd(last) && OpenBody(init).Some? then
        match EventOf(OpenBody(init).value)
        case Ok(Some(event)) => Put(Kept(init), event)
        case _ => Kept(init)
      else Kept(init)
  }

  /** What is wrong with a line after these lines. */
  function Offence(lines: seq<string>, line: string): Option<ParseError> {
    match OpenBody(lines)
    case None => if IsEnd(line) then Some(EndWithoutBegin) else None
    case Some(body) =>
      if IsBegin(line) then Some(NestedEvent)
      else if IsEnd(line) then
        match EventOf(body)
        case Err(error) => Some(error)
        case Ok(None) => None
        case Ok(Some(event)) => if |Put(Kept(lines), event)| > 5000 then Some(TooManyEvents) else None
      else if Content(line).name in {"DTSTART", "DTEND"} then
        match ParseCalendarDate(Content(line).value)
        case Err(error) => Some(error)
        case Ok(_) => None
      else None
  }

  ghost predicate NoOffence(lines: seq<string>) {
    forall j | 0 <= j < |lines| :: Offence(lines[..j], lines[j]) == None
  }

  ghost predicate FirstOffence(lines: seq<string>, k: nat, error: ParseError) {
    k < |lines| && NoOffence(lines[..k]) && Offence(lines[..k], lines[k]) == Some(error)
  }

  // ----- the pass

  lemma {:induction false} RunSnoc(s: State, lines: seq<string>, line: string)
    ensures RunFrom(s, lines + [line]) ==
            match RunFrom(s, lines)
            case Err(error) => Err(error)
            case Ok(t) => Step(t, line)
    decreases |lines|
  {
    hide Step;
    if lines == [] {
      assert [] + [line] == [line] && [line][1..] == [];
    } else {
      assert (lines + [line])[0] == lines[0] && (lines + [line])[1..] == lines[1..] + [line];
      if Step(s, lines[0]).Ok? {
        RunSnoc(Step(s, lines[0]).value, lines[1..], line);
      }
    }
  }

  lemma NoOffenceSnoc(lines: seq<string>, line: string)
    ensures NoOffence(lines + [line]) <==> NoOffence(lines) && Offence(lines, line) == None
  {
    hide Offence;
    var longer := lines + [line];
    assert longer[..|lines|] == lines;
    assert forall j | 0 <= j < |lines| :: longer[..j] == lines[..j] && longer[j] == lines[j];
    if NoOffence(longer) {
      assert Offence(longer[..|lines|], longer[|lines|]) == None;
      forall j | 0 <= j < |lines| ensures Offence(lines[..j], lines[j]) == None {
        assert Offence(longer[..j], longer[j]) == None;
      }
    }
  }

  /** The state of the pass after lines of which none offends. */
  ghost predicate At(s: State, lines: seq<string>) {
    && s.events == Kept(lines)
    && match OpenBody(lines)
       case None => s.pending == None
       case Some(body) => ReadBody(body).Ok? && s.pending == Some(ReadBody(body).value)
  }

  lemma StepAt(s: State, lines: seq<string>, line: string)
    requires At(s, lines)
    ensures Offence(lines, line) == None ==> Step(s, line).Ok? && At(Step(s, line).value, lines + [line])
    ensures Offence(lines, line).Some? ==> Step(s, line) == Err(Offence(lines, line).value)
  {
    var longer := lines + [line];
    assert longer[..|lines|] == lines && longer[|longer| - 1] == line;
    if OpenBody(lines).Some? && !IsBegin(line) && !IsEnd(line) {
      var body := OpenBody(lines).value;
      ReadSnoc(body, line);
      DatesOnly(ReadBody(body).value, line);
    }
    hide ReadBody, Assign, Put, FinishEvent, ParseCalendarDate, SplitContentLine, Trim, TrimEnd;
  }

  /** Only a date can make a property unreadable. */
  lemma DatesOnly(event: PendingEvent, line: string)
    ensures var content, after := Content(line), Assign(event, TrimEnd(line));
            if content.name in {"DTSTART", "DTEND"} && ParseCalendarDate(content.value).Err?
            then after == Err(ParseCalendarDate(content.value).error) else after.Ok?
  {
    hide ParseCalendarDate, SplitContentLine, TrimEnd;
  }

  lemma {:induction false} RunIs(lines: seq<string>) returns (k: nat)
    ensures NoOffence(lines) ==> RunFrom(START, lines).Ok? && At(RunFrom(START, lines).value, lines)
    ensures !NoOffence(lines) ==> RunFrom(START, lines).Err? && FirstOffence(lines, k, RunFrom(START, lines).error)
  {
    hide Offence, At, Step, OpenBody, Kept;
    k := 0;
    if lines == [] {
      NothingRead();
    } else {
      var init, last := lines[..|lines| - 1], lines[|lines| - 1];
      assert lines == init + [last];
      k := RunIs(init);
      RunSnoc(START, init, last);
      NoOffenceSnoc(init, last);
      if NoOffence(init) {
        StepAt(RunFrom(START, init).value, init, last);
        k := |init|;
      } else {
        assert lines[..k] == init[..k] && lines[k] == init[k];
      }
    }
  }

  lemma NothingRead()
    ensures RunFrom(START, []) == Ok(START) && At(START, []) && NoOffence([])
  {}

  lemma NoneBefore(lines: seq<string>, k: nat, j: nat)
    requires j < k <= |lines| && NoOffence(lines[..k])
    ensures Offence(lines[..j], lines[j]) == None
  {
    hide Offence;
    assert lines[..k][..j] == lines[..j] && lines[..k][j] == lines[j];
  }

  lemma OnlyFirst(lines: seq<string>, j: nat, a: ParseError, k: nat, b: ParseError)
    requires FirstOffence(lines, j, a) && FirstOffence(lines, k, b)
    ensures j == k && a == b
  {
    hide Offence, NoOffence;
    if j < k {
      NoneBefore(lines, k, j);
    } else if k < j {
      NoneBefore(lines, j, k);
    }
  }

  /**
   * Lines are refused exactly for the first of them that offends, or for an event that is still open when
   * none does. Otherwise the events are those kept.
   */
  lemma RefusedForTheFirst(lines: seq<string>, error: ParseError)
    ensures ReadEvents(lines) == Err(error) <==>
            || (exists k :: FirstOffence(lines, k, error))
            || (NoOffence(lines) && OpenBody(lines).Some? && error == MissingEnd)
    ensures NoOffence(lines) && OpenBody(lines).None? ==> ReadEvents(lines) == Ok(Kept(lines))
  {
    var k := RunIs(lines);
    hide Offence, RunFrom, Kept, OpenBody, ReadBody;
    if j: nat :| FirstOffence(lines, j, error) {
      if NoOffence(lines) {
        Offends(lines, j, error);
      } else {
        OnlyFirst(lines, j, error, k, RunFrom(START, lines).error);
      }
    }
  }

  lemma Offends(lines: seq<string>, j: nat, error: ParseError)
    requires FirstOffence(lines, j, error)
    ensures !NoOffence(lines)
  {}

  // ----- the whole text

  lemma ErrorsOfDates(value: string)
    ensures ParseCalendarDate(value) != Err(TooLarge) && ParseCalendarDate(value) != Err(NotACalendar)
  {
    DateReadIff(value, "");
    hide ParseCalendarDate;
  }

  lemma OffencesOfLines(lines: seq<string>, line: string)
    ensures Offence(lines, line) != Some(TooLarge) && Offence(lines, line) != Some(NotACalendar)
  {
    hide OpenBody, EventOf, ParseCalendarDate, SplitContentLine, TrimEnd, Kept, Put, Marker;
    if OpenBody(lines).Some? {
      ErrorsOfBodies(OpenBody(lines).value);
    }
    ErrorsOfDates(Content(line).value);
  }

  lemma ErrorsOfBodies(body: seq<string>)
    ensures EventOf(body) != Err(TooLarge) && EventOf(body) != Err(NotACalendar)
  {
    if AllReadable(DateValues(body)) {
      EventOfLines(body);
      hide EventOf, AllReadable, DateValues, IsCancelled, Recurs, UidOf, KeyOf, HasDates, EndsLater;
    } else {
      UnreadableLines(body);
      var values := DateValues(body);
      var k :| 0 <= k < |values| && AllReadable(values[..k]) && ParseCalendarDate(values[k]) == Err(EventOf(body).error);
      DateReadIff(values[k], "");
      hide EventOf, AllReadable, DateValues, ParseCalendarDate;
    }
  }

  /** A text is refused for its size first, then for want of a calendar, and then for its first offending line. */
  lemma RefusedText(source: string, collate: Collation)
    ensures Parse(source, collate) == Err(TooLarge) <==> ByteLength(source) > 2_097_152
    ensures Parse(source, collate) == Err(NotACalendar) <==>
            ByteLength(source) <= 2_097_152 && forall l | l in Unfold(source) :: Upper(Trim(l)) != "BEGIN:VCALENDAR"
    ensures ByteLength(source) <= 2_097_152 && (exists l | l in Unfold(source) :: Upper(Trim(l)) == "BEGIN:VCALENDAR") ==>
              match ReadEvents(Unfold(source))
              case Err(error) => Parse(source, collate) == Err(error)
              case Ok(events) => Parse(source, collate) == Ok(Sort(collate, events))
  {
    var lines := Unfold(source);
    if ReadEvents(lines).Err? {
      NotForTheText(lines, ReadEvents(lines).error);
    }
    hide ReadEvents, Unfold, ByteLength, Trim, Upper;
  }

  lemma NotForTheText(lines: seq<string>, error: ParseError)
    requires ReadEvents(lines) == Err(error)
    ensures error != TooLarge && error != NotACalendar
  {
    RefusedForTheFirst(lines, error);
    hide Offence, ReadEvents, NoOffence, OpenBody;
    if k: nat :| FirstOffence(lines, k, error) {
      OffencesOfLines(lines[..k], lines[k]);
    }
  }
}
