/** The iCalendar reader: content lines, events, and the one-pass parser. */
module ICalParser {
  import opened Wrappers
  import opened Text
  import opened CivilDates
  import opened Folding

  const MAX_ICAL_BYTES: nat := 2 * 1024 * 1024
  const MAX_ICAL_EVENTS: nat := 5000

  datatype CalendarEvent = CalendarEvent(
    eventKey: string, externalUid: string, startsOn: string, endsOn: string, summary: Option<string>)

  datatype ParseError =
    | TooLarge | NotACalendar | NestedEvent | EndWithoutBegin | MissingEnd
    | InvalidDateText | InvalidDate | RecurringEvent
    | MissingUid | UidTooLong | MissingDates | EndNotAfterStart | KeyTooLong | TooManyEvents

  datatype ContentLine = ContentLine(name: string, value: string)

  datatype PendingEvent = PendingEvent(
    uid: Option<string>, recurrenceId: Option<string>, startsOn: Option<string>, endsOn: Option<string>,
    summary: Option<string>, status: Option<string>, recurring: bool)

  const NOTHING_YET := PendingEvent(None, None, None, None, None, None, false)

  // ----- content lines

  /** `splitContentLine`: the name ends at the first semicolon before the first colon. */
  function SplitContentLine(line: string): ContentLine {
    var separator := IndexOf(line, ':');
    if separator < 1 then ContentLine("", "")
    else
      var property := line[..separator];
      var parameterSeparator := IndexOf(property, ';');
      ContentLine(Upper(if parameterSeparator == -1 then property else property[..parameterSeparator]), line[separator + 1..])
  }

  /** `slice(0, n)`. */
  function Slice(s: string, n: nat): string {
    if |s| <= n then s else s[..n]
  }

  predicate EightDigits(s: string) {
    |s| == 8 && forall i | 0 <= i < 8 :: IsDigit(s[i])
  }

  function ParseCalendarDate(value: string): Result<string, ParseError> {
    var compactDate := Slice(Trim(value), 8);
    if !EightDigits(compactDate) then Err(InvalidDateText)
    else
      var date := compactDate[0..4] + "-" + compactDate[4..6] + "-" + compactDate[6..8];
      if IsRealDate(date) then Ok(date) else Err(InvalidDate)
  }

  function UnescapeText(value: string): string {
    Trim(ReplacePairs(ReplacePairs(ReplacePairs(ReplacePairs(value,
      '\\', {'n', 'N'}, " "), '\\', {','}, ","), '\\', {';'}, ";"), '\\', {'\\'}, "\\"))
  }

  function OrElse(value: Option<string>, default: string): string {
    if value.Some? then value.value else default
  }

  // ----- one event

  /** `finishEvent`; no event for a cancelled one. */
  function FinishEvent(event: PendingEvent): Result<Option<CalendarEvent>, ParseError> {
    if event.status.Some? && Upper(event.status.value) == "CANCELLED" then Ok(None)
    else if event.recurring then Err(RecurringEvent)
    else
      var externalUid := UnescapeText(OrElse(event.uid, ""));
      if externalUid == "" then Err(MissingUid)
      else if |externalUid| > 500 then Err(UidTooLong)
      else if event.startsOn.None? || event.endsOn.None? then Err(MissingDates)
      else if !Less(event.startsOn.value, event.endsOn.value) then Err(EndNotAfterStart)
      else
        var recurrenceId := UnescapeText(OrElse(event.recurrenceId, ""));
        var eventKey := if recurrenceId != "" then externalUid + "::" + recurrenceId else externalUid;
        if |eventKey| > 500 then Err(KeyTooLong)
        else
          var summary := UnescapeText(OrElse(event.summary, ""));
          Ok(Some(CalendarEvent(eventKey, externalUid, event.startsOn.value, event.endsOn.value,
                                if summary != "" then Some(Slice(summary, 300)) else None)))
  }

  datatype Property = ExternalId | RecurrenceId | Start | End | Summary | Status | Recurrence | Other

  function PropertyNamed(name: string): Property {
    match name
    case "UID" => ExternalId
    case "RECURRENCE-ID" => RecurrenceId
    case "DTSTART" => Start
    case "DTEND" => End
    case "SUMMARY" => Summary
    case "STATUS" => Status
    case "RRULE" => Recurrence
    case "RDATE" => Recurrence
    case _ => Other
  }

  /** The property switch inside an event. */
  function AssignProperty(event: PendingEvent, property: Property, value: string): Result<PendingEvent, ParseError> {
    match property
    case ExternalId => Ok(event.(uid := Some(value)))
    case RecurrenceId => Ok(event.(recurrenceId := Some(value)))
    case Start =>
      (match ParseCalendarDate(value)
       case Err(error) => Err(error)
       case Ok(date) => Ok(event.(startsOn := Some(date))))
    case End =>
      (match ParseCalendarDate(value)
       case Err(error) => Err(error)
       case Ok(date) => Ok(event.(endsOn := Some(date))))
    case Summary => Ok(event.(summary := Some(value)))
    case Status => Ok(event.(status := Some(value)))
    case Recurrence => Ok(event.(recurring := true))
    case Other => Ok(event)
  }

  function Assign(event: PendingEvent, line: string): Result<PendingEvent, ParseError> {
    var content := SplitContentLine(line);
    AssignProperty(event, PropertyNamed(content.name), content.value)
  }

  // ----- the event map, which keeps the place of a key's first event and the value of its last

  function Put(events: seq<CalendarEvent>, event: CalendarEvent): seq<CalendarEvent> {
    if events == [] then [event]
    else if events[0].eventKey == event.eventKey then [event] + events[1..]
    else [events[0]] + Put(events[1..], event)
  }

  // ----- the pass over the lines

  function Marker(rawLine: string): string {
    Upper(Trim(TrimEnd(rawLine)))
  }

  datatype State = State(pending: Option<PendingEvent>, events: seq<CalendarEvent>)

  function Step(s: State, rawLine: string): Result<State, ParseError> {
    if Marker(rawLine) == "BEGIN:VEVENT" then
      if s.pending.Some? then Err(NestedEvent) else Ok(s.(pending := Some(NOTHING_YET)))
    else if Marker(rawLine) == "END:VEVENT" then
      if s.pending.None? then Err(EndWithoutBegin)
      else
        match FinishEvent(s.pending.value)
        case Err(error) => Err(error)
        case Ok(None) => Ok(s.(pending := None))
        case Ok(Some(event)) =>
          var events := Put(s.events, event);
          if |events| > MAX_ICAL_EVENTS then Err(TooManyEvents) else Ok(State(None, events))
    else if s.pending.None? then Ok(s)
    else
      match Assign(s.pending.value, TrimEnd(rawLine))
      case Err(error) => Err(error)
      case Ok(event) => Ok(s.(pending := Some(event)))
  }

  function RunFrom(s: State, lines: seq<string>): Result<State, ParseError>
    decreases |lines|
  {
    if lines == [] then Ok(s)
    else
      match Step(s, lines[0])
      case Err(error) => Err(error)
      case Ok(next) => RunFrom(next, lines[1..])
  }

  /** The events of the lines, before sorting. */
  function ReadEvents(lines: seq<string>): Result<seq<CalendarEvent>, ParseError> {
    match RunFrom(State(None, []), lines)
    case Err(error) => Err(error)
    case Ok(s) => if s.pending.Some? then Err(MissingEnd) else Ok(s.events)
  }

  // ----- sorting by start, then by key in a locale's order

  type Collation = (string, string) -> int

  predicate Precedes(collate: Collation, a: CalendarEvent, b: CalendarEvent) {
    Less(a.startsOn, b.startsOn) || (a.startsOn == b.startsOn && collate(a.eventKey, b.eventKey) < 0)
  }

  function InsertEvent(collate: Collation, sorted: seq<CalendarEvent>, event: CalendarEvent): seq<CalendarEvent> {
    if sorted == [] then [event]
    else if Precedes(collate, event, sorted[|sorted| - 1])
    then InsertEvent(collate, sorted[..|sorted| - 1], event) + [sorted[|sorted| - 1]]
    else sorted + [event]
  }

  /** The stable sort of the events. */
  function Sort(collate: Collation, events: seq<CalendarEvent>): seq<CalendarEvent> {
    if events == [] then [] else InsertEvent(collate, Sort(collate, events[..|events| - 1]), events[|events| - 1])
  }

  predicate IsCalendar(lines: seq<string>) {
    exists i | 0 <= i < |lines| :: Upper(Trim(lines[i])) == "BEGIN:VCALENDAR"
  }

  function Parse(source: string, collate: Collation): Result<seq<CalendarEvent>, ParseError> {
    if ByteLength(source) > MAX_ICAL_BYTES then Err(TooLarge)
    else if !IsCalendar(Unfold(source)) then Err(NotACalendar)
    else
      match ReadEvents(Unfold(source))
      case Err(error) => Err(error)
      case Ok(events) => Ok(Sort(collate, events))
  }

  /** The lines of `parseICalendar` after the header check, with its map and its pending event. */
  method ReadLines(lines: seq<string>) returns (result: Result<seq<CalendarEvent>, ParseError>)
    ensures result == ReadEvents(lines)
  {
    var events: seq<CalendarEvent> := [];
    var pending: Option<PendingEvent> := None;
    for i := 0 to |lines|
      invariant RunFrom(State(pending, events), lines[i..]) == RunFrom(State(None, []), lines)
    {
      assert lines[i..][1..] == lines[i + 1..];
      var line := TrimEnd(lines[i]);
      var marker := Upper(Trim(line));
      if marker == "BEGIN:VEVENT" {
        if pending.Some? {
          return Err(NestedEvent);
        }
        pending := Some(NOTHING_YET);
      } else if marker == "END:VEVENT" {
        if pending.None? {
          return Err(EndWithoutBegin);
        }
        var completed := FinishEvent(pending.value);
        pending := None;
        if completed.Err? {
          return Err(completed.error);
        }
        if completed.value.Some? {
          events := Put(events, completed.value.value);
          if |events| > MAX_ICAL_EVENTS {
            return Err(TooManyEvents);
          }
        }
      } else if pending.Some? {
        var updated := Assign(pending.value, line);
        if updated.Err? {
          return Err(updated.error);
        }
        pending := Some(updated.value);
      }
    }
    if pending.Some? {
      return Err(MissingEnd);
    }
    return Ok(events);
  }

  /** `parseICalendar`. */
  method ParseICalendar(source: string, collate: Collation) returns (result: Result<seq<CalendarEvent>, ParseError>)
    ensures result == Parse(source, collate)
  {
    if ByteLength(source) > MAX_ICAL_BYTES {
      return Err(TooLarge);
    }
    var lines := UnfoldLines(source);
    if !exists i | 0 <= i < |lines| :: Upper(Trim(lines[i])) == "BEGIN:VCALENDAR" {
      return Err(NotACalendar);
    }
    var events := ReadLines(lines);
    match events
    case Err(error) => return Err(error);
    case Ok(events) => return Ok(Sort(collate, events));
  }
}
