/**
 * What the parser's pass means: which texts it accepts, and which events it returns for them,
 * told by event bodies instead of by the parser's state.
 */
module ICalGuarantee {
  import opened Wrappers
  import opened Text
  import opened CivilDates
  import opened Folding
  import opened ICalParser

  // ----- markers and bodies

  predicate IsBegin(line: string) {
    Marker(line) == "BEGIN:VEVENT"
  }

  predicate IsEnd(line: string) {
    Marker(line) == "END:VEVENT"
  }

  /** The event markers in order: true for a BEGIN, false for an END. */
  function Markers(lines: seq<string>): seq<bool> {
    if lines == [] then []
    else (if IsBegin(lines[0]) then [true] else if IsEnd(lines[0]) then [false] else []) + Markers(lines[1..])
  }

  /** BEGIN and END take turns, starting with a BEGIN and stopping after an END. */
  predicate Matched(markers: seq<bool>) {
    |markers| % 2 == 0 && forall i | 0 <= i < |markers| :: markers[i] == (i % 2 == 0)
  }

  /** The lines of each finished event; `body` belongs to the one that is open, if any. */
  function BodiesFrom(lines: seq<string>, open: bool, body: seq<string>): seq<seq<string>>
    decreases |lines|
  {
    if lines == [] then []
    else if IsBegin(lines[0]) then BodiesFrom(lines[1..], true, [])
    else if IsEnd(lines[0]) then (if open then [body] else []) + BodiesFrom(lines[1..], false, [])
    else BodiesFrom(lines[1..], open, if open then body + [lines[0]] else body)
  }

  function Bodies(lines: seq<string>): seq<seq<string>> {
    BodiesFrom(lines, false, [])
  }

  /** The properties of one body, read from first to last. */
  function ReadBody(body: seq<string>): Result<PendingEvent, ParseError> {
    if body == [] then Ok(NOTHING_YET)
    else
      match ReadBody(body[..|body| - 1])
      case Err(error) => Err(error)
      case Ok(event) => Assign(event, TrimEnd(body[|body| - 1]))
  }

  function EventOf(body: seq<string>): Result<Option<CalendarEvent>, ParseError> {
    match ReadBody(body)
    case Err(error) => Err(error)
    case Ok(event) => FinishEvent(event)
  }

  /** The events of the bodies that are not cancelled. */
  function EventsOf(bodies: seq<seq<string>>): seq<CalendarEvent> {
    if bodies == [] then []
    else
      var event := EventOf(bodies[0]);
      (if event.Ok? && event.value.Some? then [event.value.value] else []) + EventsOf(bodies[1..])
  }

  function PutAll(events: seq<CalendarEvent>, more: seq<CalendarEvent>): seq<CalendarEvent>
    decreases |more|
  {
    if more == [] then events else PutAll(Put(events, more[0]), more[1..])
  }

  // ----- the pass, told by bodies

  /** The markers that are left alternate, continuing from an open or a closed event. */
  predicate Continuing(markers: seq<bool>, open: bool) {
    Matched(if open then [true] + markers else markers)
  }

  lemma ContinuingCons(first: bool, markers: seq<bool>, open: bool)
    ensures Continuing([first] + markers, open) <==> first == !open && Continuing(markers, first)
  {
    if open {
      var all := [true] + ([first] + markers);
      if Continuing([first] + markers, open) {
        assert all[1] == first;
        forall i | 0 <= i < |markers| ensures markers[i] == (i % 2 == 0) {
          assert all[i + 2] == markers[i];
        }
      } else if !first && Continuing(markers, false) {
        assert |all| % 2 == 0;
        assert forall i | 0 <= i < |all| :: all[i] == (if i < 2 then i == 0 else markers[i - 2]);
      }
    } else if Continuing([first] + markers, open) {
      assert ([first] + markers)[0] == first;
    }
  }

  lemma PutGrows(events: seq<CalendarEvent>, event: CalendarEvent)
    ensures |events| <= |Put(events, event)|
  {}

  lemma {:induction false} PutAllGrows(events: seq<CalendarEvent>, more: seq<CalendarEvent>)
    ensures |events| <= |PutAll(events, more)|
    decreases |more|
  {
    if more != [] {
      PutGrows(events, more[0]);
      PutAllGrows(Put(events, more[0]), more[1..]);
    }
  }

  predicate AllGood(bodies: seq<seq<string>>) {
    forall i | 0 <= i < |bodies| :: EventOf(bodies[i]).Ok?
  }

  lemma AllGoodCons(body: seq<string>, bodies: seq<seq<string>>)
    ensures AllGood([body] + bodies) <==> EventOf(body).Ok? && AllGood(bodies)
  {
    hide EventOf;
    var all := [body] + bodies;
    if AllGood(all) {
      assert all[0] == body && forall i | 0 <= i < |bodies| :: bodies[i] == all[i + 1];
    }
  }

  /** A line that cannot be read spoils the event it is in. */
  lemma {:induction false} BadBody(lines: seq<string>, body: seq<string>)
    requires ReadBody(body).Err?
    requires Continuing(Markers(lines), true)
    ensures !AllGood(BodiesFrom(lines, true, body))
    decreases |lines|
  {
    if lines == [] {
      // an event is still open
    } else if IsBegin(lines[0]) || IsEnd(lines[0]) {
      ContinuingCons(IsBegin(lines[0]), Markers(lines[1..]), true);
      AllGoodCons(body, BodiesFrom(lines[1..], false, []));
    } else {
      assert Markers(lines) == Markers(lines[1..]);
      assert (body + [lines[0]])[..|body|] == body;
      BadBody(lines[1..], body + [lines[0]]);
    }
  }

  function StateOf(open: bool, body: seq<string>, events: seq<CalendarEvent>): State
    requires open ==> ReadBody(body).Ok?
  {
    State(if open then Some(ReadBody(body).value) else None, events)
  }

  /** The reading that starts in the middle of the text ends well. */
  predicate EndsWell(lines: seq<string>, open: bool, body: seq<string>, events: seq<CalendarEvent>) {
    var bodies := BodiesFrom(lines, open, body);
    Continuing(Markers(lines), open) && AllGood(bodies) && |PutAll(events, EventsOf(bodies))| <= MAX_ICAL_EVENTS
  }

  function Finish(s: Result<State, ParseError>): Option<seq<CalendarEvent>> {
    if s.Ok? && s.value.pending.None? then Some(s.value.events) else None
  }

  function Expected(lines: seq<string>, open: bool, body: seq<string>, events: seq<CalendarEvent>): Option<seq<CalendarEvent>> {
    if EndsWell(lines, open, body, events) then Some(PutAll(events, EventsOf(BodiesFrom(lines, open, body)))) else None
  }

  lemma EndOfBody(rest: seq<string>, body: seq<string>, events: seq<CalendarEvent>, event: Option<CalendarEvent>)
    requires EventOf(body) == Ok(event)
    ensures var after := if event.Some? then Put(events, event.value) else events;
            var bodies := [body] + BodiesFrom(rest, false, []);
            && PutAll(events, EventsOf(bodies)) == PutAll(after, EventsOf(bodies[1..]))
            && |after| <= |PutAll(after, EventsOf(bodies[1..]))|
  {
    var bodies := [body] + BodiesFrom(rest, false, []);
    if event.Some? {
      assert EventsOf(bodies)[1..] == EventsOf(bodies[1..]);
      PutAllGrows(Put(events, event.value), EventsOf(bodies[1..]));
    } else {
      assert EventsOf(bodies) == EventsOf(bodies[1..]);
      PutAllGrows(events, EventsOf(bodies[1..]));
    }
  }

  lemma {:induction false} RunMeaning(lines: seq<string>, open: bool, body: seq<string>, events: seq<CalendarEvent>)
    requires open ==> ReadBody(body).Ok?
    requires |events| <= MAX_ICAL_EVENTS
    ensures Finish(RunFrom(StateOf(open, body, events), lines)) == Expected(lines, open, body, events)
    decreases |lines|, 1
  {
    if lines == [] {
      assert Markers(lines) == [] && BodiesFrom(lines, open, body) == [];
    } else if IsBegin(lines[0]) {
      ContinuingCons(true, Markers(lines[1..]), open);
      if !open {
        RunMeaning(lines[1..], true, [], events);
      }
    } else if IsEnd(lines[0]) {
      EndMeaning(lines, open, body, events);
    } else {
      assert Markers(lines) == Markers(lines[1..]);
      if open {
        var body' := body + [lines[0]];
        assert body'[..|body|] == body;
        if ReadBody(body').Ok? {
          RunMeaning(lines[1..], true, body', events);
        } else if Continuing(Markers(lines), true) {
          BadBody(lines[1..], body');
        }
      } else {
        RunMeaning(lines[1..], false, body, events);
      }
    }
  }

  lemma {:induction false} EndMeaning(lines: seq<string>, open: bool, body: seq<string>, events: seq<CalendarEvent>)
    requires lines != [] && IsEnd(lines[0])
    requires open ==> ReadBody(body).Ok?
    requires |events| <= MAX_ICAL_EVENTS
    ensures Finish(RunFrom(StateOf(open, body, events), lines)) == Expected(lines, open, body, events)
    decreases |lines|, 0
  {
    var rest := BodiesFrom(lines[1..], false, []);
    ContinuingCons(false, Markers(lines[1..]), open);
    if open {
      AllGoodCons(body, rest);
      if EventOf(body).Ok? {
        var event := EventOf(body).value;
        var after := if event.Some? then Put(events, event.value) else events;
        EndOfBody(lines[1..], body, events, event);
        assert ([body] + rest)[1..] == rest;
        if |after| <= MAX_ICAL_EVENTS {
          RunMeaning(lines[1..], false, [], after);
        }
      }
    }
  }

  /**
   * The lines are accepted exactly when the markers are matched and unnested, every body makes an
   * event or a cancelled one, and at most 5000 keys are left; the events are then those of the
   * bodies, put into the map in order.
   */
  lemma AcceptedIff(lines: seq<string>)
    ensures var events := PutAll([], EventsOf(Bodies(lines)));
            && (ReadEvents(lines).Ok? <==> Matched(Markers(lines)) && AllGood(Bodies(lines)) && |events| <= MAX_ICAL_EVENTS)
            && (ReadEvents(lines).Ok? ==> ReadEvents(lines).value == events)
  {
    RunMeaning(lines, false, [], []);
  }

  // ----- the map: the last event of each key wins

  predicate DistinctKeys(events: seq<CalendarEvent>) {
    forall i, j | 0 <= i < j < |events| :: events[i].eventKey != events[j].eventKey
  }

  /** `event` is the last in `all` with its key. */
  predicate Wins(event: CalendarEvent, all: seq<CalendarEvent>) {
    exists i | 0 <= i < |all| :: all[i] == event && forall j | i < j < |all| :: all[j].eventKey != event.eventKey
  }

  lemma {:induction false} PutKeeps(events: seq<CalendarEvent>, event: CalendarEvent)
    requires DistinctKeys(events)
    ensures DistinctKeys(Put(events, event))
    ensures forall e :: e in Put(events, event) <==> e == event || (e in events && e.eventKey != event.eventKey)
  {
    if events != [] {
      var first, rest := events[0], events[1..];
      assert events == [first] + rest;
      assert forall i | 0 <= i < |rest| :: rest[i] == events[i + 1];
      if first.eventKey == event.eventKey {
        assert forall e | e in rest :: e.eventKey != event.eventKey;
      } else {
        PutKeeps(rest, event);
        assert forall e | e in rest :: e.eventKey != first.eventKey;
        DistinctCons(first, Put(rest, event));
      }
    }
  }

  lemma DistinctCons(first: CalendarEvent, rest: seq<CalendarEvent>)
    requires DistinctKeys(rest) && forall e | e in rest :: e.eventKey != first.eventKey
    ensures DistinctKeys([first] + rest)
  {}

  lemma WinsSnoc(event: CalendarEvent, all: seq<CalendarEvent>, last: CalendarEvent)
    ensures Wins(event, all + [last]) <==> event == last || (Wins(event, all) && event.eventKey != last.eventKey)
  {
    var longer := all + [last];
    assert longer[|all|] == last;
    if Wins(event, longer) {
      var i :| 0 <= i < |longer| && longer[i] == event && forall j | i < j < |longer| :: longer[j].eventKey != event.eventKey;
      if i < |all| {
        assert all[i] == event && forall j | i < j < |all| :: all[j] == longer[j];
      }
    }
    if Wins(event, all) && event.eventKey != last.eventKey {
      var i :| 0 <= i < |all| && all[i] == event && forall j | i < j < |all| :: all[j].eventKey != event.eventKey;
      assert longer[i] == event && forall j | i < j < |longer| :: longer[j] == if j < |all| then all[j] else last;
    }
  }

  lemma {:induction false} LastEventWins(done: seq<CalendarEvent>, events: seq<CalendarEvent>, more: seq<CalendarEvent>)
    requires DistinctKeys(events) && forall e :: e in events <==> Wins(e, done)
    ensures DistinctKeys(PutAll(events, more))
    ensures forall e :: e in PutAll(events, more) <==> Wins(e, done + more)
    decreases |more|
  {
    if more == [] {
      assert done + more == done;
    } else {
      PutKeeps(events, more[0]);
      forall e ensures e in Put(events, more[0]) <==> Wins(e, done + [more[0]]) {
        WinsSnoc(e, done, more[0]);
      }
      LastEventWins(done + [more[0]], Put(events, more[0]), more[1..]);
      assert done + more == done + [more[0]] + more[1..];
    }
  }

  lemma LastOfAllWins(all: seq<CalendarEvent>)
    ensures DistinctKeys(PutAll([], all))
    ensures forall e :: e in PutAll([], all) <==> Wins(e, all)
    ensures forall e | e in PutAll([], all) :: e in all
  {
    LastEventWins([], [], all);
    assert [] + all == all;
  }

  // ----- sorting

  predicate SortedByStart(events: seq<CalendarEvent>) {
    forall i, j | 0 <= i < j < |events| :: !Less(events[j].startsOn, events[i].startsOn)
  }

  /** Starts are in order even where the locale's order of the keys is not one. */
  lemma {:induction false} InsertEventSorts(collate: Collation, sorted: seq<CalendarEvent>, event: CalendarEvent)
    requires SortedByStart(sorted)
    ensures SortedByStart(InsertEvent(collate, sorted, event))
    ensures multiset(InsertEvent(collate, sorted, event)) == multiset(sorted) + multiset{event}
  {
    if sorted != [] {
      var init, last := sorted[..|sorted| - 1], sorted[|sorted| - 1];
      assert sorted == init + [last];
      if Precedes(collate, event, last) {
        InsertEventSorts(collate, init, event);
        forall e | e in InsertEvent(collate, init, event) ensures !Less(last.startsOn, e.startsOn) {
          assert e in multiset(InsertEvent(collate, init, event));
          if e == event {
            NotBoth(event.startsOn, last.startsOn);
          } else {
            assert e in init;
          }
        }
        SortedSnoc(InsertEvent(collate, init, event), last);
      } else {
        LessIrreflexive(last.startsOn);
        forall i | 0 <= i < |sorted| ensures !Less(event.startsOn, sorted[i].startsOn) {
          assert !Less(last.startsOn, sorted[i].startsOn);
          NotLessTransitive(event.startsOn, last.startsOn, sorted[i].startsOn);
        }
        SortedSnoc(sorted, event);
      }
    }
  }

  lemma NotLessTransitive(a: string, b: string, c: string)
    requires !Less(a, b) && !Less(b, c)
    ensures !Less(a, c)
  {}

  lemma NotBoth(a: string, b: string)
    ensures !(Less(a, b) && Less(b, a))
    ensures a == b ==> !Less(b, a)
  {}

  lemma SortedSnoc(sorted: seq<CalendarEvent>, last: CalendarEvent)
    requires SortedByStart(sorted) && forall e | e in sorted :: !Less(last.startsOn, e.startsOn)
    ensures SortedByStart(sorted + [last])
  {}

  lemma {:induction false} SortSorts(collate: Collation, events: seq<CalendarEvent>)
    ensures SortedByStart(Sort(collate, events)) && multiset(Sort(collate, events)) == multiset(events)
  {
    if events != [] {
      SortSorts(collate, events[..|events| - 1]);
      InsertEventSorts(collate, Sort(collate, events[..|events| - 1]), events[|events| - 1]);
      assert events == events[..|events| - 1] + [events[|events| - 1]];
    }
  }

  // ----- what one event promises

  predicate WellDated(event: CalendarEvent) {
    IsRealDate(event.startsOn) && IsRealDate(event.endsOn) && Before(ReadIso(event.startsOn), ReadIso(event.endsOn))
  }

  predicate RealDates(event: PendingEvent) {
    && (event.startsOn.Some? ==> IsRealDate(event.startsOn.value))
    && (event.endsOn.Some? ==> IsRealDate(event.endsOn.value))
  }

  lemma AssignKeepsDates(event: PendingEvent, property: Property, value: string)
    requires RealDates(event)
    ensures var after := AssignProperty(event, property, value);
            after.Ok? ==> RealDates(after.value)
  {}

  lemma {:induction false} BodyDates(body: seq<string>)
    ensures ReadBody(body).Ok? ==> RealDates(ReadBody(body).value)
  {
    if body != [] && ReadBody(body[..|body| - 1]).Ok? {
      BodyDates(body[..|body| - 1]);
      var content := SplitContentLine(TrimEnd(body[|body| - 1]));
      AssignKeepsDates(ReadBody(body[..|body| - 1]).value, PropertyNamed(content.name), content.value);
    }
  }

  lemma EventIsWellDated(body: seq<string>)
    ensures EventOf(body).Ok? && EventOf(body).value.Some? ==> WellDated(EventOf(body).value.value)
  {
    BodyDates(body);
    if EventOf(body).Ok? && EventOf(body).value.Some? {
      var event := EventOf(body).value.value;
      var a, b := ReadIso(event.startsOn), ReadIso(event.endsOn);
      RealDateIff(event.startsOn);
      RealDateIff(event.endsOn);
      var a' :| Writable(a') && event.startsOn == Iso(a');
      var b' :| Writable(b') && event.endsOn == Iso(b');
      ReadIsoOfIso(a');
      ReadIsoOfIso(b');
      IsoOrder(a, b);
    }
  }

  lemma {:induction false} EventsAreWellDated(bodies: seq<seq<string>>)
    ensures forall e | e in EventsOf(bodies) :: WellDated(e)
  {
    if bodies != [] {
      EventIsWellDated(bodies[0]);
      EventsAreWellDated(bodies[1..]);
    }
  }

  /** The result of the parser, described by the bodies of the text. */
  ghost predicate Describes(result: seq<CalendarEvent>, bodies: seq<seq<string>>) {
    && |result| <= MAX_ICAL_EVENTS && DistinctKeys(result) && SortedByStart(result)
    && (forall e | e in result :: WellDated(e))
    && (forall e :: e in result <==> Wins(e, EventsOf(bodies)))
  }

  /**
   * Every accepted text has matched, unnested event markers and good bodies only, and yields at
   * most 5000 events with distinct keys, real dates, start before end, in order of start; the
   * events are exactly those that are last, among the uncancelled ones, with their key.
   */
  lemma ParserGuarantee(source: string, collate: Collation)
    ensures var lines, result := Unfold(source), Parse(source, collate);
            result.Ok? ==> Matched(Markers(lines)) && AllGood(Bodies(lines)) && Describes(result.value, Bodies(lines))
  {
    hide ReadEvents, Unfold, Markers, Matched, AllGood, BodiesFrom, EventsOf, PutAll, Sort, WellDated, Wins, SortedByStart, DistinctKeys;
    var lines := Unfold(source);
    var all := EventsOf(Bodies(lines));
    var events := PutAll([], all);
    AcceptedIff(lines);
    EventsAreWellDated(Bodies(lines));
    LastOfAllWins(all);
    SortSorts(collate, events);
    SameMembers(events, Sort(collate, events));
  }

  lemma SameMembers(events: seq<CalendarEvent>, sorted: seq<CalendarEvent>)
    requires multiset(events) == multiset(sorted) && DistinctKeys(events)
    ensures DistinctKeys(sorted) && |sorted| == |events| && forall e :: e in sorted <==> e in events
  {
    assert |multiset(events)| == |events| && |multiset(sorted)| == |sorted|;
    forall e ensures e in sorted <==> e in events {
      assert e in multiset(sorted) <==> e in multiset(events);
    }
    forall i, j | 0 <= i < j < |sorted| ensures sorted[i].eventKey != sorted[j].eventKey {
      if sorted[i] == sorted[j] {
        OnceEach(events, sorted[i]);
        TwiceIn(sorted, i, j);
      } else {
        assert sorted[i] in sorted && sorted[j] in sorted;
        var m :| 0 <= m < |events| && events[m] == sorted[i];
        var n :| 0 <= n < |events| && events[n] == sorted[j];
      }
    }
  }

  lemma {:induction false} OnceEach(events: seq<CalendarEvent>, e: CalendarEvent)
    requires DistinctKeys(events)
    ensures multiset(events)[e] <= 1
  {
    if events != [] {
      assert events == [events[0]] + events[1..];
      OnceEach(events[1..], e);
      if e in events[1..] {
        assert e != events[0];
      }
    }
  }

  lemma TwiceIn(s: seq<CalendarEvent>, i: nat, j: nat)
    requires i < j < |s| && s[i] == s[j]
    ensures multiset(s)[s[i]] >= 2
  {
    assert s == s[..j] + s[j..] && s[..j][i] == s[i] && s[j..][0] == s[j];
    assert s[i] in s[..j] && s[i] in s[j..];
    assert multiset(s) == multiset(s[..j]) + multiset(s[j..]);
  }
}
