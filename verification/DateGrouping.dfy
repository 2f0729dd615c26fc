/** Grouping unavailable nights into maximal ranges of consecutive days. */
module DateGrouping {

  type Day = nat

  /** The nights from `startsOn` up to, not including, `endsOn`. */
  datatype DateRange = DateRange(startsOn: Day, endsOn: Day)

  predicate StrictlyIncreasing(days: seq<Day>) {
    forall i, j | 0 <= i < j < |days| :: days[i] < days[j]
  }

  // ----- the unique days in order

  function Insert(days: seq<Day>, d: Day): seq<Day> {
    if days == [] then [d]
    else if d < days[0] then [d] + days
    else if d == days[0] then days
    else [days[0]] + Insert(days[1..], d)
  }

  /** `[...new Set(values)].sort()`. */
  function SortedUnique(values: seq<Day>): seq<Day> {
    if values == [] then [] else Insert(SortedUnique(values[1..]), values[0])
  }

  lemma IncreasingCons(first: Day, rest: seq<Day>)
    requires StrictlyIncreasing(rest) && forall i | 0 <= i < |rest| :: first < rest[i]
    ensures StrictlyIncreasing([first] + rest)
  {}

  lemma {:induction false} InsertSorted(days: seq<Day>, d: Day)
    requires StrictlyIncreasing(days)
    ensures StrictlyIncreasing(Insert(days, d))
    ensures forall x :: x in Insert(days, d) <==> x in days || x == d
  {
    if days != [] && d > days[0] {
      InsertSorted(days[1..], d);
      var rest := Insert(days[1..], d);
      forall i | 0 <= i < |rest| ensures days[0] < rest[i] {
        assert rest[i] in rest;
      }
      IncreasingCons(days[0], rest);
      forall x ensures x in Insert(days, d) <==> x in days || x == d {
        assert x in days <==> x == days[0] || x in days[1..];
        assert x in Insert(days, d) <==> x == days[0] || x in rest;
      }
    }
  }

  lemma {:induction false} SortedUniqueIsSorted(values: seq<Day>)
    ensures StrictlyIncreasing(SortedUnique(values))
    ensures forall x :: x in SortedUnique(values) <==> x in values
  {
    if values != [] {
      SortedUniqueIsSorted(values[1..]);
      InsertSorted(SortedUnique(values[1..]), values[0]);
      assert values == [values[0]] + values[1..];
    }
  }

  // ----- grouping

  /** The ranges of strictly increasing days, the last one still open to the next day. */
  function Group(days: seq<Day>): (ranges: seq<DateRange>)
    ensures days != [] ==> ranges != [] && ranges[|ranges| - 1].endsOn == days[|days| - 1] + 1
  {
    if days == [] then []
    else
      var d := days[|days| - 1];
      var ranges := Group(days[..|days| - 1]);
      if |days| >= 2 && d == days[|days| - 2] + 1
      then ranges[|ranges| - 1 := DateRange(ranges[|ranges| - 1].startsOn, d + 1)]
      else ranges + [DateRange(d, d + 1)]
  }

  /** `groupConsecutiveDates`: one pass with a range start and the previous date. */
  method GroupConsecutiveDates(values: seq<Day>) returns (ranges: seq<DateRange>)
    ensures ranges == Group(SortedUnique(values))
  {
    var dates := SortedUnique(values);
    if dates == [] {
      return [];
    }
    ranges := [];
    var rangeStart, previous := dates[0], dates[0];
    assert dates[..1] == [dates[0]];
    for i := 1 to |dates|
      invariant previous == dates[i - 1]
      invariant Group(dates[..i]) == ranges + [DateRange(rangeStart, previous + 1)]
    {
      assert dates[..i + 1][..i] == dates[..i];
      if dates[i] == previous + 1 {
        previous := dates[i];
      } else {
        ranges := ranges + [DateRange(rangeStart, previous + 1)];
        rangeStart, previous := dates[i], dates[i];
      }
    }
    assert dates[..|dates|] == dates;
    ranges := ranges + [DateRange(rangeStart, previous + 1)];
  }

  // ----- what the grouping means

  predicate InRange(d: Day, r: DateRange) {
    r.startsOn <= d < r.endsOn
  }

  predicate Covered(d: Day, ranges: seq<DateRange>) {
    exists i | 0 <= i < |ranges| :: InRange(d, ranges[i])
  }

  /** Nonempty ranges in order, with at least one free night between neighbours. */
  predicate Canonical(ranges: seq<DateRange>) {
    && (forall i | 0 <= i < |ranges| :: ranges[i].startsOn < ranges[i].endsOn)
    && (forall i, j | 0 <= i < j < |ranges| :: ranges[i].endsOn < ranges[j].startsOn)
  }

  lemma CoveredSnoc(d: Day, ranges: seq<DateRange>, r: DateRange)
    ensures Covered(d, ranges + [r]) <==> Covered(d, ranges) || InRange(d, r)
  {
    var longer := ranges + [r];
    if i :| 0 <= i < |ranges| && InRange(d, ranges[i]) {
      assert longer[i] == ranges[i];
    }
    assert longer[|ranges|] == r;
  }

  lemma {:induction false} GroupIsCanonical(days: seq<Day>)
    requires StrictlyIncreasing(days)
    ensures Canonical(Group(days))
    ensures forall d :: Covered(d, Group(days)) <==> d in days
  {
    if days != [] {
      var init, d := days[..|days| - 1], days[|days| - 1];
      var before, after := Group(init), Group(days);
      GroupIsCanonical(init);
      assert days == init + [d];
      if |days| >= 2 && d == days[|days| - 2] + 1 {
        var n := |before| - 1;
        assert before == before[..n] + [before[n]] && after == before[..n] + [DateRange(before[n].startsOn, d + 1)];
        assert before[n].endsOn == d;
        forall x ensures Covered(x, after) <==> Covered(x, before) || x == d {
          CoveredSnoc(x, before[..n], before[n]);
          CoveredSnoc(x, before[..n], DateRange(before[n].startsOn, d + 1));
        }
      } else {
        forall x ensures Covered(x, after) <==> Covered(x, before) || x == d {
          CoveredSnoc(x, before, DateRange(d, d + 1));
        }
        if init != [] {
          assert before[|before| - 1].endsOn == init[|init| - 1] + 1 < d;
        }
      }
    }
  }

  /**
   * For every list of dates, in any order and with repeats: the ranges are in order, apart and
   * never adjacent, and their nights are exactly the dates.
   */
  lemma GroupingIsCanonical(values: seq<Day>)
    ensures var ranges := Group(SortedUnique(values));
            Canonical(ranges) && forall d :: Covered(d, ranges) <==> d in values
  {
    SortedUniqueIsSorted(values);
    GroupIsCanonical(SortedUnique(values));
  }

  // ----- and it is the only such grouping

  lemma FirstRange(ranges: seq<DateRange>, other: seq<DateRange>)
    requires Canonical(ranges) && Canonical(other) && ranges != []
    requires forall d :: Covered(d, ranges) <==> Covered(d, other)
    ensures other != [] && ranges[0].startsOn >= other[0].startsOn
    ensures ranges[0].startsOn == other[0].startsOn ==> ranges[0].endsOn <= other[0].endsOn
  {
    var r := ranges[0];
    assert InRange(r.startsOn, r);
    assert Covered(r.startsOn, other);
    if r.startsOn == other[0].startsOn {
      assert !Covered(other[0].endsOn, other);
      assert !InRange(other[0].endsOn, r);
    }
  }

  lemma CoveredTail(d: Day, ranges: seq<DateRange>)
    requires ranges != [] && Canonical(ranges)
    ensures Covered(d, ranges[1..]) <==> Covered(d, ranges) && !InRange(d, ranges[0])
  {}

  /** Two canonical range lists with the same nights are the same list. */
  lemma {:induction false} CanonicalIsUnique(a: seq<DateRange>, b: seq<DateRange>)
    requires Canonical(a) && Canonical(b)
    requires forall d :: Covered(d, a) <==> Covered(d, b)
    ensures a == b
  {
    if a == [] {
      if b != [] {
        FirstRange(b, a);
      }
    } else {
      FirstRange(a, b);
      FirstRange(b, a);
      assert a[0] == b[0];
      forall d ensures Covered(d, a[1..]) <==> Covered(d, b[1..]) {
        CoveredTail(d, a);
        CoveredTail(d, b);
      }
      CanonicalIsUnique(a[1..], b[1..]);
      assert a == [a[0]] + a[1..] && b == [b[0]] + b[1..];
    }
  }

  /** The export depends only on the set of nights, not on their order or repeats. */
  lemma GroupingDependsOnNightsOnly(values: seq<Day>, others: seq<Day>)
    requires forall d :: d in values <==> d in others
    ensures Group(SortedUnique(values)) == Group(SortedUnique(others))
  {
    GroupingIsCanonical(values);
    GroupingIsCanonical(others);
    CanonicalIsUnique(Group(SortedUnique(values)), Group(SortedUnique(others)));
  }
}
