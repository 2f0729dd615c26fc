/**
 * Calendar dates: the Gregorian rules, ISO text, and day numbers counted from
 * 0000-01-01 by stepping to the next day.
 */
module CivilDates {
  import opened Text

  datatype Date = Date(year: nat, month: nat, day: nat)

  predicate IsLeap(year: nat) {
    year % 4 == 0 && (year % 100 != 0 || year % 400 == 0)
  }

  function DaysInMonth(year: nat, month: nat): nat {
    if month == 2 then (if IsLeap(year) then 29 else 28)
    else if month in {4, 6, 9, 11} then 30 else 31
  }

  predicate IsReal(d: Date) {
    1 <= d.month <= 12 && 1 <= d.day <= DaysInMonth(d.year, d.month)
  }

  function NextDay(d: Date): (next: Date)
    requires IsReal(d)
    ensures IsReal(next) && Before(d, next)
  {
    if d.day < DaysInMonth(d.year, d.month) then Date(d.year, d.month, d.day + 1)
    else if d.month < 12 then Date(d.year, d.month + 1, 1)
    else Date(d.year + 1, 1, 1)
  }

  predicate Before(a: Date, b: Date) {
    a.year < b.year || (a.year == b.year && (a.month < b.month || (a.month == b.month && a.day < b.day)))
  }

  /** The date with day number `n`. */
  function Civil(n: nat): (d: Date)
    ensures IsReal(d)
  {
    if n == 0 then Date(0, 1, 1) else NextDay(Civil(n - 1))
  }

  lemma {:induction false} CivilIncreasing(m: nat, n: nat)
    requires m < n
    ensures Before(Civil(m), Civil(n))
  {
    if m < n - 1 {
      CivilIncreasing(m, n - 1);
    }
  }

  /** Between a real date and the one after it there is no other. */
  lemma NextDayIsAdjacent(a: Date, b: Date)
    requires IsReal(a) && IsReal(b) && Before(a, b)
    ensures b == NextDay(a) || Before(NextDay(a), b)
  {}

  /** Every real date has a day number, at most `n` if it is not after `Civil(n)`. */
  lemma {:induction false} HasDayNumber(d: Date, n: nat) returns (k: nat)
    requires IsReal(d) && !Before(Civil(n), d)
    ensures k <= n && Civil(k) == d
  {
    if d == Civil(n) {
      k := n;
    } else if n == 0 {
      assert false;
    } else {
      if Before(Civil(n - 1), d) {
        NextDayIsAdjacent(Civil(n - 1), d);
      }
      k := HasDayNumber(d, n - 1);
    }
  }

  // ----- ISO text

  function Digit(n: nat): char
    requires n < 10
  {
    (n + '0' as int) as char
  }

  function DigitValue(c: char): nat
    requires IsDigit(c)
  {
    c as int - '0' as int
  }

  function Two(n: nat): (s: string)
    requires n < 100
    ensures |s| == 2 && forall c | c in s :: IsDigit(c)
  {
    [Digit(n / 10), Digit(n % 10)]
  }

  function Four(n: nat): (s: string)
    requires n < 10000
    ensures |s| == 4 && forall c | c in s :: IsDigit(c)
  {
    Two(n / 100) + Two(n % 100)
  }

  predicate Writable(d: Date) {
    IsReal(d) && d.year <= 9999
  }

  function Iso(d: Date): (s: string)
    requires Writable(d)
    ensures |s| == 10
  {
    Four(d.year) + "-" + Two(d.month) + "-" + Two(d.day)
  }

  /** `compactDate` of an ISO date. */
  function Compact(d: Date): (s: string)
    requires Writable(d)
    ensures |s| == 8 && forall c | c in s :: IsDigit(c)
  {
    Four(d.year) + Two(d.month) + Two(d.day)
  }

  function RemoveDashes(s: string): string {
    ReplaceChars(s, '-', "")
  }

  function ReadTwo(s: string): nat
    requires |s| == 2 && IsDigit(s[0]) && IsDigit(s[1])
  {
    10 * DigitValue(s[0]) + DigitValue(s[1])
  }

  predicate IsoPattern(s: string) {
    && |s| == 10 && s[4] == '-' && s[7] == '-'
    && IsDigit(s[0]) && IsDigit(s[1]) && IsDigit(s[2]) && IsDigit(s[3])
    && IsDigit(s[5]) && IsDigit(s[6]) && IsDigit(s[8]) && IsDigit(s[9])
  }

  function ReadIso(s: string): Date
    requires IsoPattern(s)
  {
    Date(100 * ReadTwo(s[0..2]) + ReadTwo(s[2..4]), ReadTwo(s[5..7]), ReadTwo(s[8..10]))
  }

  /** `isRealDate`. */
  predicate IsRealDate(s: string) {
    IsoPattern(s) && IsReal(ReadIso(s))
  }

  lemma TwoOfReadTwo(s: string)
    requires |s| == 2 && IsDigit(s[0]) && IsDigit(s[1])
    ensures ReadTwo(s) < 100 && Two(ReadTwo(s)) == s
  {}

  /** Writing a real date and reading it back. */
  lemma ReadIsoOfIso(d: Date)
    requires Writable(d)
    ensures IsRealDate(Iso(d)) && ReadIso(Iso(d)) == d
  {}

  /** A text is accepted as a real date exactly when it is the ISO form of one. */
  lemma RealDateIff(s: string)
    ensures IsRealDate(s) <==> exists d :: Writable(d) && s == Iso(d)
  {
    if IsRealDate(s) {
      var d := ReadIso(s);
      TwoOfReadTwo(s[0..2]);
      TwoOfReadTwo(s[2..4]);
      TwoOfReadTwo(s[5..7]);
      TwoOfReadTwo(s[8..10]);
      assert d.year / 100 == ReadTwo(s[0..2]) && d.year % 100 == ReadTwo(s[2..4]);
      assert Writable(d) && Iso(d) == s;
    }
    if d :| Writable(d) && s == Iso(d) {
      ReadIsoOfIso(d);
    }
  }

  lemma LessTwo(m: nat, n: nat, x: string, y: string)
    requires m < 100 && n < 100
    ensures Less(Two(m) + x, Two(n) + y) <==> m < n || (m == n && Less(x, y))
  {}

  /** ISO text order is date order. */
  lemma IsoOrder(a: Date, b: Date)
    requires Writable(a) && Writable(b)
    ensures Less(Iso(a), Iso(b)) <==> Before(a, b)
  {
    var a1, b1 := "-" + Two(a.day), "-" + Two(b.day);
    var a2, b2 := "-" + (Two(a.month) + a1), "-" + (Two(b.month) + b1);
    LessTwo(a.day, b.day, "", "");
    assert Two(a.day) + "" == Two(a.day) && Two(b.day) + "" == Two(b.day);
    LessPrefix("-", Two(a.day), Two(b.day));
    LessTwo(a.month, b.month, a1, b1);
    LessPrefix("-", Two(a.month) + a1, Two(b.month) + b1);
    LessTwo(a.year % 100, b.year % 100, a2, b2);
    LessTwo(a.year / 100, b.year / 100, Two(a.year % 100) + a2, Two(b.year % 100) + b2);
    assert Iso(a) == Two(a.year / 100) + (Two(a.year % 100) + a2);
    assert Iso(b) == Two(b.year / 100) + (Two(b.year % 100) + b2);
  }

  lemma {:induction false} NothingToRemove(s: string, t: string)
    requires '-' !in s
    ensures RemoveDashes(s + t) == s + RemoveDashes(t)
  {
    if s == "" {
      assert s + t == t;
    } else {
      NothingToRemove(s[1..], t);
      assert (s + t)[1..] == s[1..] + t;
    }
  }

  /** Removing the dashes of an ISO date leaves its eight digits. */
  lemma CompactIsoDate(d: Date)
    requires Writable(d)
    ensures RemoveDashes(Iso(d)) == Compact(d)
  {
    var day := Two(d.day);
    NothingToRemove(day, "");
    assert day + "" == day;
    NothingToRemove(Two(d.month), "-" + day);
    NothingToRemove(Four(d.year), "-" + (Two(d.month) + ("-" + day)));
    assert ("-" + day)[1..] == day;
    assert ("-" + (Two(d.month) + ("-" + day)))[1..] == Two(d.month) + ("-" + day);
    assert Iso(d) == Four(d.year) + ("-" + (Two(d.month) + ("-" + day)));
  }
}
