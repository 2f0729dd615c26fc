/** The day numbers of the calendar are those of ECMA-262 (section 21.4.1, Time Values and Time Range). */
module DayNumbers {
  import opened CivilDates
  import opened Rounding

  /** DayFromYear: the number of the first day of a year, counted from 1970-01-01. */
  function DayFromYear(year: nat): int {
    365 * (year - 1970) + (year - 1969) / 4 - (year - 1901) / 100 + (year - 1601) / 400
  }

  function DaysInYear(year: nat): int {
    DayFromYear(year + 1) - DayFromYear(year)
  }

  /** The first day of each month in a year of 365 days. */
  const MONTH_STARTS: seq<int> := [0, 31, 59, 90, 120, 151, 181, 212, 243, 273, 304, 334]

  function DayWithinYear(d: Date): int
    requires 1 <= d.month <= 12
  {
    MONTH_STARTS[d.month - 1] + (if d.month > 2 then DaysInYear(d.year) - 365 else 0) + d.day - 1
  }

  function EpochDay(d: Date): int
    requires 1 <= d.month <= 12
  {
    DayFromYear(d.year) + DayWithinYear(d)
  }

  lemma QuotientSteps(year: int, q: int, k: int)
    requires q > 0
    ensures (year + 1 - (k * q + 1)) / q - (year - (k * q + 1)) / q == if year % q == 0 then 1 else 0
  {
    var d, r := year / q, year % q;
    assert year == q * d + r && q * (d - k) == q * d - k * q;
    assert year - k * q == q * (d - k) + r;
    Divides(year - k * q, q, d - k, r);
    if r == 0 {
      assert q * (d - k - 1) == q * (d - k) - q;
      Divides(year - k * q - 1, q, d - k - 1, q - 1);
    } else {
      Divides(year - k * q - 1, q, d - k, r - 1);
    }
  }

  lemma OneQuotient(q: int, d: int, r: int, e: int, t: int)
    requires q > 0 && q * d + r == q * e + t && 0 <= r < q && 0 <= t < q
    ensures d == e
  {
    assert 2 * q * (e - d) == 2 * (q * e) - 2 * (q * d);
    SmallMultiple(q, e - d);
  }

  lemma Divides(p: int, q: int, d: int, r: int)
    requires q > 0 && p == q * d + r && 0 <= r < q
    ensures p / q == d
  {
    OneQuotient(q, d, r, p / q, p % q);
  }

  lemma MultiplesOfMultiples(year: nat)
    ensures year % 100 == 0 ==> year % 4 == 0
    ensures year % 400 == 0 ==> year % 100 == 0
  {
    if year % 100 == 0 {
      assert year == 4 * (25 * (year / 100));
    }
    if year % 400 == 0 {
      assert year == 100 * (4 * (year / 400));
    }
  }

  /** The leap years are those that are a day longer. */
  lemma LeapYearsAreLonger(year: nat)
    ensures DaysInYear(year) == if IsLeap(year) then 366 else 365
  {
    QuotientSteps(year, 4, 492);
    QuotientSteps(year, 100, 19);
    QuotientSteps(year, 400, 4);
    MultiplesOfMultiples(year);
  }

  lemma NextIsOneMore(d: Date)
    requires IsReal(d)
    ensures EpochDay(NextDay(d)) == EpochDay(d) + 1
  {
    LeapYearsAreLonger(d.year);
    hide DayFromYear, IsLeap;
  }

  lemma FirstDay()
    ensures EpochDay(Date(0, 1, 1)) == -719_528
  {}

  /** 1970-01-01 has day number 719528. */
  lemma {:induction false} EpochDayOfCivil(n: nat)
    ensures EpochDay(Civil(n)) == n - 719_528
  {
    hide EpochDay, NextDay, IsReal;
    if n == 0 {
      FirstDay();
    } else {
      EpochDayOfCivil(n - 1);
      NextIsOneMore(Civil(n - 1));
    }
  }

  lemma {:induction false} YearsGrow(a: nat, b: nat)
    requires a <= b
    ensures DayFromYear(b) >= DayFromYear(a) + 365 * (b - a)
    decreases b
  {
    if a < b {
      YearsGrow(a, b - 1);
      LeapYearsAreLonger(b - 1);
      hide DayFromYear;
    }
  }

  lemma WithinItsYear(d: Date)
    requires IsReal(d)
    ensures 0 <= DayWithinYear(d) < DaysInYear(d.year)
  {
    LeapYearsAreLonger(d.year);
    hide DayFromYear, IsLeap, DaysInYear;
  }

  lemma LaterInYear(a: Date, b: Date)
    requires IsReal(a) && IsReal(b) && Before(a, b) && a.year == b.year
    ensures DayWithinYear(a) < DayWithinYear(b)
  {
    LeapYearsAreLonger(a.year);
    hide DayFromYear, IsLeap, DaysInYear;
  }

  lemma LaterIsMore(a: Date, b: Date)
    requires IsReal(a) && IsReal(b) && Before(a, b)
    ensures EpochDay(a) < EpochDay(b)
  {
    if a.year == b.year {
      LaterInYear(a, b);
    } else {
      WithinItsYear(a);
      WithinItsYear(b);
      YearsGrow(a.year + 1, b.year);
    }
    hide DayFromYear, DayWithinYear, IsReal;
  }

  /** Counting days one by one, as the printer does, gives the dates that ECMA-262 computes. */
  lemma CivilIffEpochDay(d: Date, n: nat)
    requires IsReal(d)
    ensures Civil(n) == d <==> EpochDay(d) == n - 719_528
  {
    EpochDayOfCivil(n);
    hide EpochDay, NextDay;
    if EpochDay(d) == n - 719_528 {
      if Before(Civil(n), d) {
        LaterIsMore(Civil(n), d);
      } else if Before(d, Civil(n)) {
        LaterIsMore(d, Civil(n));
      }
    }
  }
}
