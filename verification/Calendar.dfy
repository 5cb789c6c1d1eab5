/** The proleptic Gregorian calendar: dates, day numbers and weekdays. */
module Calendar {

  datatype Date = Date(year: nat, month: nat, day: nat)

  predicate IsLeap(year: nat) {
    year % 4 == 0 && (year % 100 != 0 || year % 400 == 0)
  }

  function DaysIn(year: nat, month: nat): (n: nat)
    requires 1 <= month <= 12
    ensures 28 <= n <= 31
  {
    if month == 2 then (if IsLeap(year) then 29 else 28)
    else if month in {4, 6, 9, 11} then 30
    else 31
  }

  predicate ValidDate(d: Date) {
    1 <= d.year && 1 <= d.month <= 12 && 1 <= d.day <= DaysIn(d.year, d.month)
  }

  function Tomorrow(d: Date): (t: Date)
    requires ValidDate(d)
    ensures ValidDate(t)
  {
    if d.day < DaysIn(d.year, d.month) then Date(d.year, d.month, d.day + 1)
    else if d.month < 12 then Date(d.year, d.month + 1, 1)
    else Date(d.year + 1, 1, 1)
  }

  /** The date of day `n`, counting from 1 January of year 1. */
  function DateOf(n: nat): (d: Date)
    ensures ValidDate(d)
  {
    if n == 0 then Date(1, 1, 1) else Tomorrow(DateOf(n - 1))
  }

  /** 1 January of year 1 was a Monday, weekday 0. */
  function Weekday(n: nat): nat {
    n % 7
  }

  function DaysBeforeMonth(year: nat, month: nat): nat
    requires 1 <= month <= 13
  {
    if month == 1 then 0 else DaysBeforeMonth(year, month - 1) + DaysIn(year, month - 1)
  }

  function DaysBeforeYear(year: nat): nat
    requires 1 <= year
  {
    if year == 1 then 0 else DaysBeforeYear(year - 1) + DaysBeforeMonth(year - 1, 13)
  }

  function DayNumber(d: Date): nat
    requires ValidDate(d)
  {
    DaysBeforeYear(d.year) + DaysBeforeMonth(d.year, d.month) + d.day - 1
  }

  lemma YearLength(year: nat)
    ensures DaysBeforeMonth(year, 13) == if IsLeap(year) then 366 else 365
  {
    ghost var february := DaysIn(year, 2);
    assert DaysBeforeMonth(year, 2) == DaysBeforeMonth(year, 1) + 31 == 31;
    assert DaysBeforeMonth(year, 3) == february + 31;
    assert DaysBeforeMonth(year, 4) == february + 62;
    assert DaysBeforeMonth(year, 5) == february + 92;
    assert DaysBeforeMonth(year, 6) == february + 123;
    assert DaysBeforeMonth(year, 7) == february + 153;
    assert DaysBeforeMonth(year, 8) == february + 184;
    assert DaysBeforeMonth(year, 9) == february + 215;
    assert DaysBeforeMonth(year, 10) == february + 245;
    assert DaysBeforeMonth(year, 11) == february + 276;
    assert DaysBeforeMonth(year, 12) == february + 306;
  }

  lemma {:induction false} MonthsOrdered(year: nat, a: nat, b: nat)
    requires 1 <= a < b <= 13
    ensures DaysBeforeMonth(year, a) + DaysIn(year, a) <= DaysBeforeMonth(year, b)
  {
    if a + 1 < b {
      MonthsOrdered(year, a, b - 1);
    }
  }

  lemma {:induction false} YearsOrdered(a: nat, b: nat)
    requires 1 <= a < b
    ensures DaysBeforeYear(a) + DaysBeforeMonth(a, 13) <= DaysBeforeYear(b)
  {
    if a + 1 < b {
      YearsOrdered(a, b - 1);
    }
  }

  predicate Before(a: Date, b: Date) {
    || a.year < b.year
    || (a.year == b.year && (a.month < b.month || (a.month == b.month && a.day < b.day)))
  }

  /** A valid date lies within its year. */
  lemma WithinYear(d: Date)
    requires ValidDate(d)
    ensures DaysBeforeYear(d.year) <= DayNumber(d) < DaysBeforeYear(d.year) + DaysBeforeMonth(d.year, 13)
    ensures DaysBeforeYear(d.year + 1) == DaysBeforeYear(d.year) + DaysBeforeMonth(d.year, 13)
  {
    MonthsOrdered(d.year, d.month, 13);
  }

  lemma DayNumbersOrdered(a: Date, b: Date)
    requires ValidDate(a) && ValidDate(b) && Before(a, b)
    ensures DayNumber(a) < DayNumber(b)
  {
    if a.year < b.year {
      WithinYear(a);
      WithinYear(b);
      YearsOrdered(a.year, b.year);
    } else if a.month < b.month {
      MonthsOrdered(a.year, a.month, b.month);
    }
  }

  lemma TomorrowIsNext(d: Date)
    requires ValidDate(d)
    ensures DayNumber(Tomorrow(d)) == DayNumber(d) + 1
  {
    if d.day == DaysIn(d.year, d.month) {
      assert DaysBeforeMonth(d.year, d.month + 1) == DaysBeforeMonth(d.year, d.month) + DaysIn(d.year, d.month);
      if d.month == 12 {
        WithinYear(d);
        assert DaysBeforeMonth(d.year + 1, 1) == 0;
      }
    }
  }

  /** Counting days and numbering dates are inverse to each other. */
  lemma {:induction false} DayNumberOfDate(n: nat)
    ensures DayNumber(DateOf(n)) == n
  {
    if n == 0 {
      assert DaysBeforeYear(1) == 0 && DaysBeforeMonth(1, 1) == 0;
    } else {
      DayNumberOfDate(n - 1);
      TomorrowIsNext(DateOf(n - 1));
    }
  }

  lemma DateOfDayNumber(d: Date)
    requires ValidDate(d)
    ensures DateOf(DayNumber(d)) == d
  {
    var e := DateOf(DayNumber(d));
    DayNumberOfDate(DayNumber(d));
    if Before(d, e) {
      DayNumbersOrdered(d, e);
    } else if Before(e, d) {
      DayNumbersOrdered(e, d);
    }
  }

  // ---------------------------------------------------------------------
  // Anchors
  // ---------------------------------------------------------------------

  /** The leap years up to a year: every fourth, except three of four century years. */
  function LeapYears(year: nat): int {
    year / 4 - year / 100 + year / 400
  }

  lemma {:induction false} DaysBeforeYearClosed(year: nat)
    requires 1 <= year
    ensures DaysBeforeYear(year) == 365 * (year - 1) + LeapYears(year - 1)
  {
    hide IsLeap, DaysBeforeMonth, LeapYears;
    if year == 1 {
      NoLeapYears();
    } else {
      DaysBeforeYearClosed(year - 1);
      YearLength(year - 1);
      OneMoreYear(year - 1);
    }
  }

  lemma NoLeapYears()
    ensures LeapYears(0) == 0
  {
  }

  lemma OneMoreYear(year: nat)
    requires 1 <= year
    ensures LeapYears(year) == LeapYears(year - 1) + (if IsLeap(year) then 1 else 0)
  {
    Fourth(year);
    Hundredth(year);
    FourHundredth(year);
  }

  lemma Fourth(n: nat)
    requires 1 <= n
    ensures n / 4 == (n - 1) / 4 + (if n % 4 == 0 then 1 else 0)
  {
  }

  lemma Hundredth(n: nat)
    requires 1 <= n
    ensures n / 100 == (n - 1) / 100 + (if n % 100 == 0 then 1 else 0)
    ensures n % 100 == 0 ==> n % 4 == 0
  {
  }

  lemma FourHundredth(n: nat)
    requires 1 <= n
    ensures n / 400 == (n - 1) / 400 + (if n % 400 == 0 then 1 else 0)
    ensures n % 400 == 0 ==> n % 100 == 0
  {
  }

  lemma NewYear(year: nat)
    requires 1 <= year
    ensures DayNumber(Date(year, 1, 1)) == DaysBeforeYear(year)
  {
    hide DaysBeforeYear;
  }

  /** Weekdays follow each other, and 1 January 1970 was a Thursday. */
  lemma WeekdaysAreRight(n: nat)
    ensures Weekday(n + 1) == (Weekday(n) + 1) % 7
    ensures Weekday(DayNumber(Date(1970, 1, 1))) == 3
  {
    hide DaysBeforeYear, DayNumber;
    NewYear(1970);
    DaysBeforeYearClosed(1970);
  }
}
