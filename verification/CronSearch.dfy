/** Cron expressions: which dates they can match, and the bounded minute-by-minute search for matches. */
module CronSearch {
  import opened Common
  import opened Calendar
  import opened Cron
  import opened CronText

  datatype CronExpression = CronExpression(
    minute: CronField,
    hour: CronField,
    dayOfMonth: CronField,
    month: CronField,
    dayOfWeek: CronField)

  predicate ExpressionInv(e: CronExpression) {
    && FieldInv(e.minute, MINUTES)
    && FieldInv(e.hour, HOURS)
    && FieldInv(e.dayOfMonth, DAYS)
    && FieldInv(e.month, MONTHS)
    && FieldInv(e.dayOfWeek, WEEKDAYS)
  }

  // ---------------------------------------------------------------------
  // Dates
  // ---------------------------------------------------------------------

  /** The longest a month ever gets. */
  function MaximumDay(month: int): nat {
    if month == 2 then 29 else if month in {4, 6, 9, 11} then 30 else 31
  }

  /** What `_validate_calendar_feasibility` lets pass. */
  predicate CalendarPossible(e: CronExpression) {
    || e.dayOfMonth.wildcard
    || !e.dayOfWeek.wildcard
    || exists m | m in e.month.values :: exists d | d in e.dayOfMonth.values :: d <= MaximumDay(m)
  }

  /** With both day fields restricted either may match; a wildcard day field leaves the other alone. */
  predicate DayRule(e: CronExpression, day: int, weekday: int) {
    if e.dayOfMonth.wildcard then weekday in e.dayOfWeek.values
    else if e.dayOfWeek.wildcard then day in e.dayOfMonth.values
    else day in e.dayOfMonth.values || weekday in e.dayOfWeek.values
  }

  /** Sunday is 0. */
  function CronWeekday(n: nat): nat {
    (Weekday(n) + 1) % 7
  }

  predicate MatchesDay(e: CronExpression, n: nat) {
    DateOf(n).month in e.month.values && DayRule(e, DateOf(n).day, CronWeekday(n))
  }

  /** Every month of every year has every weekday. */
  lemma WeekdayInMonth(year: nat, month: nat, weekday: nat) returns (d: Date)
    requires 1 <= year && 1 <= month <= 12 && weekday < 7
    ensures ValidDate(d) && d.year == year && d.month == month
    ensures CronWeekday(DayNumber(d)) == weekday
  {
    hide DaysBeforeYear, DaysBeforeMonth;
    var first := DayNumber(Date(year, month, 1));
    var shift := ShiftToWeekday(first, weekday);
    d := Date(year, month, 1 + shift);
    assert DayNumber(d) == first + shift;
  }

  lemma ShiftToWeekday(first: nat, weekday: nat) returns (shift: nat)
    requires weekday < 7
    ensures shift < 7 && CronWeekday(first + shift) == weekday
  {
    var weeks, rest := first / 7, first % 7;
    var target := if weekday == 0 then 6 else weekday - 1;
    shift := if rest <= target then target - rest else target + 7 - rest;
    assert first + shift == 7 * weeks + target || first + shift == 7 * (weeks + 1) + target;
    assert (first + shift) % 7 == target;
  }

  /** Some month and day the expression names exist together in every year. */
  predicate MatchesEveryYear(e: CronExpression) {
    || e.dayOfMonth.wildcard
    || !e.dayOfWeek.wildcard
    || exists m | m in e.month.values ::
         exists d | d in e.dayOfMonth.values :: d <= MaximumDay(m) && !(m == 2 && d == 29)
  }

  lemma MatchInYear(e: CronExpression, year: nat) returns (d: Date)
    requires ExpressionInv(e) && 1 <= year
    requires MatchesEveryYear(e) || (CalendarPossible(e) && IsLeap(year))
    ensures ValidDate(d) && d.year == year && MatchesDay(e, DayNumber(d))
  {
    hide DateOf, DayNumber, CronWeekday, IsLeap;
    if e.dayOfMonth.wildcard || !e.dayOfWeek.wildcard {
      var m :| m in e.month.values;
      var w :| w in e.dayOfWeek.values;
      d := WeekdayInMonth(year, m, w);
    } else {
      var m, k;
      if MatchesEveryYear(e) {
        m :| m in e.month.values && exists d | d in e.dayOfMonth.values :: d <= MaximumDay(m) && !(m == 2 && d == 29);
        k :| k in e.dayOfMonth.values && k <= MaximumDay(m) && !(m == 2 && k == 29);
      } else {
        m :| m in e.month.values && exists d | d in e.dayOfMonth.values :: d <= MaximumDay(m);
        k :| k in e.dayOfMonth.values && k <= MaximumDay(m);
      }
      d := Date(year, m, k);
    }
    DateOfDayNumber(d);
  }

  /** The feasibility check accepts an expression exactly if some Gregorian date satisfies its day and month fields. */
  lemma FeasibleExactlyWhen(e: CronExpression)
    requires ExpressionInv(e)
    ensures CalendarPossible(e) <==> exists n: nat :: MatchesDay(e, n)
  {
    hide ExpressionInv, CalendarPossible, MatchesDay, DayNumber;
    if CalendarPossible(e) {
      var d := MatchInYear(e, 4);
      assert MatchesDay(e, DayNumber(d));
    }
    if n: nat :| MatchesDay(e, n) {
      MatchedIsPossible(e, n);
    }
  }

  lemma MatchedIsPossible(e: CronExpression, n: nat)
    requires MatchesDay(e, n)
    ensures CalendarPossible(e)
  {
    hide DateOf, CronWeekday, FieldInv;
    assert ValidDate(DateOf(n));
    assert DateOf(n).day <= MaximumDay(DateOf(n).month);
  }

  ghost predicate SomeFieldMalformed(words: seq<string>)
    requires |words| == 5
  {
    || SomeMalformed(Split(words[0], ','), MINUTES)
    || SomeMalformed(Split(words[1], ','), HOURS)
    || SomeMalformed(Split(words[2], ','), DAYS)
    || SomeMalformed(Split(words[3], ','), MONTHS)
    || SomeMalformed(Split(words[4], ','), WEEKDAYS)
  }

  /** Every field holds exactly the values its text lists. */
  ghost predicate Says(e: CronExpression, words: seq<string>)
    requires |words| == 5
  {
    && (forall v :: v in e.minute.values <==> Listed(Split(words[0], ','), MINUTES, v))
    && (forall v :: v in e.hour.values <==> Listed(Split(words[1], ','), HOURS, v))
    && (forall v :: v in e.dayOfMonth.values <==> Listed(Split(words[2], ','), DAYS, v))
    && (forall v :: v in e.month.values <==> Listed(Split(words[3], ','), MONTHS, v))
    && (forall v :: v in e.dayOfWeek.values <==> Listed(Split(words[4], ','), WEEKDAYS, v))
  }

  /** The expression a text denotes. */
  ghost predicate Denotes(text: string, e: CronExpression) {
    |Words(text)| == 5 && Says(e, Words(text)) && ExpressionInv(e)
  }

  /** Five well-formed fields that some date can match. */
  ghost predicate Accepted(text: string) {
    && |Words(text)| == 5 && !SomeFieldMalformed(Words(text))
    && exists e, n: nat :: Denotes(text, e) && MatchesDay(e, n)
  }

  /** A text denotes one expression at most. */
  lemma DenotesOne(text: string, e: CronExpression, f: CronExpression)
    requires Denotes(text, e) && Denotes(text, f)
    ensures e == f
  {
    hide Words, Split, Listed;
    SameField(Split(Words(text)[0], ','), MINUTES, e.minute, f.minute);
    SameField(Split(Words(text)[1], ','), HOURS, e.hour, f.hour);
    SameField(Split(Words(text)[2], ','), DAYS, e.dayOfMonth, f.dayOfMonth);
    SameField(Split(Words(text)[3], ','), MONTHS, e.month, f.month);
    SameField(Split(Words(text)[4], ','), WEEKDAYS, e.dayOfWeek, f.dayOfWeek);
  }

  lemma SameField(parts: seq<string>, b: Bounds, f: CronField, g: CronField)
    requires forall v :: v in f.values <==> Listed(parts, b, v)
    requires forall v :: v in g.values <==> Listed(parts, b, v)
    requires FieldInv(f, b) && FieldInv(g, b)
    ensures f == g
  {
    hide Listed;
    forall v
      ensures v in f.values <==> v in g.values
    {
      assert v in f.values <==> Listed(parts, b, v);
    }
  }

  /** `CronExpression.parse`: accepts exactly five well-formed fields that some date can match. */
  method Parse(text: string) returns (result: Result<CronExpression, Error>)
    ensures result.Ok? <==> Accepted(text)
    ensures result.Ok? ==> Denotes(text, result.value) && exists n: nat :: MatchesDay(result.value, n)
    ensures result.Err? ==> (result.error.Infeasible? <==> |Words(text)| == 5 && !SomeFieldMalformed(Words(text)))
  {
    hide Words, Split, SomeMalformed, Listed, FieldInv, MatchesDay, CalendarPossible;
    var fields := Words(text);
    if |fields| != 5 {
      return Err(Malformed("cron expression must contain five fields"));
    }
    var minute :- ParseField(fields[0], MINUTES);
    var hour :- ParseField(fields[1], HOURS);
    var dayOfMonth :- ParseField(fields[2], DAYS);
    var month :- ParseField(fields[3], MONTHS);
    var dayOfWeek :- ParseField(fields[4], WEEKDAYS);
    var e := CronExpression(minute, hour, dayOfMonth, month, dayOfWeek);
    FeasibleExactlyWhen(e);
    assert Denotes(text, e);
    if !CalendarPossible(e) {
      NotAccepted(text, e);
      return Err(Infeasible);
    }
    result := Ok(e);
  }

  lemma NotAccepted(text: string, e: CronExpression)
    requires Denotes(text, e) && forall n: nat :: !MatchesDay(e, n)
    ensures !Accepted(text)
  {
    hide Denotes, MatchesDay;
    if f, n: nat :| Denotes(text, f) && MatchesDay(f, n) {
      DenotesOne(text, e, f);
    }
  }

  // ---------------------------------------------------------------------
  // Minutes
  // ---------------------------------------------------------------------

  /** The wall clock of a zone during a UTC minute. */
  datatype Local = Local(minute: int, hour: int, day: int, month: int, weekday: int)

  /** A zone maps minutes since the start of year 1, in UTC, to wall clocks; any map will do. */
  type Zone = nat -> Local

  function UtcLocal(t: nat): Local {
    var n := t / 1440;
    Local(t % 60, t / 60 % 24, DateOf(n).day, DateOf(n).month, CronWeekday(n))
  }

  const UTC: Zone := (t: nat) => UtcLocal(t)

  /** `_matches_in_zone` */
  predicate Matches(e: CronExpression, zone: Zone, t: nat) {
    var at := zone(t);
    && at.minute in e.minute.values
    && at.hour in e.hour.values
    && at.month in e.month.values
    && DayRule(e, at.day, at.weekday)
  }

  /** A zone whose weekdays are numbered from 0, Sunday, to 6. */
  ghost predicate Weekdays(zone: Zone) {
    forall t: nat :: 0 <= zone(t).weekday <= 6
  }

  /**
    The wall clock shows a listed minute, hour and month, and a restricted day field lists its day or its weekday; any
    day will do if neither is restricted.
   */
  predicate Wanted(e: CronExpression, at: Local) {
    && at.minute in e.minute.values && at.hour in e.hour.values && at.month in e.month.values
    && (|| (!e.dayOfMonth.wildcard && at.day in e.dayOfMonth.values)
        || (!e.dayOfWeek.wildcard && at.weekday in e.dayOfWeek.values)
        || (e.dayOfMonth.wildcard && e.dayOfWeek.wildcard))
  }

  lemma MatchesExactlyWhen(e: CronExpression, zone: Zone, t: nat)
    requires ExpressionInv(e) && 0 <= zone(t).weekday <= 6
    ensures Matches(e, zone, t) <==> Wanted(e, zone(t))
  {
    hide FieldInv;
    assert e.dayOfWeek.wildcard ==> zone(t).weekday in e.dayOfWeek.values by {
      AnyWeekdayListed(e.dayOfWeek, zone(t).weekday);
    }
  }

  lemma AnyWeekdayListed(f: CronField, weekday: int)
    requires FieldInv(f, WEEKDAYS) && 0 <= weekday <= 6
    ensures f.wildcard ==> weekday in f.values
  {
  }

  /** With both day fields restricted, an expression matches whenever it would with a wildcard for either of them. */
  lemma EitherDayField(e: CronExpression, anyDay: CronField, anyWeekday: CronField, zone: Zone, t: nat)
    requires ExpressionInv(e) && 0 <= zone(t).weekday <= 6
    requires FieldInv(anyDay, DAYS) && anyDay.wildcard && FieldInv(anyWeekday, WEEKDAYS) && anyWeekday.wildcard
    requires !e.dayOfMonth.wildcard && !e.dayOfWeek.wildcard
    ensures Matches(e, zone, t) <==> Matches(e.(dayOfWeek := anyWeekday), zone, t)
                                     || Matches(e.(dayOfMonth := anyDay), zone, t)
  {
    hide FieldInv;
  }

  const MAX_SEARCH: nat := 5 * 366 * 24 * 60

  /** Microseconds in a minute. */
  const MINUTE := 60_000_000

  ghost predicate NoMatch(e: CronExpression, zone: Zone, from: nat, to: nat) {
    forall t: nat | from <= t < to :: !Matches(e, zone, t)
  }

  lemma MatchesAreWanted(e: CronExpression, zone: Zone)
    requires ExpressionInv(e) && Weekdays(zone)
    ensures forall t: nat :: Matches(e, zone, t) <==> Wanted(e, zone(t))
  {
    hide Matches, Wanted, ExpressionInv;
    forall t: nat
      ensures Matches(e, zone, t) <==> Wanted(e, zone(t))
    {
      MatchesExactlyWhen(e, zone, t);
    }
  }

  /** `next_after`: the least matching minute after the instant, or an error exactly if the search window has none. */
  method NextAfter(e: CronExpression, zone: Zone, instant: nat) returns (result: Result<nat, Error>)
    ensures result.Ok? ==> var t := result.value;
              && instant / MINUTE < t <= instant / MINUTE + MAX_SEARCH
              && Matches(e, zone, t)
              && NoMatch(e, zone, instant / MINUTE + 1, t)
    ensures result.Err? <==> NoMatch(e, zone, instant / MINUTE + 1, instant / MINUTE + 1 + MAX_SEARCH)
    ensures result.Err? ==> result.error.Exhausted?
    ensures ExpressionInv(e) && Weekdays(zone) ==>
              && (result.Ok? ==> Wanted(e, zone(result.value)))
              && forall u: nat | instant / MINUTE < u <= instant / MINUTE + MAX_SEARCH && Wanted(e, zone(u)) ::
                   result.Ok? && result.value <= u
  {
    hide Matches, Wanted, ExpressionInv;
    if ExpressionInv(e) && Weekdays(zone) {
      MatchesAreWanted(e, zone);
    }
    var candidate := instant / MINUTE + 1;
    for i := 0 to MAX_SEARCH
      invariant candidate == instant / MINUTE + 1 + i
      invariant NoMatch(e, zone, instant / MINUTE + 1, candidate)
    {
      if Matches(e, zone, candidate) {
        return Ok(candidate);
      }
      candidate := candidate + 1;
    }
    result := Err(Exhausted);
  }

  /** `previous_at_or_before`, on a time line that starts with year 1. */
  method PreviousAtOrBefore(e: CronExpression, zone: Zone, instant: nat) returns (result: Result<nat, Error>)
    ensures result.Ok? ==> var t := result.value;
              t <= instant / MINUTE && Matches(e, zone, t) && NoMatch(e, zone, t + 1, instant / MINUTE + 1)
    ensures result.Err?
            <==> NoMatch(e, zone, if instant / MINUTE < MAX_SEARCH then 0 else instant / MINUTE + 1 - MAX_SEARCH,
                         instant / MINUTE + 1)
    ensures ExpressionInv(e) && Weekdays(zone) ==>
              && (result.Ok? ==> Wanted(e, zone(result.value)))
              && forall u: nat | instant / MINUTE - MAX_SEARCH < u <= instant / MINUTE && Wanted(e, zone(u)) ::
                   result.Ok? && u <= result.value
  {
    hide Matches, Wanted, ExpressionInv;
    if ExpressionInv(e) && Weekdays(zone) {
      MatchesAreWanted(e, zone);
    }
    var candidate: nat := instant / MINUTE;
    for i := 0 to MAX_SEARCH
      invariant candidate == instant / MINUTE - i
      invariant NoMatch(e, zone, candidate + 1, instant / MINUTE + 1)
    {
      if Matches(e, zone, candidate) {
        return Ok(candidate);
      }
      if candidate == 0 {
        assert NoMatch(e, zone, 0, instant / MINUTE + 1);
        return Err(Exhausted);
      }
      candidate := candidate - 1;
    }
    result := Err(Exhausted);
  }

  // ---------------------------------------------------------------------
  // In UTC the window suffices, unless only 29 February can match
  // ---------------------------------------------------------------------

  /** The search from minute `t` succeeds. */
  ghost predicate MatchAfter(e: CronExpression, zone: Zone, t: nat) {
    !NoMatch(e, zone, t + 1, t + 1 + MAX_SEARCH)
  }

  lemma UtcMatches(e: CronExpression, n: nat, hour: nat, minute: nat)
    requires MatchesDay(e, n) && hour in e.hour.values && minute in e.minute.values && hour < 24 && minute < 60
    ensures Matches(e, UTC, n * 1440 + hour * 60 + minute)
  {
    hide DateOf, CronWeekday;
    var t := n * 1440 + hour * 60 + minute;
    assert t / 1440 == n;
    assert t % 60 == minute;
    assert t / 60 == n * 24 + hour;
    assert t / 60 % 24 == hour;
  }

  /** Any date of the next calendar year is less than two leap years away. */
  lemma NextYearIsNear(n: nat, d: Date)
    requires ValidDate(d) && d.year == DateOf(n).year + 1
    ensures n < DayNumber(d) < n + 732
  {
    hide DayNumber, DaysBeforeYear, DaysBeforeMonth, DateOf, IsLeap;
    var today := DateOf(n);
    DayNumberOfDate(n);
    DayNumbersOrdered(today, d);
    WithinYear(today);
    WithinYear(d);
    YearLength(today.year);
    YearLength(today.year + 1);
  }

  /** There is a match within the next two calendar years. */
  lemma SoonMatch(e: CronExpression, t: nat) returns (u: nat)
    requires ExpressionInv(e) && MatchesEveryYear(e)
    ensures t < u <= t + MAX_SEARCH && Matches(e, UTC, u)
  {
    hide DayNumber, DateOf, MatchesDay, MatchesEveryYear, Matches, ValidDate;
    var d := MatchInYear(e, DateOf(t / 1440).year + 1);
    NextYearIsNear(t / 1440, d);
    var hour :| hour in e.hour.values;
    var minute :| minute in e.minute.values;
    UtcMatches(e, DayNumber(d), hour, minute);
    u := DayNumber(d) * 1440 + hour * 60 + minute;
  }

  /** A leap year followed, four years later, by a century year that is not one, as 2096 is by 2100. */
  predicate BeforePlainCentury(year: nat) {
    year % 400 in {96, 196, 296}
  }

  /** From March of such a year there is no 29 February for almost eight years, longer than the window. */
  lemma LongGap(year: nat, n: nat)
    requires BeforePlainCentury(year)
    requires DayNumber(Date(year, 3, 1)) <= n <= DayNumber(Date(year, 3, 1)) + 5 * 366
    ensures !(DateOf(n).month == 2 && DateOf(n).day == 29)
  {
    hide DayNumber, DaysBeforeYear, DaysBeforeMonth, DateOf;
    var d := DateOf(n);
    DayNumberOfDate(n);
    if d.month == 2 && d.day == 29 {
      if d.year <= year {
        DayNumbersOrdered(d, Date(year, 3, 1));
      } else if year + 8 <= d.year {
        SevenYears(year);
        WithinYear(d);
        if year + 8 < d.year {
          YearsOrdered(year + 8, d.year);
        }
      } else {
        NotLeap(year, d.year);
      }
    }
  }

  lemma NotLeap(year: nat, later: nat)
    requires BeforePlainCentury(year) && year < later < year + 8
    ensures !IsLeap(later)
  {
    var k, r, j := year / 400, year % 400, later - year;
    if j == 4 {
      Mod400(k, r + 4);
      Mod100(4 * k + (r + 4) / 100);
    } else if j < 4 {
      Mod4(100 * k + r / 4, j);
    } else {
      Mod4(100 * k + r / 4 + 1, j - 4);
    }
  }

  lemma Mod4(q: nat, r: nat)
    requires r < 4
    ensures (4 * q + r) % 4 == r
  {
  }

  lemma Mod100(q: nat)
    ensures (100 * q) % 100 == 0
  {
  }

  lemma Mod400(q: nat, r: nat)
    requires r < 400
    ensures (400 * q + r) % 400 == r
  {
  }

  lemma SevenYears(year: nat)
    requires BeforePlainCentury(year)
    ensures DaysBeforeYear(year + 8) > DayNumber(Date(year, 3, 1)) + 5 * 366
  {
    hide DayNumber, DaysBeforeYear, DaysBeforeMonth, IsLeap;
    WithinYear(Date(year, 3, 1));
    AtLeast365(year + 1);
    AtLeast365(year + 2);
    AtLeast365(year + 3);
    AtLeast365(year + 4);
    AtLeast365(year + 5);
    AtLeast365(year + 6);
    AtLeast365(year + 7);
  }

  lemma AtLeast365(year: nat)
    requires 1 <= year
    ensures DaysBeforeYear(year) + 365 <= DaysBeforeYear(year + 1)
  {
    hide DaysBeforeMonth;
    YearLength(year);
    YearsOrdered(year, year + 1);
  }

  lemma OnlyLeapDays(e: CronExpression, n: nat)
    requires ExpressionInv(e) && !MatchesEveryYear(e) && MatchesDay(e, n)
    ensures DateOf(n).month == 2 && DateOf(n).day == 29
  {
    var d := DateOf(n);
    assert ValidDate(d) && d.day <= MaximumDay(d.month);
  }

  /** The first minute of 1 March 2096. */
  const MARCH_2096: nat := DayNumber(Date(2096, 3, 1)) * 1440

  /** The search for a 29 February fails from then on. */
  lemma LostFromMarch2096(e: CronExpression)
    requires ExpressionInv(e) && !MatchesEveryYear(e)
    ensures !MatchAfter(e, UTC, MARCH_2096)
  {
    hide MatchesEveryYear, ExpressionInv, Matches, DayNumber;
    forall u: nat | MARCH_2096 + 1 <= u < MARCH_2096 + 1 + MAX_SEARCH
      ensures !Matches(e, UTC, u)
    {
      if Matches(e, UTC, u) {
        MatchedDay(e, u);
        OnlyLeapDays(e, u / 1440);
        LongGap(2096, u / 1440);
      }
    }
  }

  /**
    In UTC, `next_after` succeeds from every instant exactly for expressions that can match some date other
    than 29 February; the others fail, for instance, from 1 March 2096 on.
   */
  lemma WindowSufficesExactlyWhen(e: CronExpression)
    requires ExpressionInv(e)
    ensures (forall t: nat :: MatchAfter(e, UTC, t)) <==> MatchesEveryYear(e)
  {
    hide MatchesEveryYear, ExpressionInv, Matches, MatchAfter, DayNumber;
    if MatchesEveryYear(e) {
      forall t: nat
        ensures MatchAfter(e, UTC, t)
      {
        AlwaysSoon(e, t);
      }
    } else {
      LostFromMarch2096(e);
    }
  }

  lemma AlwaysSoon(e: CronExpression, t: nat)
    requires ExpressionInv(e) && MatchesEveryYear(e)
    ensures MatchAfter(e, UTC, t)
  {
    hide MatchesEveryYear, ExpressionInv, Matches;
    var u := SoonMatch(e, t);
  }

  lemma MatchedDay(e: CronExpression, u: nat)
    requires Matches(e, UTC, u)
    ensures MatchesDay(e, u / 1440)
  {
    hide DateOf, CronWeekday;
  }

  // ---------------------------------------------------------------------
  // An expression that is accepted and lost
  // ---------------------------------------------------------------------

  /** Midnight of every 29 February. */
  const LEAP_DAYS := "0 0 29 2 *"

  function LeapDays(): CronExpression {
    CronExpression(CronField({0}, false), CronField({0}, false), CronField({29}, false), CronField({2}, false),
                   CronField({0, 1, 2, 3, 4, 5, 6}, true))
  }

  /** The parser accepts `0 0 29 2 *`, but the search for its next match fails from 1 March 2096. */
  lemma LeapDaysAreLost()
    ensures Denotes(LEAP_DAYS, LeapDays()) && Accepted(LEAP_DAYS) && CalendarPossible(LeapDays())
    ensures !MatchAfter(LeapDays(), UTC, MARCH_2096)
  {
    hide Words, SomeMalformed, Listed, Split, MatchAfter, Accepted, Denotes;
    var e := LeapDays();
    LeapDaysFields();
    assert CalendarPossible(e) by {
      assert 2 in e.month.values && 29 in e.dayOfMonth.values && 29 <= MaximumDay(2);
    }
    LeapDaysDenoted();
    FeasibleExactlyWhen(e);
    var n: nat :| MatchesDay(e, n);
    SurelyAccepted(LEAP_DAYS, e, n);
    LostFromMarch2096(e);
  }

  lemma SurelyAccepted(text: string, e: CronExpression, n: nat)
    requires |Words(text)| == 5 && !SomeFieldMalformed(Words(text)) && Denotes(text, e) && MatchesDay(e, n)
    ensures Accepted(text)
  {
  }

  lemma LeapDaysFields()
    ensures ExpressionInv(LeapDays()) && !MatchesEveryYear(LeapDays())
  {
    var e := LeapDays();
    assert 0 in e.minute.values && 0 in e.dayOfWeek.values && 29 in e.dayOfMonth.values && 2 in e.month.values;
    assert 1 !in e.minute.values && 1 !in e.hour.values && 1 !in e.dayOfMonth.values && 1 !in e.month.values;
  }

  lemma LeapDaysDenoted()
    ensures |Words(LEAP_DAYS)| == 5 && !SomeFieldMalformed(Words(LEAP_DAYS)) && Denotes(LEAP_DAYS, LeapDays())
  {
    hide Words, SomeMalformed, Listed, Split;
    LeapDayWords();
    OneNumber("0", MINUTES, 0);
    OneNumber("0", HOURS, 0);
    OneNumber("29", DAYS, 29);
    OneNumber("2", MONTHS, 2);
    AnyWeekday();
    LeapDaysFields();
  }

  /** A field that is one number lists that number. */
  lemma OneNumber(word: string, b: Bounds, n: nat)
    requires word != "" && word != "*" && ',' !in word && '/' !in word && '-' !in word && Integer(word) == Some(n)
    requires b.minimum <= n <= b.maximum && !b.sundayAlias
    ensures !SomeMalformed(Split(word, ','), b)
    ensures forall v :: Listed(Split(word, ','), b, v) <==> v == n
  {
    hide Integer;
    assert ParseItem(word, b) == Ok(Item(n, n, 1));
    assert Split(word, ',') == [word];
    OneListed(word, b, Item(n, n, 1));
    forall v
      ensures Selects(Item(n, n, 1), b, v) <==> v == n
    {
      Progression(Item(n, n, 1), b, v);
    }
  }

  lemma AnyWeekday()
    ensures !SomeMalformed(Split("*", ','), WEEKDAYS)
    ensures forall v :: Listed(Split("*", ','), WEEKDAYS, v) <==> v in {0, 1, 2, 3, 4, 5, 6}
  {
    assert ParseItem("*", WEEKDAYS) == Ok(Item(0, 6, 1));
    assert Split("*", ',') == ["*"];
    OneListed("*", WEEKDAYS, Item(0, 6, 1));
    forall v
      ensures Selects(Item(0, 6, 1), WEEKDAYS, v) <==> v in {0, 1, 2, 3, 4, 5, 6}
    {
      Progression(Item(0, 6, 1), WEEKDAYS, v);
    }
  }

  lemma OneListed(word: string, b: Bounds, item: Item)
    requires ParseItem(word, b) == Ok(item)
    ensures !SomeMalformed([word], b)
    ensures forall v :: Listed([word], b, v) <==> Selects(item, b, v)
  {
    hide ParseItem, Selects;
    forall v
      ensures Listed([word], b, v) <==> Selects(item, b, v)
    {
      assert [word][0] == word;
    }
  }

  /** With step one, an item selects its whole range. */
  lemma Progression(item: Item, b: Bounds, v: int)
    requires item.step == 1 && item.start <= item.end && (b.sundayAlias ==> 0 <= item.start && item.end <= 6)
    ensures Selects(item, b, v) <==> item.start <= v <= item.end
  {
    if item.start <= v <= item.end {
      NthPlain(item, v - item.start);
      assert v == Folded(Nth(item, v - item.start), b);
    }
    if n: nat :| Nth(item, n) <= item.end && v == Folded(Nth(item, n), b) {
      NthPlain(item, n);
    }
  }

  lemma {:induction false} NthPlain(item: Item, n: nat)
    requires item.step == 1
    ensures Nth(item, n) == item.start + n
  {
    if n > 0 {
      NthPlain(item, n - 1);
    }
  }

  lemma LeapDayWords()
    ensures Words(LEAP_DAYS) == ["0", "0", "29", "2", "*"]
  {
    hide Words;
    var a, b, c, d := "0 29 2 *", "29 2 *", "2 *", "*";
    assert LEAP_DAYS[2..] == a && a[2..] == b && b[3..] == c && c[2..] == d;
    assert LEAP_DAYS[..1] == "0" && a[..1] == "0" && b[..2] == "29" && c[..1] == "2" && d[..1] == "*";
    FirstWord(d, 1);
    FirstWord(c, 1);
    FirstWord(b, 2);
    FirstWord(a, 1);
    FirstWord(LEAP_DAYS, 1);
  }

  // ---------------------------------------------------------------------
  // Either day field
  // ---------------------------------------------------------------------

  const FEBRUARY_2024: nat := DayNumber(Date(2024, 2, 12))

  /** `0 0 13 * 5`: midnight of every 13th and of every Friday. */
  function ThirteenthsAndFridays(): CronExpression {
    CronExpression(CronField({0}, false), CronField({0}, false), CronField({13}, false),
                   CronField({1, 2, 3, 4, 5, 6, 7, 8, 9, 10, 11, 12}, true), CronField({5}, false))
  }

  /** From noon on Monday, 12 February 2024, its next match is the midnight before Tuesday the 13th. */
  lemma TuesdayThe13th()
    ensures var noon := FEBRUARY_2024 * 1440 + 720;
            && UTC(noon).weekday == 1
            && Matches(ThirteenthsAndFridays(), UTC, noon + 720)
            && NoMatch(ThirteenthsAndFridays(), UTC, noon + 1, noon + 720)
  {
    hide DayNumber, DateOf;
    var e, n := ThirteenthsAndFridays(), FEBRUARY_2024;
    February2024();
    forall t: nat | n * 1440 + 721 <= t < n * 1440 + 1440
      ensures !Matches(e, UTC, t)
    {
      assert t / 1440 == n;
      assert t / 60 % 24 != 0;
    }
    var t := n * 1440 + 1440;
    assert t / 1440 == n + 1 && t % 60 == 0 && t / 60 % 24 == 0;
    assert (n * 1440 + 720) / 1440 == n;
  }

  lemma February2024()
    ensures DateOf(FEBRUARY_2024) == Date(2024, 2, 12) && DateOf(FEBRUARY_2024 + 1) == Date(2024, 2, 13)
    ensures CronWeekday(FEBRUARY_2024) == 1
  {
    hide DayNumber, DateOf, DaysBeforeYear;
    DateOfDayNumber(Date(2024, 2, 12));
    DateOfDayNumber(Date(2024, 2, 13));
    DayInYear();
    DaysBeforeYearClosed(2024);
  }

  lemma DayInYear()
    ensures DayNumber(Date(2024, 2, 12)) == DaysBeforeYear(2024) + 42
    ensures DayNumber(Date(2024, 2, 13)) == DaysBeforeYear(2024) + 43
  {
    hide DaysBeforeYear;
    assert DaysBeforeMonth(2024, 1) == 0;
    assert DaysBeforeMonth(2024, 2) == 31;
  }
}
