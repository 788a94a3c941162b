/** Civil timestamps as stored in the trip files (no time zone, whole seconds),
    and the quantities the analytics derive from them: the instant in seconds,
    the difference of two instants, the day of the week and the calendar month. */
module Calendar {

  datatype Civil = Civil(year: int, month: int, day: int, hour: int, minute: int, second: int)

  /** Gregorian leap-year rule. */
  predicate IsLeapYear(y: int) {
    y % 4 == 0 && (y % 100 != 0 || y % 400 == 0)
  }

  function DaysInMonth(y: int, m: int): (n: int)
    requires 1 <= m <= 12
    ensures 28 <= n <= 31
    ensures n == 29 <==> m == 2 && IsLeapYear(y)
  {
    if m == 2 then (if IsLeapYear(y) then 29 else 28)
    else if m == 4 || m == 6 || m == 9 || m == 11 then 30
    else 31
  }

  predicate ValidCivil(c: Civil) {
    && 1 <= c.month <= 12
    && 1 <= c.day <= DaysInMonth(c.year, c.month)
    && 0 <= c.hour < 24
    && 0 <= c.minute < 60
    && 0 <= c.second < 60
  }

  /** A timestamp column value: every such value is a valid civil date and time. */
  type DateTime = c: Civil | ValidCivil(c) witness Civil(1970, 1, 1, 0, 0, 0)

  /** Number of days from 1970-01-01 to the given proleptic Gregorian date.
      Years are shifted to start in March so that the leap day ends a year;
      Dafny's `/` and `%` already round toward negative infinity for a positive divisor. */
  function DaysFromCivil(y: int, m: int, d: int): int
    requires 1 <= m <= 12
  {
    var y' := if m <= 2 then y - 1 else y;
    var era := y' / 400;
    var yoe := y' % 400;
    var mp := if m > 2 then m - 3 else m + 9;
    var doy := (153 * mp + 2) / 5 + d - 1;
    var doe := yoe * 365 + yoe / 4 - yoe / 100 + doy;
    era * 146097 + doe - 719468
  }

  function EpochSeconds(t: DateTime): int {
    DaysFromCivil(t.year, t.month, t.day) * 86400 + t.hour * 3600 + t.minute * 60 + t.second
  }

  /** `date_diff('second', a, b)`: seconds elapsed from `a` to `b` (negative when `b` is earlier). */
  function SecondsBetween(a: DateTime, b: DateTime): int {
    EpochSeconds(b) - EpochSeconds(a)
  }

  /** Timestamp comparison `t >= u`. */
  predicate OnOrAfter(t: DateTime, u: DateTime) {
    EpochSeconds(t) >= EpochSeconds(u)
  }

  /** `dayofweek(t)`: Sunday is 0 and Saturday is 6; 1970-01-01 was a Thursday. */
  function DayOfWeek(t: DateTime): (r: int)
    ensures 0 <= r < 7
  {
    (DaysFromCivil(t.year, t.month, t.day) + 4) % 7
  }

  /** Months counted from year 0: the grouping key of `GROUP BY year, month`. */
  function MonthIndex(t: DateTime): int {
    t.year * 12 + (t.month - 1)
  }

  /** The timestamp one second later, stepped on the civil calendar. */
  function NextSecond(t: DateTime): (u: DateTime) {
    if t.second < 59 then t.(second := t.second + 1)
    else if t.minute < 59 then t.(minute := t.minute + 1, second := 0)
    else if t.hour < 23 then t.(hour := t.hour + 1, minute := 0, second := 0)
    else if t.day < DaysInMonth(t.year, t.month) then
      Civil(t.year, t.month, t.day + 1, 0, 0, 0)
    else if t.month < 12 then Civil(t.year, t.month + 1, 1, 0, 0, 0)
    else Civil(t.year + 1, 1, 1, 0, 0, 0)
  }

  /** Day number (plus 719468) of 1 March of the shifted year `y'`. */
  function ShiftedYearStart(y': int): int {
    var yoe := y' % 400;
    (y' / 400) * 146097 + yoe * 365 + yoe / 4 - yoe / 100
  }

  /** A shifted year (March to February) has 366 days exactly when its February is a leap February. */
  lemma ShiftedYearLength(p: int)
    ensures ShiftedYearStart(p + 1) == ShiftedYearStart(p) + 365 + (if IsLeapYear(p + 1) then 1 else 0)
  {
    var e, q := p / 400, p % 400;
    if q == 399 {
      EraStep(p);
    } else {
      WithinEra(p);
      LeapDaysStep(q);
      assert (p + 1) % 4 == (q + 1) % 4 && (p + 1) % 100 == (q + 1) % 100;
    }
  }

  /** The last year of a 400-year era is followed by the first year of the next era. */
  lemma EraStep(p: int)
    requires p % 400 == 399
    ensures (p + 1) / 400 == p / 400 + 1 && (p + 1) % 400 == 0
    ensures IsLeapYear(p + 1)
  {
    assert p == 400 * (p / 400) + 399;
    assert p + 1 == 400 * (p / 400 + 1);
  }

  /** Inside an era the year of the era goes up by one. */
  lemma WithinEra(p: int)
    requires p % 400 != 399
    ensures (p + 1) / 400 == p / 400 && (p + 1) % 400 == p % 400 + 1
    ensures (p + 1) % 4 == (p % 400 + 1) % 4 && (p + 1) % 100 == (p % 400 + 1) % 100
  {
    var e, q := p / 400, p % 400;
    assert p + 1 == 400 * e + (q + 1);
    EraRemainders(e, q + 1);
  }

  /** Whole eras leave the remainders by 400, 100 and 4 of a year of the era unchanged. */
  lemma EraRemainders(e: int, r: int)
    requires 0 <= r < 400
    ensures (400 * e + r) / 400 == e && (400 * e + r) % 400 == r
    ensures (400 * e + r) % 4 == r % 4 && (400 * e + r) % 100 == r % 100
  {
    assert 400 * e + r == 4 * (100 * e + r / 4) + r % 4;
    assert 400 * e + r == 100 * (4 * e + r / 100) + r % 100;
  }

  /** The leap-day count `q/4 - q/100` of the era grows by one from year `q` to `q + 1`
      exactly when `q + 1` is a leap year of the era. */
  lemma LeapDaysStep(q: int)
    requires 0 <= q < 399
    ensures (q + 1) / 4 - q / 4 == (if (q + 1) % 4 == 0 then 1 else 0)
    ensures (q + 1) / 100 - q / 100 == (if (q + 1) % 100 == 0 then 1 else 0)
    ensures (q + 1) % 100 == 0 ==> (q + 1) % 4 == 0
  {
  }

  /** The last day of February and the first of March are consecutive day numbers:
      the one place where the shifted year of `DaysFromCivil` changes. */
  lemma MarchFollowsFebruary(y: int)
    ensures DaysFromCivil(y, 3, 1) == DaysFromCivil(y, 2, DaysInMonth(y, 2)) + 1
  {
    assert DaysFromCivil(y, 3, 1) == ShiftedYearStart(y) - 719468;
    assert DaysFromCivil(y, 2, DaysInMonth(y, 2)) == ShiftedYearStart(y - 1) + 336 + DaysInMonth(y, 2) - 719468;
    ShiftedYearLength(y - 1);
  }

  /** The first day of each month directly follows the last day of the month before. */
  lemma NextMonthFollows(y: int, m: int)
    requires 1 <= m < 12
    ensures DaysFromCivil(y, m + 1, 1) == DaysFromCivil(y, m, DaysInMonth(y, m)) + 1
  {
    if m == 2 {
      MarchFollowsFebruary(y);
    }
  }

  /** New Year's Day directly follows 31 December. */
  lemma NextYearFollows(y: int)
    ensures DaysFromCivil(y + 1, 1, 1) == DaysFromCivil(y, 12, 31) + 1
  {
  }

  /** The instant numbering agrees with the civil calendar: stepping one second on the
      calendar (across minute, hour, day, month and year boundaries, leap days included)
      advances the epoch-second count by exactly one. */
  lemma EpochSecondsStepsByOne(t: DateTime)
    ensures EpochSeconds(NextSecond(t)) == EpochSeconds(t) + 1
  {
    var u := NextSecond(t);
    var d, d' := DaysFromCivil(t.year, t.month, t.day), DaysFromCivil(u.year, u.month, u.day);
    if t.second == 59 && t.minute == 59 && t.hour == 23 {
      NextDayFollows(t);
      assert d' == d + 1 && u.hour == 0 && u.minute == 0 && u.second == 0;
    } else {
      assert u.year == t.year && u.month == t.month && u.day == t.day;
    }
  }

  /** After 23:59:59 comes midnight of the next day number. */
  lemma NextDayFollows(t: DateTime)
    requires t.second == 59 && t.minute == 59 && t.hour == 23
    ensures var u := NextSecond(t);
      && u.hour == 0 && u.minute == 0 && u.second == 0
      && DaysFromCivil(u.year, u.month, u.day) == DaysFromCivil(t.year, t.month, t.day) + 1
  {
    if t.day < DaysInMonth(t.year, t.month) {
      SameMonthNextDay(t.year, t.month, t.day);
    } else if t.month < 12 {
      NextMonthFollows(t.year, t.month);
    } else {
      NextYearFollows(t.year);
    }
  }

  lemma SameMonthNextDay(y: int, m: int, d: int)
    requires 1 <= m <= 12
    ensures DaysFromCivil(y, m, d + 1) == DaysFromCivil(y, m, d) + 1
  {
  }

  /** Fixed points of the calendar used by the analytics. */
  lemma CalendarAnchors()
    ensures DaysFromCivil(1970, 1, 1) == 0
    ensures DayOfWeek(Civil(2025, 1, 5, 0, 0, 0)) == 0
    ensures DayOfWeek(Civil(2024, 2, 29, 12, 0, 0)) == 4
  {
    assert DaysFromCivil(2025, 1, 5) == 20093 by {
      assert 2024 / 400 == 5 && 2024 % 400 == 24;
    }
    assert DaysFromCivil(2024, 2, 29) == 19782 by {
      assert 2023 / 400 == 5 && 2023 % 400 == 23;
    }
  }
}
