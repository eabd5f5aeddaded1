/**
 * The proleptic Gregorian calendar as Python's datetime module computes it: day ordinals
 * (date.toordinal), weekdays (date.weekday, Monday = 0), adding days (date + timedelta) and
 * the ISO 8601 week date (date.isocalendar), whose week 1 is the Monday-to-Sunday week that
 * holds the year's first Thursday.
 */
module Calendar {

  /** A calendar date; ValidDate says when it names a real day. */
  datatype Date = Date(year: int, month: int, day: int)

  predicate IsLeapYear(y: int) {
    y % 4 == 0 && (y % 100 != 0 || y % 400 == 0)
  }

  function DaysInYear(y: int): int {
    if IsLeapYear(y) then 366 else 365
  }

  /** Length of month m of year y. */
  function DaysInMonth(y: int, m: int): (n: int)
    requires 1 <= m <= 12
    ensures 28 <= n <= 31
    ensures n == 29 <==> m == 2 && IsLeapYear(y)
  {
    if m == 2 then (if IsLeapYear(y) then 29 else 28)
    else if m == 4 || m == 6 || m == 9 || m == 11 then 30
    else 31
  }

  /** Days from year 1 onwards: Python's date range starts at 0001-01-01. */
  predicate ValidDate(d: Date) {
    1 <= d.year && 1 <= d.month <= 12 && 1 <= d.day <= DaysInMonth(d.year, d.month)
  }

  /** Days in the months of year y before month m (Python's _days_before_month). */
  function DaysBeforeMonth(y: int, m: int): (n: int)
    requires 1 <= m <= 12
    ensures n + DaysInMonth(y, m) <= DaysInYear(y)
    ensures m == 12 ==> n + DaysInMonth(y, m) == DaysInYear(y)
  {
    var table := [0, 31, 59, 90, 120, 151, 181, 212, 243, 273, 304, 334];
    table[m - 1] + (if m > 2 && IsLeapYear(y) then 1 else 0)
  }

  /** Consecutive months follow each other without gap. */
  lemma MonthStep(y: int, m: int)
    requires 1 <= m < 12
    ensures DaysBeforeMonth(y, m + 1) == DaysBeforeMonth(y, m) + DaysInMonth(y, m)
  {
  }

  /** Days in the years before year y (Python's _days_before_year). */
  function DaysBeforeYear(y: int): int {
    var n := y - 1;
    n * 365 + n / 4 - n / 100 + n / 400
  }

  /** Each year adds its own length to the count of days before it. */
  lemma YearStep(y: int)
    ensures DaysBeforeYear(y + 1) == DaysBeforeYear(y) + DaysInYear(y)
  {
    var fours := DivisorStep(y, 4);
    var hundreds := DivisorStep(y, 100);
    var fourHundreds := DivisorStep(y, 400);
    if y % 400 == 0 {
      HundredsOfFourHundreds(y);
    }
    if y % 100 == 0 {
      FoursOfHundreds(y);
    }
    assert DaysInYear(y) == 365 + fours - hundreds + fourHundreds;
    assert DaysBeforeYear(y + 1) == DaysBeforeYear(y) + 365 + fours - hundreds + fourHundreds;
  }

  /** A multiple of 400 is a multiple of 100. */
  lemma HundredsOfFourHundreds(y: int)
    requires y % 400 == 0
    ensures y % 100 == 0
  {
    var q := y / 400;
    assert y == 100 * (4 * q);
  }

  /** A multiple of 100 is a multiple of 4. */
  lemma FoursOfHundreds(y: int)
    requires y % 100 == 0
    ensures y % 4 == 0
  {
    var q := y / 100;
    assert y == 4 * (25 * q);
  }

  /** How y / k moves on from (y - 1) / k: by one exactly when k divides y. */
  lemma DivisorStep(y: int, k: int) returns (step: int)
    requires k in {4, 100, 400}
    ensures y / k == (y - 1) / k + step
    ensures step == if y % k == 0 then 1 else 0
  {
    step := y / k - (y - 1) / k;
    if k == 4 {
      assert step == if y % 4 == 0 then 1 else 0;
    } else if k == 100 {
      assert step == if y % 100 == 0 then 1 else 0;
    } else {
      assert step == if y % 400 == 0 then 1 else 0;
    }
  }

  /** Python's date.toordinal(): 0001-01-01 is day 1. */
  function Ordinal(d: Date): int
    requires 1 <= d.month <= 12
  {
    DaysBeforeYear(d.year) + DaysBeforeMonth(d.year, d.month) + d.day
  }

  /** Weekday of a day ordinal, Monday = 0 to Sunday = 6 (Python's date.weekday()). */
  function WeekdayOf(ord: int): (w: int)
    ensures 0 <= w < 7
  {
    (ord + 6) % 7
  }

  function Weekday(d: Date): (w: int)
    requires ValidDate(d)
    ensures 0 <= w < 7
  {
    WeekdayOf(Ordinal(d))
  }

  /** Moving k days on moves the weekday k steps round the week. */
  lemma WeekdayShift(a: int, k: int)
    ensures WeekdayOf(a + k) == (WeekdayOf(a) + k) % 7
  {
  }

  /** Ordinal of the Monday that starts the Monday-to-Sunday week holding ord. */
  function MondayOf(ord: int): (m: int)
    ensures WeekdayOf(m) == 0 && m <= ord < m + 7
  {
    ord - WeekdayOf(ord)
  }

  /** The day after d. */
  function NextDay(d: Date): (e: Date)
    requires ValidDate(d)
    ensures ValidDate(e) && Ordinal(e) == Ordinal(d) + 1
  {
    if d.day < DaysInMonth(d.year, d.month) then Date(d.year, d.month, d.day + 1)
    else if d.month < 12 then
      MonthStep(d.year, d.month);
      Date(d.year, d.month + 1, 1)
    else
      YearStep(d.year);
      Date(d.year + 1, 1, 1)
  }

  /** Python's d + timedelta(days=k) for k >= 0. */
  function AddDays(d: Date, k: nat): (e: Date)
    requires ValidDate(d)
    ensures ValidDate(e) && Ordinal(e) == Ordinal(d) + k
    decreases k
  {
    if k == 0 then d else AddDays(NextDay(d), k - 1)
  }

  /** Ordinal of January 1st of year y. */
  function NewYear(y: int): int {
    DaysBeforeYear(y) + 1
  }

  /**
   * The Monday of the week holding the day `first` when that day is Monday to Thursday,
   * otherwise the Monday after it.
   */
  function FirstWeekMonday(first: int): (m: int)
    ensures WeekdayOf(m) == 0
    ensures first - 3 <= m <= first + 3
    ensures WeekdayOf(m + 3) == 3 && first <= m + 3 <= first + 6
  {
    var firstWeekday := WeekdayOf(first);
    var monday := first - firstWeekday;
    assert WeekdayOf(monday) == 0 by { WeekdayShift(first, -firstWeekday); }
    var m := if firstWeekday > 3 then monday + 7 else monday;
    assert WeekdayOf(m) == 0 by { WeekdayShift(monday, 7); }
    assert WeekdayOf(m + 3) == 3 by { WeekdayShift(m, 3); }
    m
  }

  /** Ordinal of the Monday of ISO week 1 of year y (Python's _isoweek1monday). */
  function Week1Monday(y: int): (m: int)
    ensures WeekdayOf(m) == 0
    ensures NewYear(y) - 3 <= m <= NewYear(y) + 3
  {
    FirstWeekMonday(NewYear(y))
  }

  /**
   * ISO 8601 week 1: Week1Monday(y) is a Monday and the Thursday three days later is the first
   * Thursday of year y (one of its first seven days).
   */
  lemma Week1HoldsFirstThursday(y: int)
    ensures WeekdayOf(Week1Monday(y)) == 0
    ensures WeekdayOf(Week1Monday(y) + 3) == 3
    ensures NewYear(y) <= Week1Monday(y) + 3 <= NewYear(y) + 6
  {
  }

  /** Two Mondays are a whole number of weeks apart. */
  lemma MondaysWeeksApart(a: int, b: int) returns (weeks: int)
    requires WeekdayOf(a) == 0 && WeekdayOf(b) == 0
    ensures b - a == 7 * weeks
  {
    var qa := (a + 6) / 7;
    var qb := (b + 6) / 7;
    assert a + 6 == 7 * qa;
    assert b + 6 == 7 * qb;
    weeks := qb - qa;
  }

  /** January 1st moves forward from year to year. */
  lemma {:induction false} NewYearMonotone(a: int, b: int)
    requires a <= b
    ensures NewYear(a) + 365 * (b - a) <= NewYear(b)
    decreases b - a
  {
    if a < b {
      NewYearMonotone(a + 1, b);
      YearStep(a);
    }
  }

  /** January 1st of a later year is at least a year after the end of an earlier one. */
  lemma YearsApart(a: int, b: int)
    ensures a < b ==> NewYear(a + 1) <= NewYear(b) && NewYear(a) + 365 <= NewYear(b)
  {
    if a < b {
      NewYearMonotone(a + 1, b);
      YearStep(a);
    }
  }

  /** The calendar year holding day t, for a t at most a week outside year y. */
  function YearAround(t: int, y: int): (r: int)
    requires NewYear(y) - 7 <= t < NewYear(y + 1) + 7
    ensures NewYear(r) <= t < NewYear(r + 1)
    ensures y - 1 <= r <= y + 1
  {
    YearStep(y - 1);
    YearStep(y + 1);
    if t < NewYear(y) then y - 1 else if t < NewYear(y + 1) then y else y + 1
  }

  /** A date in the ISO week-numbering scheme: ISO year, week 1 to 53, weekday 1 (Monday) to 7. */
  datatype IsoDate = IsoDate(isoYear: int, week: int, weekday: int)

  /**
   * The ISO 8601 date of the day with ordinal `today` in calendar year y. Weeks run Monday to
   * Sunday, a week belongs to the year that holds its Thursday, and the weeks of an ISO year
   * are numbered from 1.
   */
  function IsoOfOrdinal(today: int, y: int): (c: IsoDate)
    requires NewYear(y) <= today < NewYear(y + 1)
    ensures 1 <= c.week <= 53 && 1 <= c.weekday <= 7
    ensures c.weekday == WeekdayOf(today) + 1
    ensures y - 1 <= c.isoYear <= y + 1
  {
    var thursday := MondayOf(today) + 3;
    var isoYear := YearAround(thursday, y);
    YearStep(isoYear);
    IsoDate(isoYear, (thursday - NewYear(isoYear)) / 7 + 1, WeekdayOf(today) + 1)
  }

  /**
   * The ISO week found by the Thursday rule is the one Python's date.isocalendar() finds: it
   * is counted in whole weeks from the Monday of week 1 (_isoweek1monday) of the ISO year.
   */
  lemma IsoWeekCountsFromWeek1Monday(today: int, y: int)
    requires NewYear(y) <= today < NewYear(y + 1)
    ensures var c := IsoOfOrdinal(today, y);
      MondayOf(today) == Week1Monday(c.isoYear) + 7 * (c.week - 1)
  {
    var c := IsoOfOrdinal(today, y);
    var first := Week1Monday(c.isoYear);
    Week1HoldsFirstThursday(c.isoYear);
    var q := MondaysWeeksApart(first, MondayOf(today));
    QuotientBySeven(MondayOf(today) + 3 - NewYear(c.isoYear), q, first + 3 - NewYear(c.isoYear));
  }

  /** Euclidean division by 7: x == 7 * q + r with 0 <= r < 7 fixes the quotient. */
  lemma QuotientBySeven(x: int, q: int, r: int)
    requires x == 7 * q + r && 0 <= r < 7
    ensures x / 7 == q
  {
  }

  /**
   * The ISO year and week of a day as plain numbers: the Thursday of the day's week lies in
   * the ISO year, `offset` days past a whole number of weeks from its January 1st.
   */
  lemma IsoPlace(today: int, y: int) returns (isoYear: int, week: int, offset: int)
    requires NewYear(y) <= today < NewYear(y + 1)
    ensures week == IsoOfOrdinal(today, y).week
    ensures NewYear(isoYear) <= MondayOf(today) + 3 < NewYear(isoYear + 1)
    ensures MondayOf(today) + 3 == NewYear(isoYear) + 7 * (week - 1) + offset && 0 <= offset < 7
  {
    var c := IsoOfOrdinal(today, y);
    isoYear, week := c.isoYear, c.week;
    offset := (MondayOf(today) + 3 - NewYear(isoYear)) % 7;
  }

  /**
   * Week numbers w1, w2 of two Thursdays t1, t2 that are a whole number of weeks and less than
   * a year apart, each counted from January 1st (n1, n2) of the year holding it: equal numbers
   * mean the same Thursday.
   */
  lemma WeekNumbersNearby(t1: int, n1: int, w1: int, r1: int, t2: int, n2: int, w2: int, r2: int, weeks: int)
    requires t1 == n1 + 7 * (w1 - 1) + r1 && 0 <= r1 < 7 && 1 <= w1
    requires t2 == n2 + 7 * (w2 - 1) + r2 && 0 <= r2 < 7 && 1 <= w2
    requires n1 == n2 || (n1 + 365 <= n2 && t1 < n2) || (n2 + 365 <= n1 && t2 < n1)
    requires t1 - t2 == 7 * weeks && -306 <= t1 - t2 <= 306
    ensures w1 == w2 <==> t1 == t2
  {
  }

  /** For days less than a year apart, equal ISO week numbers mean the same Monday. */
  lemma SameWeekNumberIffSameMonday(o1: int, y1: int, o2: int, y2: int)
    requires NewYear(y1) <= o1 < NewYear(y1 + 1)
    requires NewYear(y2) <= o2 < NewYear(y2 + 1)
    requires -300 <= o1 - o2 <= 300
    ensures IsoOfOrdinal(o1, y1).week == IsoOfOrdinal(o2, y2).week <==> MondayOf(o1) == MondayOf(o2)
  {
    var i1, w1, r1 := IsoPlace(o1, y1);
    var i2, w2, r2 := IsoPlace(o2, y2);
    SameWeekNumberIffSameThursday(o1, i1, w1, r1, o2, i2, w2, r2);
  }

  /** The same, for days placed by IsoPlace in ISO years i1, i2 with week numbers w1, w2. */
  lemma SameWeekNumberIffSameThursday(o1: int, i1: int, w1: int, r1: int, o2: int, i2: int, w2: int, r2: int)
    requires NewYear(i1) <= MondayOf(o1) + 3 < NewYear(i1 + 1)
    requires MondayOf(o1) + 3 == NewYear(i1) + 7 * (w1 - 1) + r1 && 0 <= r1 < 7
    requires NewYear(i2) <= MondayOf(o2) + 3 < NewYear(i2 + 1)
    requires MondayOf(o2) + 3 == NewYear(i2) + 7 * (w2 - 1) + r2 && 0 <= r2 < 7
    requires -300 <= o1 - o2 <= 300
    ensures w1 == w2 <==> MondayOf(o1) == MondayOf(o2)
  {
    var m1, m2 := MondayOf(o1), MondayOf(o2);
    var weeks := MondaysWeeksApart(m2, m1);
    var n1, n2 := NewYear(i1), NewYear(i2);
    YearsApart(i1, i2);
    YearsApart(i2, i1);
    WeekNumbersNearby(m1 + 3, n1, w1, r1, m2 + 3, n2, w2, r2, weeks);
  }

  /**
   * ISO 8601 calendar date of d, as Python's date.isocalendar() and pandas'
   * Series.dt.isocalendar() give it.
   */
  function IsoCalendar(d: Date): (c: IsoDate)
    requires ValidDate(d)
    ensures 1 <= c.week <= 53 && 1 <= c.weekday <= 7
    ensures c.weekday == Weekday(d) + 1
    ensures d.year - 1 <= c.isoYear <= d.year + 1
  {
    WithinYear(d);
    IsoOfOrdinal(Ordinal(d), d.year)
  }

  /** The ISO week number alone, as isocalendar().week and isocalendar()[1] give it. */
  function IsoWeek(d: Date): (w: int)
    requires ValidDate(d)
    ensures 1 <= w <= 53
  {
    IsoCalendar(d).week
  }

  /** A date's ordinal lies between the new year of its year and that of the next. */
  lemma WithinYear(d: Date)
    requires ValidDate(d)
    ensures NewYear(d.year) <= Ordinal(d) < NewYear(d.year + 1)
  {
    YearStep(d.year);
  }

  /**
   * For dates less than a year apart, equal ISO week numbers mean the same Monday-to-Sunday
   * week, and conversely.
   */
  lemma SameWeekNumberIffSameWeek(d1: Date, d2: Date)
    requires ValidDate(d1) && ValidDate(d2)
    requires -300 <= Ordinal(d1) - Ordinal(d2) <= 300
    ensures IsoWeek(d1) == IsoWeek(d2) <==> MondayOf(Ordinal(d1)) == MondayOf(Ordinal(d2))
  {
    WithinYear(d1);
    WithinYear(d2);
    SameWeekNumberIffSameMonday(Ordinal(d1), d1.year, Ordinal(d2), d2.year);
  }

  /**
   * Fixed points against Python's datetime: 2025-08-30 is a Saturday, 2025-09-01 is the Monday
   * of ISO week 36, and 2021-01-01 is the Friday of week 53 of ISO year 2020.
   */
  lemma KnownDates()
    ensures Weekday(Date(2025, 8, 30)) == 5
    ensures Weekday(Date(2025, 9, 1)) == 0 && IsoWeek(Date(2025, 9, 1)) == 36
    ensures IsoCalendar(Date(2021, 1, 1)) == IsoDate(2020, 53, 5)
  {
    assert DaysBeforeYear(2025) == 739251;
    assert Ordinal(Date(2025, 9, 1)) == 739495;
    assert YearAround(739498, 2025) == 2025;
    assert DaysBeforeYear(2021) == 737790 && DaysBeforeYear(2020) == 737424;
    assert Ordinal(Date(2021, 1, 1)) == 737791;
    assert YearAround(737790, 2021) == 2020;
  }
}
