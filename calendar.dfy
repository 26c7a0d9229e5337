/**
 * Integer calendar arithmetic behind the time dimension: days counted from
 * 1970-01-01 (the day index of a naive-UTC instant), the proleptic Gregorian
 * civil date of a day index, the weekday (Monday = 0), and the ISO 8601 week
 * calendar (section 3.2.2 of ISO 8601:2004: week 1 of a year is the week,
 * Monday to Sunday, that holds the year's first Thursday, equivalently its
 * January 4).
 *
 * Every function here is total on `int`: negative day indices are dates
 * before 1970 and years need not be positive (astronomical numbering).
 */
module Calendar {

  const MillisPerHour: int := 3_600_000
  const MillisPerDay: int := 86_400_000

  /** Days from 0001-01-01 to 1970-01-01 in the proleptic Gregorian calendar. */
  const EpochOffset: int := 719_162

  /** Lengths of the Gregorian cycles, in days. */
  const DaysPer400Years: int := 146_097
  const DaysPer100Years: int := 36_524
  const DaysPer4Years: int := 1_461

  datatype Date = Date(year: int, month: int, day: int)

  /** A year and a zero-based day within it. */
  datatype YearDay = YearDay(year: int, dayOfYear: int)

  /** An ISO 8601 week date without its weekday: the week-numbering year and the week number. */
  datatype IsoWeekDate = IsoWeekDate(isoYear: int, week: int)

  predicate IsLeapYear(y: int) {
    y % 4 == 0 && (y % 100 != 0 || y % 400 == 0)
  }

  function DaysInYear(y: int): int {
    if IsLeapYear(y) then 366 else 365
  }

  function DaysInMonth(y: int, m: int): int
    requires 1 <= m <= 12
  {
    if m == 2 then (if IsLeapYear(y) then 29 else 28)
    else if m == 4 || m == 6 || m == 9 || m == 11 then 30
    else 31
  }

  /** The number of days of year y that lie before the first of month m. */
  function DaysBeforeMonth(y: int, m: int): int
    requires 1 <= m <= 12
  {
    var common :=
      if m == 1 then 0 else if m == 2 then 31 else if m == 3 then 59
      else if m == 4 then 90 else if m == 5 then 120 else if m == 6 then 151
      else if m == 7 then 181 else if m == 8 then 212 else if m == 9 then 243
      else if m == 10 then 273 else if m == 11 then 304 else 334;
    common + (if m > 2 && IsLeapYear(y) then 1 else 0)
  }

  predicate ValidDate(d: Date) {
    1 <= d.month <= 12 && 1 <= d.day <= DaysInMonth(d.year, d.month)
  }

  /** Day index of January 1 of year y: 365 days a year plus one per leap year before y. */
  function DaysBeforeYear(y: int): int {
    var p := y - 1;
    365 * p + p / 4 - p / 100 + p / 400 - EpochOffset
  }

  /** Day index of a civil date. */
  function DaysFromCivil(d: Date): int
    requires ValidDate(d)
  {
    DaysBeforeYear(d.year) + DaysBeforeMonth(d.year, d.month) + d.day - 1
  }

  /**
   * The whole 400-year, 100-year, 4-year and 1-year cycles that fit between
   * 0001-01-01 and a day, and the zero-based day of year left over.
   */
  datatype Cycles = Cycles(quadCenturies: int, centuries: int, quadYears: int, years: int, dayOfYear: int)

  /**
   * Splits a day index into cycles counted from 0001-01-01: the last century
   * of a 400-year cycle and the last year of a 4-year group absorb the extra
   * leap day, so at most 3 centuries and at most 3 single years are peeled off.
   */
  function CycleSplit(n: int): Cycles {
    var n0 := n + EpochOffset;
    var q400 := n0 / DaysPer400Years;
    var r400 := n0 % DaysPer400Years;
    var c := if r400 / DaysPer100Years > 3 then 3 else r400 / DaysPer100Years;
    var r100 := r400 - DaysPer100Years * c;
    var q4 := r100 / DaysPer4Years;
    var r4 := r100 % DaysPer4Years;
    var q1 := if r4 / 365 > 3 then 3 else r4 / 365;
    Cycles(q400, c, q4, q1, r4 - 365 * q1)
  }

  /** Splits a day index into its year and the zero-based day of that year. */
  function YearAndDayOfYear(n: int): YearDay {
    var k := CycleSplit(n);
    YearDay(400 * k.quadCenturies + 100 * k.centuries + 4 * k.quadYears + k.years + 1, k.dayOfYear)
  }

  /** The month that holds the zero-based day d of year y. */
  function MonthOfDay(y: int, d: int): (m: int)
    ensures 1 <= m <= 12
    ensures 0 <= d < DaysInYear(y) ==>
              DaysBeforeMonth(y, m) <= d < DaysBeforeMonth(y, m) + DaysInMonth(y, m)
  {
    if d < DaysBeforeMonth(y, 2) then 1
    else if d < DaysBeforeMonth(y, 3) then 2
    else if d < DaysBeforeMonth(y, 4) then 3
    else if d < DaysBeforeMonth(y, 5) then 4
    else if d < DaysBeforeMonth(y, 6) then 5
    else if d < DaysBeforeMonth(y, 7) then 6
    else if d < DaysBeforeMonth(y, 8) then 7
    else if d < DaysBeforeMonth(y, 9) then 8
    else if d < DaysBeforeMonth(y, 10) then 9
    else if d < DaysBeforeMonth(y, 11) then 10
    else if d < DaysBeforeMonth(y, 12) then 11
    else 12
  }

  /** The civil date of a day index. */
  function CivilFromDays(n: int): Date {
    var YearDay(y, d) := YearAndDayOfYear(n);
    var m := MonthOfDay(y, d);
    Date(y, m, d - DaysBeforeMonth(y, m) + 1)
  }

  /** Weekday of a day index, Monday = 0 through Sunday = 6; 1970-01-01 was a Thursday. */
  function Weekday(n: int): (w: int)
    ensures 0 <= w <= 6
  {
    (n + 3) % 7
  }

  /**
   * Day index of the Monday that starts ISO week 1 of year y: the Monday on or
   * before January 1 when January 1 falls on Monday to Thursday, otherwise the
   * Monday after it.
   */
  function IsoWeek1Monday(y: int): (r: int)
    ensures Weekday(r) == 0
    ensures r <= DaysBeforeYear(y) + 3 < r + 7
  {
    var jan1 := DaysBeforeYear(y);
    var w := Weekday(jan1);
    MondayOnOrBefore(jan1);
    if w > 3 then jan1 - w + 7 else jan1 - w
  }
  /**
   * The ISO 8601 week-numbering year and week number of day n, given the civil
   * year y that holds n: the ISO year is y, or y - 1 for a day before week 1
   * of y, or y + 1 for a day on or after week 1 of y + 1.
   */
  function IsoWeekDateIn(n: int, y: int): IsoWeekDate {
    var isoYear :=
      if n < IsoWeek1Monday(y) then y - 1
      else if n >= IsoWeek1Monday(y + 1) then y + 1
      else y;
    IsoWeekDate(isoYear, (n - IsoWeek1Monday(isoYear)) / 7 + 1)
  }

  /** The ISO 8601 week-numbering year and week number of a day index. */
  function IsoYearAndWeek(n: int): IsoWeekDate {
    IsoWeekDateIn(n, YearAndDayOfYear(n).year)
  }

  /** Day n lies in the weeks of ISO year y: on or after its week 1 and before week 1 of y + 1. */
  predicate InIsoYear(n: int, y: int) {
    IsoWeek1Monday(y) <= n < IsoWeek1Monday(y + 1)
  }

  /** Day n lies in week w of ISO year y, counting week 1 from IsoWeek1Monday(y). */
  predicate InIsoWeek(n: int, y: int, w: int) {
    IsoWeek1Monday(y) + 7 * (w - 1) <= n < IsoWeek1Monday(y) + 7 * w
  }

  // ---------------------------------------------------------------------
  // Properties
  // ---------------------------------------------------------------------

  /** Each year adds its own length to the day index of January 1. */
  lemma DaysBeforeNextYear(y: int)
    ensures DaysBeforeYear(y + 1) == DaysBeforeYear(y) + DaysInYear(y)
  {
    DivStep(y, (y - 1) / 4, (y - 1) % 4, 4);
    DivStep(y, (y - 1) / 100, (y - 1) % 100, 100);
    DivStep(y, (y - 1) / 400, (y - 1) % 400, 400);
    LeapDivisibility(y);
  }

  /** A multiple of 400 is a multiple of 100, and a multiple of 100 is a multiple of 4. */
  lemma LeapDivisibility(y: int)
    ensures y % 100 == 0 ==> y % 4 == 0
    ensures y % 400 == 0 ==> y % 100 == 0
  {
    if y % 100 == 0 {
      MultipleOfFactor(y, y / 100, 100, 4);
    }
    if y % 400 == 0 {
      MultipleOfFactor(y, y / 400, 400, 100);
    }
  }

  /** A multiple of k is a multiple of each divisor of k. */
  lemma MultipleOfFactor(y: int, c: int, k: int, d: int)
    requires (k == 100 && d == 4) || (k == 400 && d == 100)
    requires y == k * c
    ensures y % d == 0
  {
    var e := k / d;
    assert y == d * (e * c);
  }

  /** Stepping y - 1 = k * q + r up by one adds one to the quotient exactly when y lands on a multiple of k. */
  lemma DivStep(y: int, q: int, r: int, k: int)
    requires k == 4 || k == 100 || k == 400
    requires y - 1 == k * q + r && 0 <= r < k
    ensures y / k == q + (if r == k - 1 then 1 else 0)
    ensures y % k == 0 <==> r == k - 1
  {
  }

  /** January 1 moves forward by at least 365 days per year. */
  lemma {:induction false} DaysBeforeYearMonotonic(a: int, b: int)
    requires a <= b
    ensures DaysBeforeYear(a) + 365 * (b - a) <= DaysBeforeYear(b)
    decreases b - a
  {
    if a < b {
      DaysBeforeYearMonotonic(a, b - 1);
      DaysBeforeNextYear(b - 1);
    }
  }

  /** The months of a year tile it: each starts where the previous one ends. */
  lemma MonthsTileYear(y: int, m: int)
    requires 1 <= m <= 12
    ensures m < 12 ==> DaysBeforeMonth(y, m + 1) == DaysBeforeMonth(y, m) + DaysInMonth(y, m)
    ensures m == 12 ==> DaysBeforeMonth(y, m) + DaysInMonth(y, m) == DaysInYear(y)
  {
  }

  /** Months of one year come in order: an earlier month ends before a later one starts. */
  lemma {:induction false} MonthsOrdered(y: int, m: int, m': int)
    requires 1 <= m < m' <= 12
    ensures DaysBeforeMonth(y, m) + DaysInMonth(y, m) <= DaysBeforeMonth(y, m')
    decreases m' - m
  {
    MonthsTileYear(y, m);
    if m + 1 < m' {
      MonthsOrdered(y, m + 1, m');
    }
  }

  /** The Monday on or before day n, and the one a week later, are Mondays. */
  lemma MondayOnOrBefore(n: int)
    ensures Weekday(n - Weekday(n)) == 0
    ensures Weekday(n - Weekday(n) + 7) == 0
  {
    var k := (n + 3) / 7;
    assert n - Weekday(n) + 3 == 7 * k;
    assert (7 * k) % 7 == 0 && (7 * k + 7) % 7 == 0;
  }

  /** A Monday is three days before a multiple of seven. */
  lemma MondayForm(x: int)
    requires Weekday(x) == 0
    ensures x == 7 * ((x + 3) / 7) - 3
  {
  }

  /** What is left after the whole 400-year cycles splits into at most four centuries. */
  lemma CenturySplit(r400: int)
    requires 0 <= r400 < DaysPer400Years
    ensures var c := if r400 / DaysPer100Years > 3 then 3 else r400 / DaysPer100Years;
            && 0 <= c <= 3
            && 0 <= r400 - DaysPer100Years * c <= DaysPer100Years
            && (c < 3 ==> r400 - DaysPer100Years * c < DaysPer100Years)
  {
  }

  /** A century splits into at most 25 four-year groups; only a full 36525-day century reaches day 1460 of its last group. */
  lemma QuadSplit(r100: int)
    requires 0 <= r100 <= DaysPer100Years
    ensures 0 <= r100 / DaysPer4Years <= 24
    ensures r100 < DaysPer100Years && r100 / DaysPer4Years == 24 ==> r100 % DaysPer4Years < 1460
  {
  }

  /** A four-year group splits into at most four years; only its fourth year reaches day 365. */
  lemma SingleYearSplit(r4: int)
    requires 0 <= r4 < DaysPer4Years
    ensures var q1 := if r4 / 365 > 3 then 3 else r4 / 365;
            && 0 <= q1 <= 3
            && 0 <= r4 - 365 * q1 <= 365
            && (q1 < 3 ==> r4 - 365 * q1 < 365)
            && (r4 - 365 * q1 == 365 ==> r4 == 1460)
  {
  }

  /** January 1 of a year assembled from whole cycles after 0001-01-01, with its leap days counted. */
  lemma CycleStart(q400: int, c: int, q4: int, q1: int)
    requires 0 <= c <= 3 && 0 <= q4 <= 24 && 0 <= q1 <= 3
    ensures DaysBeforeYear(400 * q400 + 100 * c + 4 * q4 + q1 + 1)
            == DaysPer400Years * q400 + DaysPer100Years * c + DaysPer4Years * q4 + 365 * q1 - EpochOffset
  {
    var p := 400 * q400 + 100 * c + 4 * q4 + q1;
    assert p / 4 == 100 * q400 + 25 * c + q4;
    assert p / 100 == 4 * q400 + c;
    assert p / 400 == q400;
  }

  /** The remainder of a number written in base one hundred. */
  lemma ModHundred(a: int, r: int)
    requires 0 <= r < 100
    ensures (100 * a + r) % 100 == r
  {
  }

  /** The last year of a four-year group is common only at the end of a century that is not the fourth of its cycle. */
  lemma CycleLeapYears(q400: int, c: int, q4: int)
    requires 0 <= c <= 3 && 0 <= q4 <= 24
    ensures var y := 400 * q400 + 100 * c + 4 * q4 + 4;
            !IsLeapYear(y) ==> q4 == 24 && c < 3
  {
    var y := 400 * q400 + 100 * c + 4 * q4 + 4;
    assert y == 4 * (100 * q400 + 25 * c + q4 + 1);
    if q4 < 24 {
      ModHundred(4 * q400 + c, 4 * q4 + 4);
    } else if c == 3 {
      assert y == 400 * (q400 + 1);
    }
  }

  /** The cycle counts are in range and account for every day; only the last year of a leap group reaches day 365. */
  lemma CycleSplitBounds(n: int)
    ensures var k := CycleSplit(n);
            && 0 <= k.centuries <= 3 && 0 <= k.quadYears <= 24 && 0 <= k.years <= 3
            && k.dayOfYear == n + EpochOffset - (DaysPer400Years * k.quadCenturies + DaysPer100Years * k.centuries
                                                 + DaysPer4Years * k.quadYears + 365 * k.years)
            && 0 <= k.dayOfYear <= 365
            && (k.dayOfYear == 365 ==> k.years == 3 && (k.quadYears < 24 || k.centuries == 3))
  {
    var r400 := (n + EpochOffset) % DaysPer400Years;
    CenturySplit(r400);
    var c := if r400 / DaysPer100Years > 3 then 3 else r400 / DaysPer100Years;
    QuadSplit(r400 - DaysPer100Years * c);
    SingleYearSplit((r400 - DaysPer100Years * c) % DaysPer4Years);
  }

  /** The year split is exact: the day of year is in range and adds back to the day index. */
  lemma YearAndDayOfYearCorrect(n: int)
    ensures var YearDay(y, d) := YearAndDayOfYear(n);
            0 <= d < DaysInYear(y) && DaysBeforeYear(y) + d == n
  {
    var k := CycleSplit(n);
    CycleSplitBounds(n);
    CycleStart(k.quadCenturies, k.centuries, k.quadYears, k.years);
    if k.dayOfYear == 365 {
      CycleLeapYears(k.quadCenturies, k.centuries, k.quadYears);
    }
  }

  /** A day index maps to a valid civil date that maps back to the same day index. */
  lemma CivilFromDaysRoundTrip(n: int)
    ensures ValidDate(CivilFromDays(n))
    ensures DaysFromCivil(CivilFromDays(n)) == n
  {
    YearAndDayOfYearCorrect(n);
  }

  /** All days of a valid date's year lie between that year's January 1 and the next. */
  lemma DateWithinYear(d: Date)
    requires ValidDate(d)
    ensures DaysBeforeYear(d.year) <= DaysFromCivil(d) < DaysBeforeYear(d.year + 1)
  {
    MonthsTileYear(d.year, d.month);
    if d.month < 12 {
      MonthsOrdered(d.year, d.month, 12);
      MonthsTileYear(d.year, 12);
    }
    DaysBeforeNextYear(d.year);
  }

  /** A day index lies in one year only. */
  lemma YearsDisjoint(n: int, a: int, b: int)
    requires DaysBeforeYear(a) <= n < DaysBeforeYear(a + 1)
    requires DaysBeforeYear(b) <= n < DaysBeforeYear(b + 1)
    ensures a == b
  {
    if a < b {
      DaysBeforeYearMonotonic(a + 1, b);
    } else if b < a {
      DaysBeforeYearMonotonic(b + 1, a);
    }
  }

  /** Distinct valid dates have distinct day indices. */
  lemma DaysFromCivilInjective(a: Date, b: Date)
    requires ValidDate(a) && ValidDate(b)
    requires DaysFromCivil(a) == DaysFromCivil(b)
    ensures a == b
  {
    DateWithinYear(a);
    DateWithinYear(b);
    YearsDisjoint(DaysFromCivil(a), a.year, b.year);
    if a.month < b.month {
      MonthsOrdered(a.year, a.month, b.month);
      assert false;
    } else if b.month < a.month {
      MonthsOrdered(a.year, b.month, a.month);
      assert false;
    }
  }

  /** A valid civil date survives the trip through its day index. */
  lemma DaysFromCivilRoundTrip(d: Date)
    requires ValidDate(d)
    ensures CivilFromDays(DaysFromCivil(d)) == d
  {
    CivilFromDaysRoundTrip(DaysFromCivil(d));
    DaysFromCivilInjective(CivilFromDays(DaysFromCivil(d)), d);
  }

  /** Two Mondays are a whole number of weeks apart. */
  lemma MondayGap(x: int, z: int)
    requires Weekday(x) == 0 && Weekday(z) == 0
    ensures z - x == 7 * ((z + 3) / 7 - (x + 3) / 7)
  {
    MondayForm(x);
    MondayForm(z);
  }

  /**
   * Two Mondays, each within three days of a January 1, are a whole number of
   * weeks apart, and at least 52 weeks apart when the January 1s are a year or
   * more apart, at most 53 weeks when they are at most a leap year apart.
   */
  lemma MondaysApart(x: int, z: int, jx: int, jz: int)
    requires Weekday(x) == 0 && Weekday(z) == 0
    requires x <= jx + 3 < x + 7 && z <= jz + 3 < z + 7
    ensures jx + 365 <= jz ==> x + 364 <= z
    ensures jz <= jx + 366 ==> z <= x + 371
    ensures (z - x) % 7 == 0
  {
    MondayGap(x, z);
  }

  /** Week 1 of a later ISO year starts at least 52 weeks after week 1 of an earlier one. */
  lemma IsoWeek1MondayMonotonic(a: int, b: int)
    requires a < b
    ensures IsoWeek1Monday(a) + 364 <= IsoWeek1Monday(b)
  {
    DaysBeforeYearMonotonic(a, b);
    MondaysApart(IsoWeek1Monday(a), IsoWeek1Monday(b), DaysBeforeYear(a), DaysBeforeYear(b));
  }

  /** An ISO year has 52 or 53 weeks. */
  lemma IsoYearLength(y: int)
    ensures 364 <= IsoWeek1Monday(y + 1) - IsoWeek1Monday(y) <= 371
    ensures (IsoWeek1Monday(y + 1) - IsoWeek1Monday(y)) % 7 == 0
  {
    DaysBeforeNextYear(y);
    MondaysApart(IsoWeek1Monday(y), IsoWeek1Monday(y + 1), DaysBeforeYear(y), DaysBeforeYear(y + 1));
  }

  /** The year that holds day n lies between that year's January 1 and the next. */
  lemma YearBounds(n: int)
    ensures DaysBeforeYear(YearAndDayOfYear(n).year) <= n < DaysBeforeYear(YearAndDayOfYear(n).year + 1)
  {
    YearAndDayOfYearCorrect(n);
    DaysBeforeNextYear(YearAndDayOfYear(n).year);
  }

  /** A day of year y before week 1 of y lies in the ISO year y - 1. */
  lemma ChoiceEarly(n: int, y: int)
    requires DaysBeforeYear(y) <= n < IsoWeek1Monday(y)
    ensures IsoWeekDateIn(n, y).isoYear == y - 1
    ensures InIsoYear(n, IsoWeekDateIn(n, y).isoYear)
  {
    DaysBeforeNextYear(y - 1);
    assert IsoWeekDateIn(n, y).isoYear + 1 == y;
  }

  /** A day of year y from week 1 of y + 1 on lies in the ISO year y + 1. */
  lemma ChoiceLate(n: int, y: int)
    requires DaysBeforeYear(y) <= n < DaysBeforeYear(y + 1)
    requires IsoWeek1Monday(y) <= n && IsoWeek1Monday(y + 1) <= n
    ensures IsoWeekDateIn(n, y).isoYear == y + 1
    ensures InIsoYear(n, IsoWeekDateIn(n, y).isoYear)
  {
    DaysBeforeNextYear(y + 1);
    assert IsoWeekDateIn(n, y).isoYear + 1 == y + 2;
  }

  /** Any other day of year y lies in the ISO year y. */
  lemma ChoiceSame(n: int, y: int)
    requires IsoWeek1Monday(y) <= n < IsoWeek1Monday(y + 1)
    ensures IsoWeekDateIn(n, y).isoYear == y
    ensures InIsoYear(n, IsoWeekDateIn(n, y).isoYear)
  {
  }

  /** The ISO year chosen next to civil year y holds day n, when y holds n. */
  lemma IsoYearChoice(n: int, y: int)
    requires DaysBeforeYear(y) <= n < DaysBeforeYear(y + 1)
    ensures InIsoYear(n, IsoWeekDateIn(n, y).isoYear)
  {
    if n < IsoWeek1Monday(y) {
      ChoiceEarly(n, y);
    } else if n >= IsoWeek1Monday(y + 1) {
      ChoiceLate(n, y);
    } else {
      ChoiceSame(n, y);
    }
  }

  /** A day less than 371 days after a Monday lies in week (n - start) / 7 + 1, numbered from 1 to 53. */
  lemma WeekOfYear(n: int, y: int)
    requires InIsoYear(n, y)
    requires IsoWeek1Monday(y + 1) - IsoWeek1Monday(y) <= 371
    ensures var w := (n - IsoWeek1Monday(y)) / 7 + 1;
            1 <= w <= 53 && InIsoWeek(n, y, w)
  {
  }

  /** The ISO year chosen next to civil year y holds day n, when y holds n, and numbers its week. */
  lemma IsoWeekDateInCorrect(n: int, y: int)
    requires DaysBeforeYear(y) <= n < DaysBeforeYear(y + 1)
    ensures InIsoYear(n, IsoWeekDateIn(n, y).isoYear)
    ensures 1 <= IsoWeekDateIn(n, y).week <= 53
    ensures InIsoWeek(n, IsoWeekDateIn(n, y).isoYear, IsoWeekDateIn(n, y).week)
  {
    IsoYearChoice(n, y);
    var iy := IsoWeekDateIn(n, y).isoYear;
    IsoYearLength(iy);
    WeekOfYear(n, iy);
  }

  /**
   * The ISO week date of a day index: the day lies in its ISO year, whose week 1
   * starts on IsoWeek1Monday, the week number is between 1 and 53, and the day
   * lies in that numbered week.
   */
  lemma IsoYearAndWeekCorrect(n: int)
    ensures InIsoYear(n, IsoYearAndWeek(n).isoYear)
    ensures 1 <= IsoYearAndWeek(n).week <= 53
    ensures InIsoWeek(n, IsoYearAndWeek(n).isoYear, IsoYearAndWeek(n).week)
  {
    var y := YearAndDayOfYear(n).year;
    YearBounds(n);
    IsoWeekDateInCorrect(n, y);
    assert IsoYearAndWeek(n) == IsoWeekDateIn(n, y);
  }

  /** ISO years do not overlap: a day lies in the weeks of one ISO year only. */
  lemma IsoYearsDisjoint(n: int, a: int, b: int)
    requires InIsoYear(n, a) && InIsoYear(n, b)
    ensures a == b
  {
    if a + 1 < b {
      IsoWeek1MondayMonotonic(a + 1, b);
    } else if b + 1 < a {
      IsoWeek1MondayMonotonic(b + 1, a);
    }
  }

  /** The ISO year of a day is the only year whose weeks contain it, and fixes the week number. */
  lemma IsoYearUnique(n: int, iy: int)
    requires InIsoYear(n, iy)
    ensures IsoYearAndWeek(n) == IsoWeekDate(iy, (n - IsoWeek1Monday(iy)) / 7 + 1)
  {
    IsoYearAndWeekCorrect(n);
    IsoYearsDisjoint(n, iy, IsoYearAndWeek(n).isoYear);
  }
}
