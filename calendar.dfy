/**
 * The part of Python's `datetime` the loaders use: a naive UTC instant and
 * `instant - timedelta(hours=1)`, with the proleptic Gregorian calendar's
 * rollover of hour, day, month and year.
 */
module Calendar {
  import opened Wrappers

  const MinYear: int := 1
  const MaxYear: int := 9999

  datatype DateTime = DateTime(year: int, month: int, day: int, hour: int,
                               minute: int, second: int, microsecond: int)

  predicate IsLeapYear(y: int) {
    y % 4 == 0 && (y % 100 != 0 || y % 400 == 0)
  }

  function DaysInMonth(y: int, m: int): (n: int)
    requires 1 <= m <= 12
    ensures 28 <= n <= 31
  {
    if m == 2 then (if IsLeapYear(y) then 29 else 28)
    else if m == 4 || m == 6 || m == 9 || m == 11 then 30
    else 31
  }

  function DaysInYear(y: int): int {
    if IsLeapYear(y) then 366 else 365
  }

  /** The instants `datetime` can represent: years 1 to 9999, every field in range. */
  predicate Valid(t: DateTime) {
    && MinYear <= t.year <= MaxYear
    && 1 <= t.month <= 12
    && 1 <= t.day <= DaysInMonth(t.year, t.month)
    && 0 <= t.hour < 24
    && 0 <= t.minute < 60
    && 0 <= t.second < 60
    && 0 <= t.microsecond < 1000000
  }

  /** Days in the years before `y`, counted from 1 January of year 1. */
  function DaysBeforeYear(y: int): int
    requires y >= 1
  {
    var x := y - 1;
    x * 365 + x / 4 - x / 100 + x / 400
  }

  /** Days in the months of year `y` before month `m`. */
  function DaysBeforeMonth(y: int, m: int): int
    requires 1 <= m <= 12
  {
    [0, 31, 59, 90, 120, 151, 181, 212, 243, 273, 304, 334][m - 1]
      + (if m > 2 && IsLeapYear(y) then 1 else 0)
  }

  /** Day number of the instant's date; 1 January of year 1 is day 1 (Python's `toordinal`). */
  function DayOrdinal(t: DateTime): int
    requires Valid(t)
  {
    DaysBeforeYear(t.year) + DaysBeforeMonth(t.year, t.month) + t.day
  }

  /** Whole hours elapsed from 0001-01-01 00:00 to the start of the instant's hour. */
  function HourIndex(t: DateTime): int
    requires Valid(t)
  {
    (DayOrdinal(t) - 1) * 24 + t.hour
  }

  /**
   * `t - timedelta(hours=1)`. There is no hour before 0001-01-01 00:00, where
   * Python raises OverflowError; that is None here.
   */
  function PrevHour(t: DateTime): (r: Option<DateTime>)
    requires Valid(t)
    ensures r.Some? ==> Valid(r.value)
    ensures r.Some? ==> r.value.minute == t.minute && r.value.second == t.second && r.value.microsecond == t.microsecond
    ensures r.None? <==> t.year == MinYear && t.month == 1 && t.day == 1 && t.hour == 0
  {
    if t.hour > 0 then Some(t.(hour := t.hour - 1))
    else if t.day > 1 then Some(t.(day := t.day - 1, hour := 23))
    else if t.month > 1 then Some(t.(month := t.month - 1, day := DaysInMonth(t.year, t.month - 1), hour := 23))
    else if t.year > MinYear then Some(t.(year := t.year - 1, month := 12, day := 31, hour := 23))
    else None
  }

  lemma MonthStep(y: int, m: int)
    requires 1 <= m < 12
    ensures DaysBeforeMonth(y, m + 1) == DaysBeforeMonth(y, m) + DaysInMonth(y, m)
  {
  }

  lemma YearStep(y: int)
    requires y >= 1
    ensures DaysBeforeYear(y + 1) == DaysBeforeYear(y) + DaysInYear(y)
    ensures DaysBeforeMonth(y, 12) + DaysInMonth(y, 12) == DaysInYear(y)
  {
    var x := y - 1;
    CenturyCounts(x);
    assert DaysBeforeYear(y) == x * 365 + x / 4 - x / 100 + x / 400;
    assert DaysBeforeYear(y + 1) == (x + 1) * 365 + (x + 1) / 4 - (x + 1) / 100 + (x + 1) / 400;
    assert (x + 1) % 4 == y % 4 && (x + 1) % 100 == y % 100 && (x + 1) % 400 == y % 400;
  }

  /** How each term of the leap-day count changes from one year to the next. */
  lemma CenturyCounts(x: int)
    requires x >= 0
    ensures (x + 1) / 4 - x / 4 == if (x + 1) % 4 == 0 then 1 else 0
    ensures (x + 1) / 100 - x / 100 == if (x + 1) % 100 == 0 then 1 else 0
    ensures (x + 1) / 400 - x / 400 == if (x + 1) % 400 == 0 then 1 else 0
  {
  }

  lemma DaysBeforeYearMonotone(a: int, b: int)
    requires 1 <= a <= b
    ensures DaysBeforeYear(a) + (b - a) * 365 <= DaysBeforeYear(b)
    decreases b - a
  {
    if a < b {
      DaysBeforeYearMonotone(a, b - 1);
      YearStep(b - 1);
    }
  }

  /**
   * The instant one hour earlier is a valid instant whose hour index is one
   * less and whose minute, second and microsecond are unchanged; there is
   * none exactly when the instant lies in the very first hour of year 1.
   */
  lemma PrevHourStepsBackOneHour(t: DateTime)
    requires Valid(t)
    ensures HourIndex(t) >= 0
    ensures PrevHour(t).None? <==> HourIndex(t) == 0
    ensures PrevHour(t).Some? ==>
              var p := PrevHour(t).value;
              && Valid(p)
              && HourIndex(p) == HourIndex(t) - 1
              && p.minute == t.minute && p.second == t.second && p.microsecond == t.microsecond
  {
    HourIndexNonNegative(t);
    if t.hour == 0 && t.day == 1 {
      if t.month > 1 {
        MonthStep(t.year, t.month - 1);
      } else if t.year > MinYear {
        YearStep(t.year - 1);
      } else {
        assert DayOrdinal(t) == 1;
      }
    }
    if PrevHour(t).Some? {
      HourIndexNonNegative(PrevHour(t).value);
    }
  }

  lemma HourIndexNonNegative(t: DateTime)
    requires Valid(t)
    ensures HourIndex(t) >= 0
  {
    DaysBeforeYearMonotone(1, t.year);
  }

  lemma MonthsBeforeMonotone(y: int, a: int, b: int)
    requires 1 <= a < b <= 12
    ensures DaysBeforeMonth(y, a) + DaysInMonth(y, a) <= DaysBeforeMonth(y, b)
    decreases b - a
  {
    MonthStep(y, b - 1);
    if a < b - 1 {
      MonthsBeforeMonotone(y, a, b - 1);
    }
  }

  /** The day of the year an instant falls on, counted from 0. */
  lemma DayOfYearInRange(t: DateTime)
    requires Valid(t)
    ensures 0 <= DaysBeforeMonth(t.year, t.month) + t.day - 1 < DaysInYear(t.year)
  {
    YearStep(t.year);
    if t.month < 12 {
      MonthsBeforeMonotone(t.year, t.month, 12);
    }
  }

  /**
   * Different hours of the calendar have different hour indices: two valid
   * instants with the same index agree on year, month, day and hour.
   */
  lemma HourIndexInjective(a: DateTime, b: DateTime)
    requires Valid(a) && Valid(b)
    requires HourIndex(a) == HourIndex(b)
    ensures a.year == b.year && a.month == b.month && a.day == b.day && a.hour == b.hour
  {
    assert DayOrdinal(a) == DayOrdinal(b) && a.hour == b.hour;
    if a.year < b.year {
      LaterYearLaterDay(a, b);
    } else if b.year < a.year {
      LaterYearLaterDay(b, a);
    } else if a.month < b.month {
      LaterMonthLaterDay(a, b);
    } else if b.month < a.month {
      LaterMonthLaterDay(b, a);
    }
  }

  /** Every day of a year comes before every day of a later year. */
  lemma LaterYearLaterDay(lo: DateTime, hi: DateTime)
    requires Valid(lo) && Valid(hi) && lo.year < hi.year
    ensures DayOrdinal(lo) < DayOrdinal(hi)
  {
    DayOfYearInRange(lo);
    YearStep(lo.year);
    DaysBeforeYearMonotone(lo.year + 1, hi.year);
  }

  /** Within one year, every day of a month comes before every day of a later month. */
  lemma LaterMonthLaterDay(lo: DateTime, hi: DateTime)
    requires Valid(lo) && Valid(hi) && lo.year == hi.year && lo.month < hi.month
    ensures DayOrdinal(lo) < DayOrdinal(hi)
  {
    MonthsBeforeMonotone(lo.year, lo.month, hi.month);
  }

  /** The instant one hour earlier is the only valid instant one hour index back with the same minutes and seconds. */
  lemma PrevHourIsUnique(t: DateTime, p: DateTime)
    requires Valid(t) && Valid(p)
    requires HourIndex(p) == HourIndex(t) - 1
    requires p.minute == t.minute && p.second == t.second && p.microsecond == t.microsecond
    ensures PrevHour(t) == Some(p)
  {
    PrevHourStepsBackOneHour(p);
    PrevHourStepsBackOneHour(t);
    HourIndexInjective(PrevHour(t).value, p);
  }
}
