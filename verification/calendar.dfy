/**
  Calendar arithmetic of the JavaScript `Date` object, following the
  ECMAScript language specification's DayFromYear, InLeapYear and MakeDay
  operations. Days are numbered from 1970-01-01 (day 0); a time value is a day
  number times the milliseconds of a day plus the milliseconds into that day.
  Time zones and daylight saving are not modelled: every time value here is a
  local wall-clock time.
*/
module Calendar {
  import opened Seqs

  const MsPerDay: int := 86_400_000

  /** The time value of `ms` milliseconds into day `day`. */
  function Instant(day: int, ms: int): int
  {
    day * MsPerDay + ms
  }

  /** The largest magnitude of a valid time value: 100,000,000 days either side of the epoch. */
  const MaxTimeValue: int := 8_640_000_000_000_000

  /**
    TimeClip: a time value beyond the limit makes the `Date` invalid (its time
    value is NaN), represented by `None`.
  */
  function TimeClip(t: int): (r: Option<int>)
    ensures r.Some? <==> -MaxTimeValue <= t <= MaxTimeValue
    ensures r.Some? ==> r.value == t
  {
    if -MaxTimeValue <= t <= MaxTimeValue then Some(t) else None
  }

  predicate InLeapYear(y: int)
  {
    y % 4 == 0 && (y % 100 != 0 || y % 400 == 0)
  }

  function DaysInYear(y: int): int
  {
    if InLeapYear(y) then 366 else 365
  }

  /** The day number of January 1st of year `y`; `/` is floor division here as in the standard. */
  function DayFromYear(y: int): int
  {
    365 * (y - 1970) + (y - 1969) / 4 - (y - 1901) / 100 + (y - 1601) / 400
  }

  /** Days in month `m` (0 = January) of year `y`. */
  function DaysInMonth(y: int, m: int): (n: int)
    requires 0 <= m < 12
    ensures 28 <= n <= 31
  {
    if m == 1 then (if InLeapYear(y) then 29 else 28)
    else if m == 3 || m == 5 || m == 8 || m == 10 then 30
    else 31
  }

  /** Days of year `y` before the first of month `m` (0 = January). */
  function DaysBeforeMonth(y: int, m: int): int
    requires 0 <= m < 12
  {
    var leap := if InLeapYear(y) then 1 else 0;
    if m == 0 then 0
    else if m == 1 then 31
    else [59, 90, 120, 151, 181, 212, 243, 273, 304, 334][m - 2] + leap
  }

  /**
    MakeDay: the day number of day-of-month `d` of month `m` (0 = January) of
    year `y`. Neither `m` nor `d` needs to be in range: a month outside 0..11
    moves the year, and a day past the end of the month continues into the
    following months, as `new Date(y, m, d)` does.
  */
  function MakeDay(y: int, m: int, d: int): int
  {
    var ym := y + m / 12;
    var mn := m % 12;
    DayFromYear(ym) + DaysBeforeMonth(ym, mn) + d - 1
  }

  /** The year the `Date` constructor uses for a year argument: 0 to 99 means 1900 to 1999. */
  function ConstructorYear(y: int): (r: int)
    ensures 0 <= y <= 99 ==> r == 1900 + y
    ensures (y < 0 || y > 99) ==> r == y
  {
    if 0 <= y <= 99 then 1900 + y else y
  }

  // ---------------------------------------------------------------------------
  // Laws of the day arithmetic
  // ---------------------------------------------------------------------------

  /** `(y + k) / k - (y + k - 1) / k` is one exactly when `k` divides `y`, for the divisors in DayFromYear. */
  lemma StepOfQuotient(a: int, k: int)
    requires k == 4 || k == 100 || k == 400
    ensures (a + 1) / k - a / k == (if (a + 1) % k == 0 then 1 else 0)
  {
    var q, r := a / k, a % k;
    assert a == k * q + r && 0 <= r < k;
    if r == k - 1 {
      assert a + 1 == k * (q + 1) + 0;
    } else {
      assert a + 1 == k * q + (r + 1);
    }
  }

  /** Consecutive years start `DaysInYear` days apart. */
  lemma YearStep(y: int)
    ensures DayFromYear(y + 1) == DayFromYear(y) + DaysInYear(y)
  {
    StepOfQuotient(y - 1969, 4);
    StepOfQuotient(y - 1901, 100);
    StepOfQuotient(y - 1601, 400);
    assert (y - 1968) % 4 == 0 <==> y % 4 == 0;
    assert (y - 1900) % 100 == 0 <==> y % 100 == 0;
    assert (y - 1600) % 400 == 0 <==> y % 400 == 0;
  }

  /** Each day-of-month is one day after the previous one. */
  lemma NextDay(y: int, m: int, d: int)
    ensures MakeDay(y, m, d + 1) == MakeDay(y, m, d) + 1
  {
  }

  /** The first of the next month comes exactly `DaysInMonth` days after the first of this month. */
  lemma MonthStep(y: int, m: int)
    ensures MakeDay(y, m + 1, 1) == MakeDay(y, m, 1) + DaysInMonth(y + m / 12, m % 12)
  {
    var ym, mn := y + m / 12, m % 12;
    if mn == 11 {
      assert (m + 1) / 12 == m / 12 + 1 && (m + 1) % 12 == 0;
      YearStep(ym);
    } else {
      assert (m + 1) / 12 == m / 12 && (m + 1) % 12 == mn + 1;
    }
  }

  /**
    A day-of-month past the end of its month rolls into the next month: day 31
    of a 30-day month is day 1 of the month after.
  */
  lemma DayOverflowRollsOver(y: int, m: int, d: int)
    requires d > DaysInMonth(y + m / 12, m % 12)
    ensures MakeDay(y, m, d) == MakeDay(y, m + 1, d - DaysInMonth(y + m / 12, m % 12))
  {
    MonthStep(y, m);
  }

  /** Twelve months on is the same day-of-month of the next year. */
  lemma TwelveMonthsIsNextYear(y: int, m: int, d: int)
    ensures MakeDay(y, m + 12, d) == MakeDay(y + 1, m, d)
  {
    assert (m + 12) / 12 == m / 12 + 1 && (m + 12) % 12 == m % 12;
  }

  /** Day numbers are strictly increasing in the day-of-month. */
  lemma MakeDayMonotone(y: int, m: int, d1: int, d2: int)
    ensures d1 < d2 <==> MakeDay(y, m, d1) < MakeDay(y, m, d2)
  {
  }
}
