/**
  Civil time in UTC on the proleptic Gregorian calendar, with the range
  Python's `datetime` allows (years 1 to 9999, whole seconds only).

  Every valid date-time is numbered by `Instant`, the seconds elapsed since
  0001-01-01T00:00:00. Adding seconds is defined by carrying across minute,
  hour, day, month and year boundaries, and is proved to move the instant by
  exactly that many seconds.
*/
module CivilTime {
  import opened Wrappers

  const MinYear: int := 1
  const MaxYear: int := 9999
  const SecondsPerDay: int := 86400

  datatype Date = Date(year: int, month: int, day: int)
  datatype DateTime = DateTime(date: Date, hour: int, minute: int, second: int)

  predicate IsLeapYear(y: int) {
    y % 4 == 0 && (y % 100 != 0 || y % 400 == 0)
  }

  function DaysInYear(y: int): int {
    if IsLeapYear(y) then 366 else 365
  }

  function DaysInMonth(y: int, m: int): int
    requires 1 <= m <= 12
  {
    if m == 2 then (if IsLeapYear(y) then 29 else 28)
    else if m == 4 || m == 6 || m == 9 || m == 11 then 30
    else 31
  }

  /** Days in year `y` before the first day of month `m`. */
  function DaysBeforeMonth(y: int, m: int): int
    requires 1 <= m <= 12
  {
    var leapDay := if m > 2 && IsLeapYear(y) then 1 else 0;
    leapDay +
    if m == 1 then 0 else if m == 2 then 31 else if m == 3 then 59
    else if m == 4 then 90 else if m == 5 then 120 else if m == 6 then 151
    else if m == 7 then 181 else if m == 8 then 212 else if m == 9 then 243
    else if m == 10 then 273 else if m == 11 then 304 else 334
  }

  /** Days from 0001-01-01 to the first of January of year `y`. */
  function DaysBeforeYear(y: int): int
    requires y >= 1
  {
    var p := y - 1;
    p * 365 + p / 4 - p / 100 + p / 400
  }

  predicate ValidDate(d: Date) {
    MinYear <= d.year && 1 <= d.month <= 12 && 1 <= d.day <= DaysInMonth(d.year, d.month)
  }

  /** A date-time that Python's `datetime` can represent (microseconds zero). */
  predicate Valid(t: DateTime) {
    ValidDate(t.date) && t.date.year <= MaxYear &&
    0 <= t.hour < 24 && 0 <= t.minute < 60 && 0 <= t.second < 60
  }

  /** Days since 0001-01-01 (one less than Python's proleptic ordinal). */
  function DayNumber(d: Date): int
    requires ValidDate(d)
  {
    DaysBeforeYear(d.year) + DaysBeforeMonth(d.year, d.month) + d.day - 1
  }

  function SecondOfDay(t: DateTime): int {
    (t.hour * 60 + t.minute) * 60 + t.second
  }

  /** Seconds since 0001-01-01T00:00:00. */
  function Instant(t: DateTime): int
    requires ValidDate(t.date)
  {
    DayNumber(t.date) * SecondsPerDay + SecondOfDay(t)
  }

  /** The first day number past the representable range: 10000-01-01. */
  function EndOfRange(): int {
    DaysBeforeYear(MaxYear + 1)
  }

  lemma YearStep(y: int)
    requires y >= 1
    ensures DaysBeforeYear(y + 1) == DaysBeforeYear(y) + DaysInYear(y)
  {
    assert y / 4 - (y - 1) / 4 == if y % 4 == 0 then 1 else 0;
    assert y / 100 - (y - 1) / 100 == if y % 100 == 0 then 1 else 0;
    assert y / 400 - (y - 1) / 400 == if y % 400 == 0 then 1 else 0;
  }

  lemma {:induction false} YearsIncrease(a: int, b: int)
    requires 1 <= a < b
    ensures DaysBeforeYear(a) + DaysInYear(a) <= DaysBeforeYear(b)
    decreases b - a
  {
    YearStep(a);
    if a + 1 < b {
      YearsIncrease(a + 1, b);
    }
  }

  lemma MonthStep(y: int, m: int)
    requires 1 <= m < 12
    ensures DaysBeforeMonth(y, m + 1) == DaysBeforeMonth(y, m) + DaysInMonth(y, m)
  {
  }

  lemma MonthsIncrease(y: int, a: int, b: int)
    requires 1 <= a < b <= 12
    ensures DaysBeforeMonth(y, a) + DaysInMonth(y, a) <= DaysBeforeMonth(y, b)
  {
  }

  /** A valid date's day number lies within its own year. */
  lemma DayNumberInYear(d: Date)
    requires ValidDate(d)
    ensures DaysBeforeYear(d.year) <= DayNumber(d) < DaysBeforeYear(d.year + 1)
  {
    YearStep(d.year);
    if d.month < 12 {
      MonthsIncrease(d.year, d.month, 12);
    }
  }

  /** Distinct valid dates have distinct day numbers. */
  lemma DayNumberInjective(d: Date, e: Date)
    requires ValidDate(d) && ValidDate(e) && DayNumber(d) == DayNumber(e)
    ensures d == e
  {
    DayNumberInYear(d);
    DayNumberInYear(e);
    if d.year < e.year {
      YearsIncrease(d.year, e.year);
      YearStep(d.year);
    } else if e.year < d.year {
      YearsIncrease(e.year, d.year);
      YearStep(e.year);
    }
    assert d.year == e.year;
    if d.month < e.month {
      MonthsIncrease(d.year, d.month, e.month);
    } else if e.month < d.month {
      MonthsIncrease(d.year, e.month, d.month);
    }
  }

  /** Distinct valid date-times have distinct instants. */
  lemma InstantInjective(s: DateTime, t: DateTime)
    requires Valid(s) && Valid(t) && Instant(s) == Instant(t)
    ensures s == t
  {
    DayNumberInjective(s.date, t.date);
  }

  /** The day `n` days after `d`, carrying across month and year ends. */
  function AddDays(d: Date, n: nat): (r: Date)
    requires ValidDate(d)
    ensures ValidDate(r) && DayNumber(r) == DayNumber(d) + n
    decreases n
  {
    var left := DaysInMonth(d.year, d.month) - d.day;
    if n <= left then Date(d.year, d.month, d.day + n)
    else if d.month < 12 then
      MonthStep(d.year, d.month);
      AddDays(Date(d.year, d.month + 1, 1), n - left - 1)
    else
      YearStep(d.year);
      AddDays(Date(d.year + 1, 1, 1), n - left - 1)
  }

  /** A second count splits into whole days, hours, minutes and seconds. */
  lemma SplitSeconds(total: int)
    requires total >= 0
    ensures var rem := total % SecondsPerDay;
            0 <= rem / 3600 < 24 && 0 <= rem % 3600 / 60 < 60 && 0 <= rem % 60 < 60 &&
            total == total / SecondsPerDay * SecondsPerDay + (rem / 3600 * 60 + rem % 3600 / 60) * 60 + rem % 60
  {
    var rem := total % SecondsPerDay;
    assert total == total / SecondsPerDay * SecondsPerDay + rem;
    assert rem == rem / 3600 * 3600 + rem % 3600 / 60 * 60 + rem % 60;
  }

  /**
    `t` plus `k` seconds, or None when the result would lie past
    9999-12-31T23:59:59 (Python raises OverflowError there).
  */
  function AddSeconds(t: DateTime, k: nat): (r: Option<DateTime>)
    requires Valid(t)
    ensures r.Some? ==> Valid(r.value) && Instant(r.value) == Instant(t) + k
  {
    var total := SecondOfDay(t) + k;
    var d := AddDays(t.date, total / SecondsPerDay);
    var rem := total % SecondsPerDay;
    SplitSeconds(total);
    if d.year > MaxYear then None
    else Some(DateTime(d, rem / 3600, rem % 3600 / 60, rem % 60))
  }

  /** Adding seconds fails exactly when the instant leaves the representable range. */
  lemma AddSecondsDefined(t: DateTime, k: nat)
    requires Valid(t)
    ensures AddSeconds(t, k).Some? <==> Instant(t) + k < EndOfRange() * SecondsPerDay
  {
    var total := SecondOfDay(t) + k;
    var d := AddDays(t.date, total / SecondsPerDay);
    assert Instant(t) + k == DayNumber(d) * SecondsPerDay + total % SecondsPerDay;
    DayNumberInYear(d);
    if d.year > MaxYear {
      if d.year > MaxYear + 1 {
        YearsIncrease(MaxYear + 1, d.year);
      }
    } else {
      if d.year < MaxYear {
        YearsIncrease(d.year + 1, MaxYear + 1);
      }
    }
  }

  /** AddSeconds returns the one valid date-time that lies `k` seconds after `t`. */
  lemma AddSecondsUnique(t: DateTime, k: nat, r: DateTime)
    requires Valid(t) && Valid(r)
    ensures AddSeconds(t, k) == Some(r) <==> Instant(r) == Instant(t) + k
  {
    if Instant(r) == Instant(t) + k {
      AddSecondsDefined(t, k);
      AddSecondsDefined(r, 0);
      InstantInjective(AddSeconds(t, k).value, r);
    }
  }

  /** Adding zero seconds gives back the start. */
  lemma AddZeroSeconds(t: DateTime)
    requires Valid(t)
    ensures AddSeconds(t, 0) == Some(t)
  {
    AddSecondsUnique(t, 0, t);
  }

  /** Adding `a` and then `b` seconds is adding `a + b` seconds. */
  lemma AddSecondsTwice(t: DateTime, a: nat, b: nat)
    requires Valid(t) && AddSeconds(t, a).Some?
    ensures AddSeconds(t, a + b) == AddSeconds(AddSeconds(t, a).value, b)
  {
    var u := AddSeconds(t, a).value;
    AddSecondsDefined(t, a + b);
    AddSecondsDefined(u, b);
    if AddSeconds(u, b).Some? {
      AddSecondsUnique(t, a + b, AddSeconds(u, b).value);
    }
  }
}
