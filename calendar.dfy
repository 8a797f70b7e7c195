/**
  Proleptic Gregorian calendar arithmetic behind both implementations' `Date` and
  `datetime` values: validity, day stepping, the day ordinal, weekdays, the order of
  instants, and the two constructors the source calls with possibly impossible fields
  (JavaScript's normalising `new Date(y, m, d)` and Python's checking `datetime(y, m, d)`).
*/
module Calendar {

  import opened Wrappers

  /** A calendar date; `month` is 1-based (January is 1). */
  datatype Date = Date(year: int, month: int, day: int)

  /**
    A local point in time: a date plus the time elapsed since that date's midnight,
    in the platform's clock unit. Only its order matters to the model.
  */
  datatype Instant = Instant(date: Date, time: nat)

  predicate IsLeapYear(y: int) {
    y % 4 == 0 && (y % 100 != 0 || y % 400 == 0)
  }

  function DaysInMonth(y: int, m: int): (n: int)
    requires 1 <= m <= 12
    ensures 28 <= n <= 31
    ensures n == 29 <==> m == 2 && IsLeapYear(y)
  {
    if m == 2 then (if IsLeapYear(y) then 29 else 28)
    else if m == 4 || m == 6 || m == 9 || m == 11 then 30
    else 31
  }

  predicate ValidDate(d: Date) {
    1 <= d.month <= 12 && 1 <= d.day <= DaysInMonth(d.year, d.month)
  }

  function NextDay(d: Date): (r: Date)
    requires ValidDate(d)
    ensures ValidDate(r)
  {
    if d.day < DaysInMonth(d.year, d.month) then Date(d.year, d.month, d.day + 1)
    else if d.month < 12 then Date(d.year, d.month + 1, 1)
    else Date(d.year + 1, 1, 1)
  }

  function PrevDay(d: Date): (r: Date)
    requires ValidDate(d)
    ensures ValidDate(r)
  {
    if d.day > 1 then Date(d.year, d.month, d.day - 1)
    else if d.month > 1 then Date(d.year, d.month - 1, DaysInMonth(d.year, d.month - 1))
    else Date(d.year - 1, 12, 31)
  }

  /** The date `k` days after `d`, or `-k` days before it when `k` is negative. */
  function AddDays(d: Date, k: int): (r: Date)
    requires ValidDate(d)
    ensures ValidDate(r)
    decreases if k < 0 then -k else k
  {
    if k == 0 then d
    else if k > 0 then AddDays(NextDay(d), k - 1)
    else AddDays(PrevDay(d), k + 1)
  }

  // ---------------------------------------------------------------------------
  // Day ordinal and weekdays

  function DaysBeforeYear(y: int): int {
    365 * (y - 1) + (y - 1) / 4 - (y - 1) / 100 + (y - 1) / 400
  }

  function DaysBeforeMonth(y: int, m: int): int
    requires 1 <= m <= 12
  {
    if m == 1 then 0 else DaysBeforeMonth(y, m - 1) + DaysInMonth(y, m - 1)
  }

  /** Python's `date.toordinal()`: 0001-01-01 is day 1. */
  function DayNumber(d: Date): int
    requires 1 <= d.month <= 12
  {
    DaysBeforeYear(d.year) + DaysBeforeMonth(d.year, d.month) + d.day
  }

  lemma YearLength(y: int)
    ensures DaysBeforeYear(y + 1) - DaysBeforeYear(y) == if IsLeapYear(y) then 366 else 365
  {
    var leaps4 := y / 4 - (y - 1) / 4;
    var leaps100 := y / 100 - (y - 1) / 100;
    var leaps400 := y / 400 - (y - 1) / 400;
    assert leaps4 == if y % 4 == 0 then 1 else 0;
    assert leaps100 == if y % 100 == 0 then 1 else 0;
    assert leaps400 == if y % 400 == 0 then 1 else 0;
    assert y % 400 == 0 ==> y % 100 == 0 && y % 4 == 0;
    assert y % 100 == 0 ==> y % 4 == 0;
  }

  lemma MonthsFillYear(y: int)
    ensures DaysBeforeMonth(y, 12) + 31 == if IsLeapYear(y) then 366 else 365
  {
    assert DaysBeforeMonth(y, 2) == 31;
    assert DaysBeforeMonth(y, 3) == 31 + DaysInMonth(y, 2);
    assert DaysBeforeMonth(y, 4) == DaysBeforeMonth(y, 3) + 31;
    assert DaysBeforeMonth(y, 5) == DaysBeforeMonth(y, 4) + 30;
    assert DaysBeforeMonth(y, 6) == DaysBeforeMonth(y, 5) + 31;
    assert DaysBeforeMonth(y, 7) == DaysBeforeMonth(y, 6) + 30;
    assert DaysBeforeMonth(y, 8) == DaysBeforeMonth(y, 7) + 31;
    assert DaysBeforeMonth(y, 9) == DaysBeforeMonth(y, 8) + 31;
    assert DaysBeforeMonth(y, 10) == DaysBeforeMonth(y, 9) + 30;
    assert DaysBeforeMonth(y, 11) == DaysBeforeMonth(y, 10) + 31;
    assert DaysBeforeMonth(y, 12) == DaysBeforeMonth(y, 11) + 30;
  }

  lemma NextDayNumber(d: Date)
    requires ValidDate(d)
    ensures DayNumber(NextDay(d)) == DayNumber(d) + 1
  {
    if d.day == DaysInMonth(d.year, d.month) && d.month == 12 {
      YearLength(d.year);
      MonthsFillYear(d.year);
    }
  }

  lemma PrevDayNumber(d: Date)
    requires ValidDate(d)
    ensures DayNumber(PrevDay(d)) == DayNumber(d) - 1
  {
    if d.day == 1 && d.month == 1 {
      YearLength(d.year - 1);
      MonthsFillYear(d.year - 1);
    }
  }

  /** Stepping `k` days moves the ordinal by exactly `k`. */
  lemma {:induction false} AddDaysNumber(d: Date, k: int)
    requires ValidDate(d)
    ensures DayNumber(AddDays(d, k)) == DayNumber(d) + k
    decreases if k < 0 then -k else k
  {
    if k > 0 {
      NextDayNumber(d);
      AddDaysNumber(NextDay(d), k - 1);
    } else if k < 0 {
      PrevDayNumber(d);
      AddDaysNumber(PrevDay(d), k + 1);
    }
  }

  /** Python's `weekday()`: Monday is 0 and Sunday is 6; 0001-01-01 was a Monday. */
  function Weekday(d: Date): (w: int)
    requires ValidDate(d)
    ensures 0 <= w < 7
  {
    (DayNumber(d) + 6) % 7
  }

  /** The ordinal of 1970-01-01, day 0 of JavaScript's time value. */
  const UnixEpochDay: int := 719163

  /** JavaScript's `getDay()`: Sunday is 0; 1970-01-01 was a Thursday (4). */
  function JsDay(d: Date): (w: int)
    requires ValidDate(d)
    ensures 0 <= w < 7
  {
    (DayNumber(d) - UnixEpochDay + 4) % 7
  }

  lemma UnixEpochIsThursday()
    ensures DayNumber(Date(1970, 1, 1)) == UnixEpochDay
    ensures JsDay(Date(1970, 1, 1)) == 4 && Weekday(Date(1970, 1, 1)) == 3
  {
  }

  /** The two weekday numberings differ by the position of Sunday. */
  lemma JsDayIsShiftedWeekday(d: Date)
    requires ValidDate(d)
    ensures JsDay(d) == (Weekday(d) + 1) % 7
  {
  }

  lemma JsDayAfter(d: Date, k: int)
    requires ValidDate(d)
    ensures JsDay(AddDays(d, k)) == (JsDay(d) + k) % 7
  {
    AddDaysNumber(d, k);
    ModSevenShift(DayNumber(d) - UnixEpochDay + 4, k);
  }

  lemma WeekdayAfter(d: Date, k: int)
    requires ValidDate(d)
    ensures Weekday(AddDays(d, k)) == (Weekday(d) + k) % 7
  {
    AddDaysNumber(d, k);
    ModSevenShift(DayNumber(d) + 6, k);
  }

  lemma ModSevenShift(a: int, k: int)
    ensures (a + k) % 7 == (a % 7 + k) % 7
  {
    var q := a / 7;
    assert a == 7 * q + a % 7;
  }

  // ---------------------------------------------------------------------------
  // Order of instants

  /** Chronological order of dates: by year, then month, then day. */
  predicate DateBefore(a: Date, b: Date) {
    a.year < b.year
    || (a.year == b.year && (a.month < b.month || (a.month == b.month && a.day < b.day)))
  }

  /** `a < b` on `Date` objects in JavaScript and on `datetime` values in Python. */
  predicate Before(a: Instant, b: Instant) {
    DateBefore(a.date, b.date) || (a.date == b.date && a.time < b.time)
  }

  function AtMidnight(d: Date): Instant {
    Instant(d, 0)
  }

  /**
    The same time of day on the next date: `setDate(getDate() + 1)` on a JavaScript
    `Date`, `+ timedelta(days=1)` on a Python `datetime`.
  */
  function DayAfter(now: Instant): (r: Instant)
    requires ValidDate(now.date)
    ensures ValidDate(r.date) && DayNumber(r.date) == DayNumber(now.date) + 1 && r.time == now.time
    ensures Before(now, r)
  {
    NextDayNumber(now.date);
    Instant(NextDay(now.date), now.time)
  }

  // ---------------------------------------------------------------------------
  // Constructors

  /**
    JavaScript's `new Date(y, m0, d)` in local time: the month index `m0` is 0-based and
    may overflow into other years, and the day is counted from the first of that month,
    so impossible fields roll over into a real date instead of failing.
  */
  function JsNewDate(y: int, m0: int, d: int): (r: Date)
    ensures ValidDate(r)
  {
    AddDays(Date(y + m0 / 12, m0 % 12 + 1, 1), d - 1)
  }

  /**
    Python's `datetime(y, m, d)`: `None` stands for the `ValueError` it raises on every
    triple that is not a real date of the years 1 to 9999.
  */
  function PyDatetime(y: int, m: int, d: int): (r: Option<Date>)
    ensures r.Some? ==> ValidDate(r.value) && r.value == Date(y, m, d)
    ensures r.Some? <==> 1 <= y <= 9999 && ValidDate(Date(y, m, d))
  {
    if 1 <= y <= 9999 && 1 <= m <= 12 && 1 <= d <= DaysInMonth(y, m) then Some(Date(y, m, d)) else None
  }

  /**
    `new Date(y, m0, d)` lies `d - 1` days after the first of month `m0` counted from
    January of year `y`, whatever the fields: month 12 is January of the next year and
    day 0 the last day of the month before.
  */
  lemma JsNewDateCountsFromFirst(y: int, m0: int, d: int)
    ensures DayNumber(JsNewDate(y, m0, d)) == DayNumber(Date(y + m0 / 12, m0 % 12 + 1, 1)) + d - 1
  {
    AddDaysNumber(Date(y + m0 / 12, m0 % 12 + 1, 1), d - 1);
  }

  lemma {:induction false} AddDaysWithinMonth(y: int, m: int, j: int, k: nat)
    requires 1 <= m <= 12 && 1 <= j && j + k <= DaysInMonth(y, m)
    ensures AddDays(Date(y, m, j), k) == Date(y, m, j + k)
    decreases k
  {
    if k > 0 {
      AddDaysWithinMonth(y, m, j + 1, k - 1);
    }
  }

  lemma {:induction false} AddDaysSplit(d: Date, a: nat, b: nat)
    requires ValidDate(d)
    ensures AddDays(d, a + b) == AddDays(AddDays(d, a), b)
    decreases a
  {
    if a > 0 {
      AddDaysSplit(NextDay(d), a - 1, b);
    }
  }

  /** On a real date `new Date` is exact: no normalisation happens. */
  lemma JsNewDateExact(y: int, m0: int, d: int)
    requires 0 <= m0 < 12 && 1 <= d <= DaysInMonth(y, m0 + 1)
    ensures JsNewDate(y, m0, d) == Date(y, m0 + 1, d)
  {
    AddDaysWithinMonth(y, m0 + 1, 1, d - 1);
  }

  /**
    With a month index in range and a day of at most 31 the overflow reaches at most the
    first days of the next month, never the next year.
  */
  lemma JsNewDateKeepsYear(y: int, m0: int, d: int)
    requires 0 <= m0 < 12 && 1 <= d <= 31
    ensures JsNewDate(y, m0, d).year == y
  {
    var m := m0 + 1;
    var n := DaysInMonth(y, m);
    if d <= n {
      JsNewDateExact(y, m0, d);
    } else {
      AddDaysSplit(Date(y, m, 1), n - 1, d - n);
      AddDaysWithinMonth(y, m, 1, n - 1);
      AddDaysWithinMonth(y, m + 1, 1, d - n - 1);
    }
  }

  /** Wherever Python's constructor succeeds, JavaScript's yields the same date. */
  lemma PyDatetimeAgreesWithJs(y: int, m: int, d: int)
    requires PyDatetime(y, m, d).Some?
    ensures JsNewDate(y, m - 1, d) == PyDatetime(y, m, d).value
  {
    JsNewDateExact(y, m - 1, d);
  }
}
