/** Proleptic Gregorian calendar records standing in for Python's naive
    `date` and `datetime` (microseconds and time zones are not modelled).

    Arithmetic here is total; whether a record is a date Python can build
    (years 1..9999, a real month and day) is the separate predicate
    `ValidDate`, checked where the source constructs a `datetime`. */
module Calendar {
  import opened Wrappers

  const MinYear: int := 1
  const MaxYear: int := 9999

  datatype Date = Date(year: int, month: int, day: int)

  datatype DateTime = DateTime(date: Date, hour: int, minute: int, second: int)

  predicate IsLeapYear(y: int) {
    (y % 4 == 0 && y % 100 != 0) || y % 400 == 0
  }

  /** Days in month `m` of year `y`: `calendar.monthrange(y, m)[1]`. */
  function DaysInMonth(y: int, m: int): (n: int)
    requires 1 <= m <= 12
    ensures 28 <= n <= 31
    ensures m == 2 ==> (n == 29 <==> IsLeapYear(y))
  {
    if m == 2 then (if IsLeapYear(y) then 29 else 28)
    else if m == 4 || m == 6 || m == 9 || m == 11 then 30
    else 31
  }

  predicate ValidDate(d: Date) {
    && MinYear <= d.year <= MaxYear
    && 1 <= d.month <= 12
    && 1 <= d.day <= DaysInMonth(d.year, d.month)
  }

  predicate ValidDateTime(t: DateTime) {
    && ValidDate(t.date)
    && 0 <= t.hour < 24
    && 0 <= t.minute < 60
    && 0 <= t.second < 60
  }

  function Midnight(d: Date): DateTime {
    DateTime(d, 0, 0, 0)
  }

  predicate IsMidnight(t: DateTime) {
    t.hour == 0 && t.minute == 0 && t.second == 0
  }

  /** `datetime(y, m, d)`: a `ValueError` unless the fields name a real day. */
  function MakeDate(y: int, m: int, d: int): (r: Result<Date>)
    ensures r.Ok? <==> ValidDate(Date(y, m, d))
    ensures r.Ok? ==> r.value == Date(y, m, d)
    ensures r.Err? ==> r.error.ValueError?
  {
    if ValidDate(Date(y, m, d)) then Ok(Date(y, m, d))
    else Err(ValueError("day is out of range for month"))
  }

  // ---------------------------------------------------------------------
  // Ordering (Python compares dates and datetimes chronologically)

  predicate DateLess(a: Date, b: Date) {
    a.year < b.year
    || (a.year == b.year && a.month < b.month)
    || (a.year == b.year && a.month == b.month && a.day < b.day)
  }

  predicate TimeOfDayLess(a: DateTime, b: DateTime) {
    a.hour < b.hour
    || (a.hour == b.hour && a.minute < b.minute)
    || (a.hour == b.hour && a.minute == b.minute && a.second < b.second)
  }

  predicate Less(a: DateTime, b: DateTime) {
    DateLess(a.date, b.date) || (a.date == b.date && TimeOfDayLess(a, b))
  }

  predicate LessEq(a: DateTime, b: DateTime) {
    a == b || Less(a, b)
  }

  lemma LessIsStrictTotalOrder(a: DateTime, b: DateTime, c: DateTime)
    ensures !Less(a, a)
    ensures Less(a, b) ==> !Less(b, a)
    ensures Less(a, b) && Less(b, c) ==> Less(a, c)
    ensures a == b || Less(a, b) || Less(b, a)
  {
  }

  function Min(a: DateTime, b: DateTime): (m: DateTime)
    ensures m == a || m == b
    ensures LessEq(m, a) && LessEq(m, b)
  {
    if Less(b, a) then b else a
  }

  function Max(a: DateTime, b: DateTime): (m: DateTime)
    ensures m == a || m == b
    ensures LessEq(a, m) && LessEq(b, m)
  {
    if Less(a, b) then b else a
  }

  // ---------------------------------------------------------------------
  // Day numbers: a day count from 0001-01-01, used to step through ranges

  function DaysInYear(y: int): int {
    if IsLeapYear(y) then 366 else 365
  }

  /** Days in the years `1 .. y-1`. */
  function DaysBeforeYear(y: int): nat
    requires y >= 1
  {
    if y == 1 then 0 else DaysBeforeYear(y - 1) + DaysInYear(y - 1)
  }

  /** Days in the months `1 .. m-1` of year `y`. */
  function DaysBeforeMonth(y: int, m: int): nat
    requires 1 <= m <= 13
  {
    if m == 1 then 0 else DaysBeforeMonth(y, m - 1) + DaysInMonth(y, m - 1)
  }

  lemma {:induction false} DaysBeforeMonthBound(y: int, m: int)
    requires 1 <= m <= 12
    ensures DaysBeforeMonth(y, m) + DaysInMonth(y, m) <= DaysInYear(y)
  {
    AllMonthsFillYear(y);
    DaysBeforeMonthMono(y, m + 1, 13);
  }

  lemma AllMonthsFillYear(y: int)
    ensures DaysBeforeMonth(y, 13) == DaysInYear(y)
  {
    var feb := DaysInMonth(y, 2);
    assert DaysBeforeMonth(y, 2) == 31;
    assert DaysBeforeMonth(y, 3) == 31 + feb;
    assert DaysBeforeMonth(y, 4) == 62 + feb;
    assert DaysBeforeMonth(y, 5) == 92 + feb;
    assert DaysBeforeMonth(y, 6) == 123 + feb;
    assert DaysBeforeMonth(y, 7) == 153 + feb;
    assert DaysBeforeMonth(y, 8) == 184 + feb;
    assert DaysBeforeMonth(y, 9) == 215 + feb;
    assert DaysBeforeMonth(y, 10) == 245 + feb;
    assert DaysBeforeMonth(y, 11) == 276 + feb;
    assert DaysBeforeMonth(y, 12) == 306 + feb;
  }

  lemma {:induction false} DaysBeforeMonthMono(y: int, m: int, n: int)
    requires 1 <= m <= n <= 13
    ensures DaysBeforeMonth(y, m) <= DaysBeforeMonth(y, n)
    decreases n - m
  {
    if m < n {
      DaysBeforeMonthMono(y, m, n - 1);
    }
  }

  lemma {:induction false} DaysBeforeYearMono(y: int, z: int)
    requires 1 <= y <= z
    ensures DaysBeforeYear(y) + (if y < z then DaysInYear(y) else 0) <= DaysBeforeYear(z)
    decreases z - y
  {
    if y < z - 1 {
      DaysBeforeYearMono(y, z - 1);
    }
  }

  function DayNumber(d: Date): int
    requires ValidDate(d)
  {
    DaysBeforeYear(d.year) + DaysBeforeMonth(d.year, d.month) + d.day
  }

  /** January 1st of the next year comes a year's days later. */
  lemma NewYearDayNumber(y: int)
    requires MinYear <= y < MaxYear
    ensures ValidDate(Date(y, 1, 1)) && ValidDate(Date(y + 1, 1, 1))
    ensures DayNumber(Date(y + 1, 1, 1)) == DayNumber(Date(y, 1, 1)) + DaysInYear(y)
  {
  }

  /** The calendar day after `d`; its year may pass `MaxYear`. */
  function NextDay(d: Date): (n: Date)
    requires ValidDate(d)
    ensures DateLess(d, n)
    ensures n.year <= MaxYear ==> ValidDate(n)
    ensures n.year <= MaxYear ==> DayNumber(n) == DayNumber(d) + 1
  {
    if d.day < DaysInMonth(d.year, d.month) then
      Date(d.year, d.month, d.day + 1)
    else if d.month < 12 then
      MonthEnd(d);
      Date(d.year, d.month + 1, 1)
    else
      YearEnd(d);
      Date(d.year + 1, 1, 1)
  }

  /** The last day of a month other than December is followed by the first
      of the next month. */
  lemma MonthEnd(d: Date)
    requires ValidDate(d) && d.day == DaysInMonth(d.year, d.month) && d.month < 12
    ensures ValidDate(Date(d.year, d.month + 1, 1))
    ensures DayNumber(Date(d.year, d.month + 1, 1)) == DayNumber(d) + 1
  {
    assert DaysBeforeMonth(d.year, d.month + 1) == DaysBeforeMonth(d.year, d.month) + d.day;
    hide DaysInMonth, DaysBeforeMonth;
  }

  /** December 31st is followed by January 1st of the next year. */
  lemma YearEnd(d: Date)
    requires ValidDate(d) && d.day == DaysInMonth(d.year, d.month) && d.month == 12
    ensures d.year + 1 <= MaxYear ==> ValidDate(Date(d.year + 1, 1, 1))
    ensures d.year + 1 <= MaxYear ==> DayNumber(Date(d.year + 1, 1, 1)) == DayNumber(d) + 1
  {
    AllMonthsFillYear(d.year);
    assert DaysBeforeMonth(d.year, 13) == DaysBeforeMonth(d.year, 12) + d.day;
    hide DaysInMonth, DaysBeforeMonth;
    assert DaysBeforeYear(d.year + 1) == DaysBeforeYear(d.year) + DaysInYear(d.year);
  }

  /** Chronological order of valid dates is the order of their day numbers. */
  lemma {:induction false} DayNumberMonotone(a: Date, b: Date)
    requires ValidDate(a) && ValidDate(b)
    ensures DateLess(a, b) ==> DayNumber(a) < DayNumber(b)
  {
    if a.year < b.year {
      DaysBeforeMonthBound(a.year, a.month);
      DaysBeforeYearMono(a.year, b.year);
    } else if a.year == b.year && a.month < b.month {
      DaysBeforeMonthBound(a.year, a.month);
      DaysBeforeMonthMono(a.year, a.month + 1, b.month);
    }
  }

  lemma DayNumberInjective(a: Date, b: Date)
    requires ValidDate(a) && ValidDate(b)
    ensures DayNumber(a) == DayNumber(b) <==> a == b
    ensures DateLess(a, b) <==> DayNumber(a) < DayNumber(b)
  {
    DayNumberMonotone(a, b);
    DayNumberMonotone(b, a);
  }

  /** `d + timedelta(days=1)`: an `OverflowError` past 9999-12-31. */
  function AddOneDay(d: Date): (r: Result<Date>)
    requires ValidDate(d)
    ensures r.Ok? ==> ValidDate(r.value) && DayNumber(r.value) == DayNumber(d) + 1
    ensures r.Err? <==> d == Date(MaxYear, 12, 31)
  {
    var n := NextDay(d);
    if n.year <= MaxYear then Ok(n) else Err(OverflowError)
  }

  /** `t + timedelta(seconds=1)`, carrying into the next day. */
  function AddOneSecond(t: DateTime): (r: Result<DateTime>)
    requires ValidDateTime(t)
    ensures r.Ok? ==> ValidDateTime(r.value) && Less(t, r.value)
    ensures r.Ok? && !(t.hour == 23 && t.minute == 59 && t.second == 59) ==>
              r.value.date == t.date
    ensures r.Err? <==> t == DateTime(Date(MaxYear, 12, 31), 23, 59, 59)
  {
    if t.second < 59 then Ok(DateTime(t.date, t.hour, t.minute, t.second + 1))
    else if t.minute < 59 then Ok(DateTime(t.date, t.hour, t.minute + 1, 0))
    else if t.hour < 23 then Ok(DateTime(t.date, t.hour + 1, 0, 0))
    else
      match AddOneDay(t.date)
      case Ok(n) => Ok(Midnight(n))
      case Err(e) => Err(e)
  }

  // ---------------------------------------------------------------------
  // Month arithmetic

  /** `_utils._next_month` / `next_date`: the first of the following month,
      December rolling over to January of the next year. */
  function NextMonthStart(d: Date): (r: Result<Date>)
    requires ValidDate(d)
    ensures r.Ok? ==> ValidDate(r.value) && r.value.day == 1 && DateLess(d, r.value)
    ensures r.Ok? ==> (if d.month == 12 then r.value.year == d.year + 1 && r.value.month == 1
                       else r.value.year == d.year && r.value.month == d.month + 1)
    ensures r.Err? <==> d.year == MaxYear && d.month == 12
  {
    if d.month == 12 then MakeDate(d.year + 1, 1, 1)
    else MakeDate(d.year, d.month + 1, 1)
  }

  /** The last day of a month. */
  function MonthEndDay(y: int, m: int): Date
    requires 1 <= m <= 12
  {
    Date(y, m, DaysInMonth(y, m))
  }

  /** The last day of a month is the day before the first of the next one. */
  lemma MonthEndPrecedesNextMonth(y: int, m: int)
    requires MinYear <= y <= MaxYear && 1 <= m <= 12
    requires !(y == MaxYear && m == 12)
    ensures ValidDate(MonthEndDay(y, m))
    ensures NextMonthStart(MonthEndDay(y, m)).Ok?
    ensures NextDay(MonthEndDay(y, m)) == NextMonthStart(MonthEndDay(y, m)).value
  {
  }

  /** `t + relativedelta(months=k)`: shift the month, clamp the day to the
      length of the new month, keep the time of day. */
  function AddMonths(t: DateTime, k: int): (r: Result<DateTime>)
    requires ValidDateTime(t)
    ensures r.Ok? ==> ValidDateTime(r.value)
    ensures r.Ok? ==> r.value.date.day <= t.date.day
    ensures r.Ok? ==> (r.value.date.year * 12 + r.value.date.month)
                      == (t.date.year * 12 + t.date.month) + k
    ensures r.Ok? ==> r.value.hour == t.hour && r.value.minute == t.minute
                      && r.value.second == t.second
    ensures r.Ok? ==> r.value.date.day == t.date.day
                      || (r.value.date.day == DaysInMonth(r.value.date.year, r.value.date.month)
                          && t.date.day > r.value.date.day)
    ensures r.Ok? <==> MinYear * 12 <= t.date.year * 12 + (t.date.month - 1) + k < (MaxYear + 1) * 12
    ensures r.Err? ==> r.error.ValueError?
  {
    var months := t.date.year * 12 + (t.date.month - 1) + k;
    var y := months / 12;
    var m := months % 12 + 1;
    var day := if t.date.day < DaysInMonth(y, m) then t.date.day else DaysInMonth(y, m);
    if MinYear <= y <= MaxYear then
      Ok(DateTime(Date(y, m, day), t.hour, t.minute, t.second))
    else
      Err(ValueError("year is out of range"))
  }
}
