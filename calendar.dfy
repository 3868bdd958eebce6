/** The parts of JavaScript's `Date` the script relies on: a timestamp, its
    local calendar date, weekday, hour and minute, and "the same time on the
    next calendar day". Local time is UTC shifted by a fixed zone offset; the
    calendar is the proleptic Gregorian one `Date` uses. */
module Calendar {

  /** Milliseconds since 1970-01-01T00:00:00Z: what `new Date(s)` holds and
      what `a - b` subtracts for two dates. */
  type Timestamp = int

  const MinuteMs: int := 60_000
  const HourMs: int := 3_600_000
  const DayMs: int := 86_400_000

  /** What `new Date()` reads from the host: the current instant and the local
      zone's offset from UTC, in milliseconds. */
  datatype Clock = Clock(now: Timestamp, zoneOffset: int)

  /** A local calendar date as `getFullYear()`, `getMonth()` (0 = January)
      and `getDate()` (1-based) return it. */
  datatype Date = Date(year: int, month: int, day: int)

  /** Days since 1970-01-01 of the local calendar day holding `t`. */
  function LocalDay(t: Timestamp, zoneOffset: int): int {
    (t + zoneOffset) / DayMs
  }

  /** Milliseconds since local midnight. */
  function LocalTimeOfDay(t: Timestamp, zoneOffset: int): (ms: int)
    ensures 0 <= ms < DayMs
  {
    (t + zoneOffset) % DayMs
  }

  /** `getHours()`. */
  function Hours(t: Timestamp, zoneOffset: int): (h: int)
    ensures 0 <= h < 24
  {
    LocalTimeOfDay(t, zoneOffset) / HourMs
  }

  /** `getMinutes()`. */
  function Minutes(t: Timestamp, zoneOffset: int): (m: int)
    ensures 0 <= m < 60
  {
    LocalTimeOfDay(t, zoneOffset) % HourMs / MinuteMs
  }

  /** `getDay()`: 0 is Sunday and 6 is Saturday; 1970-01-01 was a Thursday. */
  function Weekday(t: Timestamp, zoneOffset: int): (w: int)
    ensures 0 <= w < 7
  {
    (LocalDay(t, zoneOffset) + 4) % 7
  }

  predicate IsLeapYear(y: int) {
    y % 4 == 0 && (y % 100 != 0 || y % 400 == 0)
  }

  function DaysInYear(y: int): int {
    if IsLeapYear(y) then 366 else 365
  }

  function DaysInMonth(y: int, m: int): int
    requires 0 <= m < 12
  {
    if m == 1 then (if IsLeapYear(y) then 29 else 28)
    else if m == 3 || m == 5 || m == 8 || m == 10 then 30
    else 31
  }

  /** Days from 1970-01-01 to January 1st of year `y` (negative before 1970). */
  function YearStart(y: int): int
    decreases if y < 1970 then 1970 - y else y - 1970
  {
    if y == 1970 then 0
    else if y > 1970 then YearStart(y - 1) + DaysInYear(y - 1)
    else YearStart(y + 1) - DaysInYear(y)
  }

  lemma YearStartNext(y: int)
    ensures YearStart(y + 1) == YearStart(y) + DaysInYear(y)
  {
  }

  /** Days from January 1st to the first day of month `m` of year `y`. */
  function MonthStart(y: int, m: int): int
    requires 0 <= m <= 12
  {
    if m == 0 then 0 else MonthStart(y, m - 1) + DaysInMonth(y, m - 1)
  }

  /** The twelve months fill the year exactly. */
  lemma MonthsFillYear(y: int)
    ensures MonthStart(y, 12) == DaysInYear(y)
  {
    var feb := DaysInMonth(y, 1);
    assert MonthStart(y, 1) == 31;
    assert MonthStart(y, 2) == 31 + feb;
    assert MonthStart(y, 3) == 62 + feb;
    assert MonthStart(y, 4) == 92 + feb;
    assert MonthStart(y, 5) == 123 + feb;
    assert MonthStart(y, 6) == 153 + feb;
    assert MonthStart(y, 7) == 184 + feb;
    assert MonthStart(y, 8) == 215 + feb;
    assert MonthStart(y, 9) == 245 + feb;
    assert MonthStart(y, 10) == 276 + feb;
    assert MonthStart(y, 11) == 306 + feb;
  }

  /** Day number of a calendar date: the inverse of `DateOfDay`. */
  function DayNumber(d: Date): int
    requires 0 <= d.month < 12
  {
    YearStart(d.year) + MonthStart(d.year, d.month) + d.day - 1
  }

  /** Year `r.0` and day of that year `r.1` of the day `d` days after January
      1st of year `y` (`d` may be negative or exceed the year). */
  function LocateYear(y: int, d: int): (r: (int, int))
    ensures 0 <= r.1 < DaysInYear(r.0)
    ensures YearStart(r.0) + r.1 == YearStart(y) + d
    decreases if d < 0 then 1 else 0, if d < 0 then -d else d
  {
    if d < 0 then
      YearStartNext(y - 1);
      LocateYear(y - 1, d + DaysInYear(y - 1))
    else if d >= DaysInYear(y) then
      YearStartNext(y);
      LocateYear(y + 1, d - DaysInYear(y))
    else
      (y, d)
  }

  /** Year starts grow: every year after `a` starts after `a` ends. */
  lemma {:induction false} YearStartGrows(a: int, b: int)
    requires a < b
    ensures YearStart(b) >= YearStart(a) + DaysInYear(a)
    decreases b - a
  {
    YearStartNext(a);
    if b > a + 1 {
      YearStartGrows(a + 1, b);
      YearStartNext(b - 1);
    }
  }

  /** A day number has only one (year, day-of-year) pair, so the result of
      `LocateYear` is the only one its contract admits. */
  lemma YearOfDayUnique(y1: int, d1: int, y2: int, d2: int)
    requires 0 <= d1 < DaysInYear(y1) && 0 <= d2 < DaysInYear(y2)
    requires YearStart(y1) + d1 == YearStart(y2) + d2
    ensures y1 == y2 && d1 == d2
  {
    if y1 < y2 {
      YearStartGrows(y1, y2);
    } else if y2 < y1 {
      YearStartGrows(y2, y1);
    }
  }

  /** Month and day of month of day `doy` (0-based) of year `y`, searching
      from month `m` onwards. */
  function LocateMonth(y: int, doy: int, m: int): (r: (int, int))
    requires 0 <= m < 12 && MonthStart(y, m) <= doy < DaysInYear(y)
    ensures 0 <= r.0 < 12 && 1 <= r.1 <= DaysInMonth(y, r.0)
    ensures MonthStart(y, r.0) + r.1 - 1 == doy
    decreases 12 - m
  {
    if m == 11 then
      MonthsFillYear(y);
      (m, doy - MonthStart(y, m) + 1)
    else if doy < MonthStart(y, m + 1) then
      (m, doy - MonthStart(y, m) + 1)
    else
      LocateMonth(y, doy, m + 1)
  }

  /** The calendar date of day number `n` (days since 1970-01-01). */
  function DateOfDay(n: int): (d: Date)
    ensures 0 <= d.month < 12 && 1 <= d.day <= DaysInMonth(d.year, d.month)
    ensures DayNumber(d) == n
  {
    var (y, doy) := LocateYear(1970, n);
    var (m, day) := LocateMonth(y, doy, 0);
    Date(y, m, day)
  }

  /** The local calendar date of `t`: a valid date whose day number is the
      local day of `t`. */
  function LocalDate(t: Timestamp, zoneOffset: int): (d: Date)
    ensures 0 <= d.month < 12 && 1 <= d.day <= DaysInMonth(d.year, d.month)
    ensures DayNumber(d) == LocalDay(t, zoneOffset)
  {
    DateOfDay(LocalDay(t, zoneOffset))
  }

  /** `isSameDay(a, b)`: year, month and day of month agree, compared one
      component at a time. That happens exactly when the two instants have
      the same local day number. */
  predicate IsSameDay(a: Timestamp, b: Timestamp, zoneOffset: int)
    ensures IsSameDay(a, b, zoneOffset) <==> LocalDay(a, zoneOffset) == LocalDay(b, zoneOffset)
  {
    var da := LocalDate(a, zoneOffset);
    var db := LocalDate(b, zoneOffset);
    da.year == db.year && da.month == db.month && da.day == db.day
  }

  /** `t.setDate(t.getDate() + 1)` on a copy of `now`: the same local time of
      day on the next calendar day, in every zone (a fixed offset has no
      daylight-saving change in between). */
  function NextDay(now: Timestamp): (t: Timestamp)
    ensures forall zoneOffset :: LocalDay(t, zoneOffset) == LocalDay(now, zoneOffset) + 1
    ensures forall zoneOffset :: LocalTimeOfDay(t, zoneOffset) == LocalTimeOfDay(now, zoneOffset)
  {
    now + DayMs
  }

  /** No instant is both on the day of `now` and on the day after it. */
  lemma TodayAndTomorrowDisjoint(t: Timestamp, now: Timestamp, zoneOffset: int)
    ensures !(IsSameDay(t, now, zoneOffset) && IsSameDay(t, NextDay(now), zoneOffset))
  {
  }

  /** Saturday and Sunday are the only weekdays 6 and 0, and they are
      consecutive days: a Saturday is followed by a Sunday. */
  lemma SaturdayThenSunday(t: Timestamp, zoneOffset: int)
    requires Weekday(t, zoneOffset) == 6
    ensures Weekday(NextDay(t), zoneOffset) == 0
  {
  }
}
