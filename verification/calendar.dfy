/** Python's naive `datetime`: a proleptic Gregorian date and a time of day
    with microseconds, plus the integer timeline the analyzer's subtractions
    (`now - timestamp`, `current_time - file_date`) take place on. */
module Calendar {

  const MicrosPerSecond: int := 1_000_000
  const MicrosPerDay: int := 86_400_000_000

  datatype DateTime = DateTime(year: int, month: int, day: int,
                               hour: int, minute: int, second: int, micro: int)

  predicate IsLeap(y: int) {
    y % 4 == 0 && (y % 100 != 0 || y % 400 == 0)
  }

  function DaysInMonth(y: int, m: int): (n: int)
    requires 1 <= m <= 12
    ensures 28 <= n <= 31
    ensures m == 2 ==> (n == 29 <==> IsLeap(y))
  {
    if m == 2 then (if IsLeap(y) then 29 else 28)
    else if m == 4 || m == 6 || m == 9 || m == 11 then 30
    else 31
  }

  /** A calendar date `datetime` accepts: years 1 to 9999 and a day that
      exists in its month. */
  predicate ValidDate(y: int, m: int, d: int) {
    1 <= y <= 9999 && 1 <= m <= 12 && 1 <= d <= DaysInMonth(y, m)
  }

  /** The values the `datetime` constructor accepts. */
  predicate Valid(t: DateTime) {
    && ValidDate(t.year, t.month, t.day)
    && 0 <= t.hour < 24
    && 0 <= t.minute < 60
    && 0 <= t.second < 60
    && 0 <= t.micro < MicrosPerSecond
  }

  /** Days in the years before `y`, counted from 1 January of year 1. */
  function DaysBeforeYear(y: int): int
    requires y >= 1
  {
    var p := y - 1;
    p * 365 + p / 4 - p / 100 + p / 400
  }

  /** Days in the months of year `y` before month `m`. */
  function DaysBeforeMonth(y: int, m: int): int
    requires 1 <= m <= 12
  {
    [0, 31, 59, 90, 120, 151, 181, 212, 243, 273, 304, 334][m - 1]
      + (if m > 2 && IsLeap(y) then 1 else 0)
  }

  /** The proleptic Gregorian ordinal of the date of `t`; 1 January of
      year 1 is day 1. */
  function Ordinal(t: DateTime): int
    requires t.year >= 1 && 1 <= t.month <= 12
  {
    DaysBeforeYear(t.year) + DaysBeforeMonth(t.year, t.month) + t.day
  }

  /** Microseconds since midnight. */
  function TimeOfDay(t: DateTime): int {
    ((t.hour * 60 + t.minute) * 60 + t.second) * MicrosPerSecond + t.micro
  }

  /** The instant `t` on the microsecond timeline. */
  function Micros(t: DateTime): (r: int)
    requires Valid(t)
    ensures Ordinal(t) * MicrosPerDay <= r < (Ordinal(t) + 1) * MicrosPerDay
  {
    TimeOfDayBounds(t);
    Ordinal(t) * MicrosPerDay + TimeOfDay(t)
  }

  lemma TimeOfDayBounds(t: DateTime)
    requires Valid(t)
    ensures 0 <= TimeOfDay(t) < MicrosPerDay
  {
    var secs := (t.hour * 60 + t.minute) * 60 + t.second;
    assert 0 <= secs < 86_400;
  }

  /** Midnight at the start of the day of `t`, what `strptime` yields for a
      date without a time. */
  function Midnight(t: DateTime): DateTime {
    t.(hour := 0, minute := 0, second := 0, micro := 0)
  }

  /** The calendar day after the date of `t`, at midnight. */
  function NextDay(t: DateTime): (n: DateTime)
    requires ValidDate(t.year, t.month, t.day)
    ensures n.year >= 1 && 1 <= n.month <= 12 && 1 <= n.day <= DaysInMonth(n.year, n.month)
  {
    if t.day < DaysInMonth(t.year, t.month) then Midnight(t.(day := t.day + 1))
    else if t.month < 12 then Midnight(t.(month := t.month + 1, day := 1))
    else DateTime(t.year + 1, 1, 1, 0, 0, 0, 0)
  }

  /** Ordinals number the days consecutively: the day after a date has the
      next ordinal, across month ends, year ends and leap days. */
  lemma NextDayOrdinal(t: DateTime)
    requires ValidDate(t.year, t.month, t.day)
    ensures Ordinal(NextDay(t)) == Ordinal(t) + 1
  {
    if t.day == DaysInMonth(t.year, t.month) && t.month == 12 {
      YearLength(t.year);
    }
  }

  /** A year has 366 days exactly when it is a leap year. */
  lemma YearLength(y: int)
    requires y >= 1
    ensures DaysBeforeYear(y + 1) - DaysBeforeYear(y) == if IsLeap(y) then 366 else 365
  {
    StepOver4(y);
    StepOver100(y);
    StepOver400(y);
    DivisorsNest(y);
    assert DaysBeforeYear(y + 1) - DaysBeforeYear(y)
        == 365 + (y / 4 - (y - 1) / 4) - (y / 100 - (y - 1) / 100) + (y / 400 - (y - 1) / 400);
  }

  /** Multiples of 400 are multiples of 100, which are multiples of 4. */
  lemma DivisorsNest(y: int)
    ensures y % 400 == 0 ==> y % 100 == 0
    ensures y % 100 == 0 ==> y % 4 == 0
  {
    if y % 400 == 0 {
      MultipleOf400(y);
    }
    if y % 100 == 0 {
      MultipleOf100(y);
    }
  }

  lemma MultipleOf400(y: int)
    requires y % 400 == 0
    ensures y % 100 == 0
  {
    var k := y / 400;
    assert y == 100 * (4 * k);
  }

  lemma MultipleOf100(y: int)
    requires y % 100 == 0
    ensures y % 4 == 0
  {
    var k := y / 100;
    assert y == 4 * (25 * k);
  }

  /** From `y - 1` to `y` the quotient by 4, 100 or 400 grows by one exactly
      when the divisor divides `y`. */
  lemma StepOver4(y: int)
    ensures y / 4 - (y - 1) / 4 == if y % 4 == 0 then 1 else 0
  {
  }

  lemma StepOver100(y: int)
    ensures y / 100 - (y - 1) / 100 == if y % 100 == 0 then 1 else 0
  {
  }

  lemma StepOver400(y: int)
    ensures y / 400 - (y - 1) / 400 == if y % 400 == 0 then 1 else 0
  {
  }

  /** Whole days from midnight of `d` to `now`, as Python's
      `(now - d).days`: floor division of the difference, so a date after
      `now` yields a negative count. */
  function DaysBetween(d: DateTime, now: DateTime): (n: int)
    requires Valid(d) && Valid(now)
    ensures n * MicrosPerDay <= Micros(now) - Micros(d) < (n + 1) * MicrosPerDay
    ensures Ordinal(now) - Ordinal(d) - 1 <= n <= Ordinal(now) - Ordinal(d)
  {
    (Micros(now) - Micros(d)) / MicrosPerDay
  }

  /** For a midnight `d`, the whole-day count is the difference of the
      calendar dates, whatever the time of day of `now`. */
  lemma DaysBetweenMidnight(d: DateTime, now: DateTime)
    requires Valid(d) && Valid(now) && d == Midnight(d)
    ensures DaysBetween(d, now) == Ordinal(now) - Ordinal(d)
  {
    TimeOfDayBounds(now);
    var q := Ordinal(now) - Ordinal(d);
    var x := Micros(now) - Micros(d);
    assert x == q * MicrosPerDay + TimeOfDay(now);
    assert x / MicrosPerDay == q;
  }
}
