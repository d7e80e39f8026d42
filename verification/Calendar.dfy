/** The proleptic Gregorian calendar as `time.Time` exposes it in a fixed-offset zone. A local
    time is a number of minutes since 0000-01-01T00:00; a day is a number of days since then. */
module Calendar {

  const MINUTES_PER_DAY: int := 1440

  predicate IsLeap(y: int) {
    y % 4 == 0 && (y % 100 != 0 || y % 400 == 0)
  }

  function YearLength(y: int): int {
    if IsLeap(y) then 366 else 365
  }

  /** Days from 0000-01-01 to January 1st of year y (negative before year 0). */
  function DaysBeforeYear(y: int): int
    decreases if y < 0 then -y else y
  {
    if y == 0 then 0
    else if y > 0 then DaysBeforeYear(y - 1) + YearLength(y - 1)
    else DaysBeforeYear(y + 1) - YearLength(y)
  }

  lemma NextYear(y: int)
    ensures DaysBeforeYear(y + 1) == DaysBeforeYear(y) + YearLength(y)
  {
  }

  /** Leap days of the years 0 .. y-1. */
  function LeapDays(y: int): int {
    (y + 3) / 4 - (y + 99) / 100 + (y + 399) / 400
  }

  lemma NextQuarter(y: int)
    ensures (y + 4) / 4 == (y + 3) / 4 + if y % 4 == 0 then 1 else 0
  {
  }

  lemma NextCentury(y: int)
    ensures (y + 100) / 100 == (y + 99) / 100 + if y % 100 == 0 then 1 else 0
  {
  }

  lemma NextCycle(y: int)
    ensures (y + 400) / 400 == (y + 399) / 400 + if y % 400 == 0 then 1 else 0
  {
  }

  lemma CycleIsCentury(y: int)
    requires y % 400 == 0
    ensures y % 100 == 0
  {
    var k := y / 400;
    assert y == 100 * (4 * k);
  }

  lemma CenturyIsQuarter(y: int)
    requires y % 100 == 0
    ensures y % 4 == 0
  {
    var k := y / 100;
    assert y == 4 * (25 * k);
  }

  lemma NextLeapDays(y: int)
    ensures LeapDays(y + 1) == LeapDays(y) + if IsLeap(y) then 1 else 0
  {
    NextQuarter(y);
    NextCentury(y);
    NextCycle(y);
    if y % 400 == 0 {
      CycleIsCentury(y);
    }
    if y % 100 == 0 {
      CenturyIsQuarter(y);
    }
  }

  /** The closed form: 365 days a year plus the leap days passed. */
  lemma {:induction false} DaysBeforeYearClosed(y: int)
    ensures DaysBeforeYear(y) == 365 * y + LeapDays(y)
    decreases if y < 0 then -y else y
  {
    if y > 0 {
      DaysBeforeYearClosed(y - 1);
      NextLeapDays(y - 1);
    } else if y < 0 {
      DaysBeforeYearClosed(y + 1);
      NextLeapDays(y);
    }
  }

  function DaysIn(y: int, m: int): int
    requires 1 <= m <= 12
  {
    if m == 2 then (if IsLeap(y) then 29 else 28)
    else if m == 4 || m == 6 || m == 9 || m == 11 then 30
    else 31
  }

  /** Days of year y before its month m; month 13 stands for the end of the year. */
  function DaysBeforeMonth(y: int, m: int): int
    requires 1 <= m <= 13
  {
    if m == 1 then 0 else DaysBeforeMonth(y, m - 1) + DaysIn(y, m - 1)
  }

  /** The cumulative month table of package time, in common years. */
  const DAYS_BEFORE: seq<int> := [0, 31, 59, 90, 120, 151, 181, 212, 243, 273, 304, 334, 365]

  /** Month starts agree with that table, one day later after February of a leap year. */
  lemma {:induction false} MonthTable(y: int, m: int)
    requires 1 <= m <= 13
    ensures DaysBeforeMonth(y, m) == DAYS_BEFORE[m - 1] + if m > 2 && IsLeap(y) then 1 else 0
  {
    if m > 1 {
      MonthTable(y, m - 1);
    }
  }

  lemma YearIsItsMonths(y: int)
    ensures DaysBeforeMonth(y, 13) == YearLength(y)
  {
    MonthTable(y, 13);
  }

  /** The day number of y-m-d; d may run past the month, as in time.Date. */
  function DayNumber(y: int, m: int, d: int): int
    requires 1 <= m <= 12
  {
    DaysBeforeYear(y) + DaysBeforeMonth(y, m) + d - 1
  }

  /** time.Date(y, m, d, h, mi, 0, 0, loc), normalising the day. */
  function Date(y: int, m: int, d: int, h: int, mi: int): int
    requires 1 <= m <= 12
  {
    DayNumber(y, m, d) * MINUTES_PER_DAY + h * 60 + mi
  }

  // ---------------------------------------------------------------------------------------
  // Reading a time
  // ---------------------------------------------------------------------------------------

  function FindYear(n: int, y: int): (r: int)
    ensures DaysBeforeYear(r) <= n < DaysBeforeYear(r + 1)
    decreases if n < DaysBeforeYear(y) then DaysBeforeYear(y) - n
              else if n >= DaysBeforeYear(y + 1) then n - DaysBeforeYear(y + 1) + 1 else 0
  {
    NextYear(y);
    NextYear(y - 1);
    NextYear(y + 1);
    if n < DaysBeforeYear(y) then FindYear(n, y - 1)
    else if n >= DaysBeforeYear(y + 1) then FindYear(n, y + 1)
    else y
  }

  function FindMonth(y: int, dayOfYear: int, m: int): (r: int)
    requires 1 <= m <= 12 && DaysBeforeMonth(y, m) <= dayOfYear < YearLength(y)
    ensures 1 <= r <= 12 && DaysBeforeMonth(y, r) <= dayOfYear < DaysBeforeMonth(y, r + 1)
    decreases 12 - m
  {
    YearIsItsMonths(y);
    if dayOfYear < DaysBeforeMonth(y, m + 1) then m else FindMonth(y, dayOfYear, m + 1)
  }

  function DayAt(t: int): int {
    t / MINUTES_PER_DAY
  }

  function Year(t: int): (y: int)
    ensures DaysBeforeYear(y) <= DayAt(t) < DaysBeforeYear(y + 1)
  {
    FindYear(DayAt(t), 0)
  }

  function Month(t: int): (m: int)
    ensures 1 <= m <= 12
    ensures var d := DayAt(t) - DaysBeforeYear(Year(t));
            DaysBeforeMonth(Year(t), m) <= d < DaysBeforeMonth(Year(t), m + 1)
  {
    NextYear(Year(t));
    FindMonth(Year(t), DayAt(t) - DaysBeforeYear(Year(t)), 1)
  }

  function Day(t: int): (d: int)
    ensures 1 <= d <= DaysIn(Year(t), Month(t)) <= 31
    ensures DayNumber(Year(t), Month(t), d) == DayAt(t)
  {
    DayAt(t) - DaysBeforeYear(Year(t)) - DaysBeforeMonth(Year(t), Month(t)) + 1
  }

  /** 0 = Sunday. January 1st of year 0 is a Saturday. */
  function Weekday(t: int): (w: int)
    ensures 0 <= w <= 6
  {
    (DayAt(t) + 6) % 7
  }

  function Hour(t: int): (h: int)
    ensures 0 <= h <= 23
  {
    t % MINUTES_PER_DAY / 60
  }

  function Minute(t: int): (m: int)
    ensures 0 <= m <= 59
  {
    t % 60
  }

  /** 1970-01-01 is day 719528, a Thursday. */
  lemma UnixEpoch()
    ensures DayNumber(1970, 1, 1) == 719528
    ensures Weekday(Date(1970, 1, 1, 0, 0)) == 4
  {
    DaysBeforeYearClosed(1970);
  }

  // ---------------------------------------------------------------------------------------
  // Taking a time apart and putting it together again
  // ---------------------------------------------------------------------------------------

  lemma ClockOfParts(n: int, h: int, mi: int)
    requires 0 <= h <= 23 && 0 <= mi <= 59
    ensures var t := n * MINUTES_PER_DAY + h * 60 + mi;
            DayAt(t) == n && Hour(t) == h && Minute(t) == mi
  {
    var t := n * MINUTES_PER_DAY + h * 60 + mi;
    assert t == MINUTES_PER_DAY * n + (h * 60 + mi);
    assert t == 60 * (24 * n + h) + mi;
  }

  lemma PartsOfClock(t: int)
    ensures DayAt(t) * MINUTES_PER_DAY + Hour(t) * 60 + Minute(t) == t
  {
    var n := DayAt(t);
    var r := t % MINUTES_PER_DAY;
    assert t == MINUTES_PER_DAY * n + r;
    assert t == 60 * (24 * n + r / 60) + r % 60;
    assert t % 60 == r % 60;
  }

  lemma DateOfParts(t: int)
    ensures Date(Year(t), Month(t), Day(t), Hour(t), Minute(t)) == t
  {
    PartsOfClock(t);
  }

  /** January 1sts are strictly ordered. */
  lemma {:induction false} YearsOrdered(a: int, b: int)
    requires a < b
    ensures DaysBeforeYear(a) + 365 * (b - a) <= DaysBeforeYear(b)
    decreases b - a
  {
    NextYear(b - 1);
    if a < b - 1 {
      YearsOrdered(a, b - 1);
    }
  }

  lemma YearUnique(n: int, y: int, z: int)
    requires DaysBeforeYear(y) <= n < DaysBeforeYear(y + 1)
    requires DaysBeforeYear(z) <= n < DaysBeforeYear(z + 1)
    ensures y == z
  {
    if y + 1 < z {
      YearsOrdered(y + 1, z);
    } else if z + 1 < y {
      YearsOrdered(z + 1, y);
    }
  }

  lemma {:induction false} MonthsOrdered(y: int, a: int, b: int)
    requires 1 <= a <= b <= 13
    ensures DaysBeforeMonth(y, a) + 28 * (b - a) <= DaysBeforeMonth(y, b)
    decreases b - a
  {
    if a < b {
      MonthsOrdered(y, a, b - 1);
    }
  }

  lemma MonthUnique(y: int, d: int, m: int, n: int)
    requires 1 <= m <= 12 && 1 <= n <= 12
    requires DaysBeforeMonth(y, m) <= d < DaysBeforeMonth(y, m + 1)
    requires DaysBeforeMonth(y, n) <= d < DaysBeforeMonth(y, n + 1)
    ensures m == n
  {
    if m < n {
      MonthsOrdered(y, m + 1, n);
    } else if n < m {
      MonthsOrdered(y, n + 1, m);
    }
  }

  /** Reading back what time.Date was given. */
  lemma PartsOfDate(y: int, m: int, d: int, h: int, mi: int)
    requires 1 <= m <= 12 && 1 <= d <= DaysIn(y, m) && 0 <= h <= 23 && 0 <= mi <= 59
    ensures var t := Date(y, m, d, h, mi);
            Year(t) == y && Month(t) == m && Day(t) == d && Hour(t) == h && Minute(t) == mi
  {
    var t := Date(y, m, d, h, mi);
    var n := DayNumber(y, m, d);
    ClockOfParts(n, h, mi);
    NextYear(y);
    YearIsItsMonths(y);
    MonthsOrdered(y, 1, m);
    MonthsOrdered(y, m + 1, 13);
    YearUnique(n, Year(t), y);
    MonthUnique(y, n - DaysBeforeYear(y), Month(t), m);
  }
}
