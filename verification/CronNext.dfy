/** CronSchedule.Next: a search that skips months, days and hours, against a minute-by-minute
    scan of the calendar. Times are local minutes of a fixed-offset zone. */
module CronNext {
  import opened Wrappers
  import opened CronText
  import opened Calendar
  import opened CronParser
  import CronLaws

  const WINDOW: int := 4 * 365 * MINUTES_PER_DAY

  /** Every field allows its part of the time; both day fields have to. */
  predicate Matches(cs: CronSchedule, t: int)
    requires cs.WellFormed()
  {
    && cs.months[Month(t)]
    && DayMatches(cs, t)
    && cs.hours[Hour(t)]
    && cs.minutes[Minute(t)]
  }

  predicate DayMatches(cs: CronSchedule, t: int)
    requires cs.WellFormed()
  {
    cs.days[Day(t)] && cs.weekdays[Weekday(t)]
  }

  /** The reference: look at every minute from `t` to before `limit`. */
  function Scan(cs: CronSchedule, t: int, limit: int): Option<int>
    requires cs.WellFormed()
    decreases limit - t
  {
    if t >= limit then None
    else if Matches(cs, t) then Some(t)
    else Scan(cs, t + 1, limit)
  }

  /** No minute of [a, b) matches. */
  ghost predicate Barren(cs: CronSchedule, a: int, b: int)
    requires cs.WellFormed()
  {
    forall u :: a <= u < b ==> !Matches(cs, u)
  }

  /** A scan finds the least matching minute of its window, if there is one. */
  lemma {:induction false} ScanIsLeast(cs: CronSchedule, t: int, limit: int)
    requires cs.WellFormed()
    ensures match Scan(cs, t, limit)
            case Some(r) => t <= r < limit && Matches(cs, r) && Barren(cs, t, r)
            case None => Barren(cs, t, limit)
    decreases limit - t
  {
    if t < limit && !Matches(cs, t) {
      ScanIsLeast(cs, t + 1, limit);
      var r := Scan(cs, t + 1, limit);
      BarrenExtends(cs, t, if r.Some? then r.value else limit);
    }
  }

  lemma BarrenTail(cs: CronSchedule, t: int, s: int)
    requires cs.WellFormed() && t < s && Barren(cs, t, s)
    ensures !Matches(cs, t) && Barren(cs, t + 1, s)
  {
  }

  lemma BarrenExtends(cs: CronSchedule, t: int, b: int)
    requires cs.WellFormed() && !Matches(cs, t) && Barren(cs, t + 1, b)
    ensures Barren(cs, t, b)
  {
  }

  lemma ScanStep(cs: CronSchedule, t: int, limit: int)
    requires cs.WellFormed() && !Matches(cs, t)
    ensures Scan(cs, t, limit) == Scan(cs, t + 1, limit)
  {
  }

  /** Nothing in [t, s) matches, so a scan may as well start at s. */
  lemma {:induction false} ScanSkips(cs: CronSchedule, t: int, s: int, limit: int)
    requires cs.WellFormed() && t <= s && Barren(cs, t, s)
    ensures Scan(cs, t, limit) == Scan(cs, s, limit)
    decreases s - t
  {
    if t < s {
      BarrenTail(cs, t, s);
      ScanStep(cs, t, limit);
      ScanSkips(cs, t + 1, s, limit);
    }
  }

  // ---------------------------------------------------------------------------------------
  // Months as one number line
  // ---------------------------------------------------------------------------------------

  /** Months counted from January of year 0. */
  function MonthIndex(y: int, m: int): int {
    12 * y + m - 1
  }

  function MonthIndexAt(t: int): int {
    MonthIndex(Year(t), Month(t))
  }

  /** First minute of a month given by its index. */
  function FirstOf(k: int): int {
    Date(k / 12, k % 12 + 1, 1, 0, 0)
  }

  lemma FirstOfMonth(y: int, m: int)
    requires 1 <= m <= 12
    ensures FirstOf(MonthIndex(y, m)) == Date(y, m, 1, 0, 0)
    ensures MonthIndex(y, m) / 12 == y && MonthIndex(y, m) % 12 + 1 == m
  {
  }

  lemma MonthLength(k: int)
    ensures FirstOf(k + 1) == FirstOf(k) + DaysIn(k / 12, k % 12 + 1) * MINUTES_PER_DAY
  {
    var y, m := k / 12, k % 12 + 1;
    if m == 12 {
      NextYear(y);
      YearIsItsMonths(y);
      assert (k + 1) / 12 == y + 1 && (k + 1) % 12 == 0;
      assert DaysBeforeMonth(y, 13) == DaysBeforeMonth(y, 12) + DaysIn(y, 12);
    } else {
      assert (k + 1) / 12 == y && (k + 1) % 12 == m;
    }
  }

  lemma {:induction false} MonthStartsOrdered(a: int, b: int)
    requires a <= b
    ensures FirstOf(a) <= FirstOf(b)
    decreases b - a
  {
    if a < b {
      MonthStartsOrdered(a, b - 1);
      MonthLength(b - 1);
    }
  }

  /** A time lies between the start of its month and the start of the next. */
  lemma InsideItsMonth(t: int)
    ensures FirstOf(MonthIndexAt(t)) <= t < FirstOf(MonthIndexAt(t) + 1)
  {
    var k := MonthIndexAt(t);
    FirstOfMonth(Year(t), Month(t));
    MonthLength(k);
    SinceMonthStart(t);
  }

  lemma SinceMonthStart(t: int)
    ensures t == Date(Year(t), Month(t), 1, 0, 0) + (Day(t) - 1) * MINUTES_PER_DAY + Hour(t) * 60 + Minute(t)
  {
    DateOfParts(t);
  }

  lemma MonthIndexBetween(t: int, u: int, k: int)
    requires t <= u < FirstOf(k)
    ensures MonthIndexAt(t) <= MonthIndexAt(u) < k
  {
    InsideItsMonth(t);
    InsideItsMonth(u);
    StartsOrderMonths(MonthIndexAt(t), MonthIndexAt(u) + 1);
    StartsOrderMonths(MonthIndexAt(u), k);
  }

  lemma StartsOrderMonths(a: int, b: int)
    requires FirstOf(a) < FirstOf(b)
    ensures a < b
  {
    if b <= a {
      MonthStartsOrdered(b, a);
    }
  }

  predicate MonthSet(cs: CronSchedule, k: int)
    requires cs.WellFormed()
  {
    cs.months[k % 12 + 1]
  }

  /** Skipping to the first of month k is safe when no month from t's own to before k is set. */
  lemma MonthSkip(cs: CronSchedule, t: int, k: int)
    requires cs.WellFormed()
    requires NoMonth(cs, MonthIndexAt(t), k)
    ensures Barren(cs, t, FirstOf(k))
  {
    forall u | t <= u < FirstOf(k)
      ensures !Matches(cs, u)
    {
      MonthIndexBetween(t, u, k);
      UnsetMonthNoMatch(cs, u);
    }
  }

  lemma UnsetMonthNoMatch(cs: CronSchedule, u: int)
    requires cs.WellFormed() && !MonthSet(cs, MonthIndexAt(u))
    ensures !Matches(cs, u)
  {
    FirstOfMonth(Year(u), Month(u));
  }

  // ---------------------------------------------------------------------------------------
  // Skipping days, hours and minutes
  // ---------------------------------------------------------------------------------------

  /** t.AddDate(0, 0, 1), then midnight of that day. */
  function NextMidnight(t: int): int {
    var t' := Date(Year(t), Month(t), Day(t) + 1, Hour(t), Minute(t));
    Date(Year(t'), Month(t'), Day(t'), 0, 0)
  }

  lemma NextMidnightIsNextDay(t: int)
    ensures NextMidnight(t) == (DayAt(t) + 1) * MINUTES_PER_DAY
    ensures t < NextMidnight(t)
  {
    var t' := Date(Year(t), Month(t), Day(t) + 1, Hour(t), Minute(t));
    DateOfParts(t);
    assert t' == t + MINUTES_PER_DAY;
    assert DayAt(t') == DayAt(t) + 1;
    PartsOfClock(t);
  }

  /** t.Add(time.Hour), then the start of that hour. */
  function NextHour(t: int): int {
    var t' := t + 60;
    Date(Year(t'), Month(t'), Day(t'), Hour(t'), 0)
  }

  lemma NextHourIsNextHour(t: int)
    ensures NextHour(t) == t - Minute(t) + 60
  {
    StartOfHour(t + 60);
    SameMinute(t);
  }

  lemma StartOfHour(t: int)
    ensures Date(Year(t), Month(t), Day(t), Hour(t), 0) == t - Minute(t)
  {
    DateOfParts(t);
  }

  lemma SameMinute(t: int)
    ensures Minute(t + 60) == Minute(t)
  {
  }

  /** All minutes of one day share year, month, day and weekday. */
  lemma SameDay(t: int, u: int)
    requires DayAt(t) == DayAt(u)
    ensures Year(t) == Year(u) && Month(t) == Month(u) && Day(t) == Day(u) && Weekday(t) == Weekday(u)
  {
  }

  lemma DaySkip(cs: CronSchedule, t: int)
    requires cs.WellFormed() && !DayMatches(cs, t)
    ensures t < NextMidnight(t) && Barren(cs, t, NextMidnight(t))
  {
    NextMidnightIsNextDay(t);
    forall u | t <= u < NextMidnight(t)
      ensures !Matches(cs, u)
    {
      SameDayWithin(t, u);
      SameDay(t, u);
    }
  }

  lemma SameDayWithin(t: int, u: int)
    requires t <= u < (DayAt(t) + 1) * MINUTES_PER_DAY
    ensures DayAt(u) == DayAt(t)
  {
  }

  lemma HourSkip(cs: CronSchedule, t: int)
    requires cs.WellFormed() && !cs.hours[Hour(t)]
    ensures t < NextHour(t) && Barren(cs, t, NextHour(t))
  {
    NextHourIsNextHour(t);
    forall u | t <= u < NextHour(t)
      ensures !Matches(cs, u)
    {
      SameHour(t, u);
    }
  }

  lemma SameHour(t: int, u: int)
    requires t <= u < t - Minute(t) + 60
    ensures Hour(u) == Hour(t)
  {
    PartsOfClock(t);
    ClockOfParts(DayAt(t), Hour(t), Minute(t) + u - t);
  }

  // ---------------------------------------------------------------------------------------
  // The search
  // ---------------------------------------------------------------------------------------

  /** The schedule allows some month. */
  ghost predicate SomeMonth(cs: CronSchedule)
    requires cs.WellFormed()
  {
    exists m :: 1 <= m <= 12 && cs.months[m]
  }

  /** A schedule that represents an accepted expression allows some month, so advanceToNextMonth
      never takes its give-up exit on a parsed schedule. */
  lemma ParsedHasMonth(expr: string, cs: CronSchedule)
    requires Implements(CronMeaningOf(expr), Parsed(cs))
    ensures SomeMonth(cs)
  {
    CronLaws.AcceptedFieldsNonEmpty(expr);
    var m :| m in CronMeaningOf(expr).sets.months;
    RepresentedMonth(cs, CronMeaningOf(expr).sets, m);
  }

  lemma RepresentedMonth(cs: CronSchedule, sets: CronSets, m: int)
    requires Represents(cs, sets) && m in sets.months && 1 <= m <= 12
    ensures SomeMonth(cs)
  {
    assert cs.months[1..][m - 1] == cs.months[m];
  }

  /** No month of index a .. b-1 is allowed. */
  ghost predicate NoMonth(cs: CronSchedule, a: int, b: int)
    requires cs.WellFormed()
  {
    forall j :: a <= j < b ==> !MonthSet(cs, j)
  }

  /** The month counter of advanceToNextMonth, started at (startYear, startMonth). `steps` counts
      the iterations; the give-up exit is taken only when no month is allowed at all. */
  method NextSetMonth(startYear: int, startMonth: int, cs: CronSchedule)
    returns (year: int, month: int, found: bool, ghost steps: nat)
    requires cs.WellFormed() && 1 <= startMonth <= 12 && !cs.months[startMonth]
    ensures found == SomeMonth(cs)
    ensures found ==>
              && 1 <= month <= 12 && cs.months[month] && 0 < steps <= 12
              && MonthIndex(year, month) == MonthIndex(startYear, startMonth) + steps
              && NoMonth(cs, MonthIndex(startYear, startMonth), MonthIndex(year, month))
  {
    year, month, steps := startYear, startMonth, 0;
    ghost var k := MonthIndex(startYear, startMonth);
    SetByNumber(cs, year, month);
    while true
      invariant 1 <= month <= 12 && startYear <= year <= startYear + 5
      invariant MonthIndex(year, month) == k + steps
      invariant NoMonth(cs, k, k + steps + 1)
      decreases startYear + 6 - year, 12 - month
    {
      month := month + 1;
      if month > 12 {
        month, year := 1, year + 1;
      }
      steps := steps + 1;
      SetByNumber(cs, year, month);
      if cs.months[month] {
        MonthsRunOut(cs, k, steps);
        found := true;
        return;
      }
      if year > startYear + 5 {
        if SomeMonth(cs) {
          MonthsRunOut(cs, k, steps);
        }
        found := false;
        return;
      }
    }
  }

  /** advanceToNextMonth: the start of the next allowed month, or a whole window further when no
      month is allowed. Nothing it passes over matches. */
  method AdvanceToNextMonth(t: int, cs: CronSchedule) returns (r: int)
    requires cs.WellFormed() && !cs.months[Month(t)]
    ensures t < r && Barren(cs, t, r)
    ensures SomeMonth(cs) ==>
              exists k :: MonthIndexAt(t) < k <= MonthIndexAt(t) + 12 && r == FirstOf(k) && MonthSet(cs, k)
                          && NoMonth(cs, MonthIndexAt(t), k)
    ensures !SomeMonth(cs) ==> r == t + WINDOW
  {
    var year, month, found; ghost var steps;
    year, month, found, steps := NextSetMonth(Year(t), Month(t), cs);
    if found {
      SetByNumber(cs, year, month);
      ghost var k := MonthIndex(year, month);
      MonthSkip(cs, t, k);
      InsideItsMonth(t);
      MonthStartsOrdered(MonthIndexAt(t) + 1, k);
      return Date(year, month, 1, 0, 0);
    }
    NoMonthNoMatch(cs, t, t + WINDOW);
    return t + WINDOW;
  }

  lemma NoMonthNoMatch(cs: CronSchedule, a: int, b: int)
    requires cs.WellFormed() && !SomeMonth(cs)
    ensures Barren(cs, a, b)
  {
  }

  lemma SetByNumber(cs: CronSchedule, y: int, m: int)
    requires cs.WellFormed() && 1 <= m <= 12
    ensures MonthSet(cs, MonthIndex(y, m)) == cs.months[m]
    ensures FirstOf(MonthIndex(y, m)) == Date(y, m, 1, 0, 0)
  {
    FirstOfMonth(y, m);
  }

  /** Twelve months in a row are all months. */
  lemma MonthsRunOut(cs: CronSchedule, k: int, n: nat)
    requires cs.WellFormed() && NoMonth(cs, k, k + n) && SomeMonth(cs)
    ensures n < 12
  {
    var m :| 1 <= m <= 12 && cs.months[m];
    var j := k + (m - 1 - k) % 12;
    assert j % 12 == m - 1;
    assert MonthSet(cs, j);
  }

  /** One round of the search loop: either `t` matches, or everything before `next` does not. */
  method Round(cs: CronSchedule, t: int) returns (done: bool, next: int)
    requires cs.WellFormed()
    ensures done ==> Matches(cs, t)
    ensures !done ==> t < next && Barren(cs, t, next)
  {
    if !cs.months[Month(t)] {
      next := AdvanceToNextMonth(t, cs);
      return false, next;
    }
    if !DayMatches(cs, t) {
      DaySkip(cs, t);
      return false, NextMidnight(t);
    }
    if !cs.hours[Hour(t)] {
      HourSkip(cs, t);
      return false, NextHour(t);
    }
    if !cs.minutes[Minute(t)] {
      return false, t + 1;
    }
    return true, t;
  }

  /** The search loop of Next: it ends, and gives the answer of the minute-by-minute scan. */
  method Search(cs: CronSchedule, start: int) returns (r: Option<int>)
    requires cs.WellFormed()
    ensures r == Scan(cs, start, start + WINDOW)
  {
    var t := start;
    var limit := t + WINDOW;
    while t < limit
      invariant start <= t
      invariant Scan(cs, t, limit) == Scan(cs, start, limit)
      decreases limit - t
    {
      var done, next := Round(cs, t);
      if done {
        return Some(t);
      }
      ScanSkips(cs, t, next, limit);
      t := next;
    }
    return None;
  }

  // ---------------------------------------------------------------------------------------
  // Next, from an instant in nanoseconds and a whole-minute zone offset
  // ---------------------------------------------------------------------------------------

  const NS_PER_MINUTE: int := 60_000_000_000

  /** Local minute an instant falls into, in a zone `offset` minutes ahead of UTC. */
  function LocalMinute(instant: int, offset: int): int {
    instant / NS_PER_MINUTE + offset
  }

  function InstantOf(minute: int, offset: int): int {
    (minute - offset) * NS_PER_MINUTE
  }

  /** (*CronSchedule).Next. None is the zero time. */
  method Next(cs: CronSchedule, from: int, offset: int) returns (r: Option<int>)
    requires cs.WellFormed()
    ensures match Scan(cs, LocalMinute(from, offset) + 1, LocalMinute(from, offset) + 1 + WINDOW)
            case Some(m) => r == Some(InstantOf(m, offset))
            case None => r == None
    ensures r.Some? ==>
              && r.value > from
              && Matches(cs, LocalMinute(r.value, offset))
              && Barren(cs, LocalMinute(from, offset) + 1, LocalMinute(r.value, offset))
    ensures r.None? ==> Barren(cs, LocalMinute(from, offset) + 1, LocalMinute(from, offset) + 1 + WINDOW)
  {
    var start := LocalMinute(from, offset) + 1;
    var m := Search(cs, start);
    ScanIsLeast(cs, start, start + WINDOW);
    match m {
      case None =>
        return None;
      case Some(minute) =>
        MinuteRoundTrip(minute, offset);
        LaterMinuteLaterInstant(from, offset, minute);
        return Some(InstantOf(minute, offset));
    }
  }

  lemma MinuteRoundTrip(minute: int, offset: int)
    ensures LocalMinute(InstantOf(minute, offset), offset) == minute
  {
  }

  lemma LaterMinuteLaterInstant(from: int, offset: int, minute: int)
    requires minute > LocalMinute(from, offset)
    ensures InstantOf(minute, offset) > from
  {
  }

  // ---------------------------------------------------------------------------------------
  // The window is one day too short for February 29th
  // ---------------------------------------------------------------------------------------

  /** Midnight of every February 29th: "0 0 29 2 *". */
  ghost predicate LeapDaySchedule(cs: CronSchedule) {
    && cs.WellFormed()
    && (forall i :: 0 <= i < 60 ==> (cs.minutes[i] <==> i == 0))
    && (forall i :: 0 <= i < 24 ==> (cs.hours[i] <==> i == 0))
    && (forall i :: 1 <= i < 32 ==> (cs.days[i] <==> i == 29))
    && (forall i :: 1 <= i < 13 ==> (cs.months[i] <==> i == 2))
    && (forall i :: 0 <= i < 7 ==> cs.weekdays[i])
  }

  /** The expression is accepted, and what it parses to is such a schedule. */
  lemma LeapDayText()
    ensures CronMeaningOf("0 0 29 2 *").Accepts?
    ensures LeapDaySchedule(ScheduleOf(CronMeaningOf("0 0 29 2 *").sets))
  {
    LeapDaySets();
    LeapDayBits();
  }

  lemma LeapDayBits()
    ensures LeapDaySchedule(ScheduleOf(CronSets({0}, {0}, {29}, {2}, CronLaws.Full(0, 6))))
  {
  }

  /** One minute of one date, on any weekday. */
  lemma YearlyMeaning(minute: Int64, hour: Int64, day: Int64, month: Int64)
    requires 0 <= minute <= 59 && 0 <= hour <= 23 && 1 <= day <= 31 && 1 <= month <= 12
    ensures CronMeaningOf(CronLaws.Spaced([Itoa(minute), Itoa(hour), Itoa(day), Itoa(month), "*"])) ==
            Accepts(CronSets({minute}, {hour}, {day}, {month}, CronLaws.Full(0, 6)))
  {
    CronLaws.ItoaWord(minute);
    CronLaws.ItoaWord(hour);
    CronLaws.ItoaWord(day);
    CronLaws.ItoaWord(month);
    CronLaws.SpacedMeaning(Itoa(minute), Itoa(hour), Itoa(day), Itoa(month), "*");
    CronLaws.AliasesAlphabetic();
    CronLaws.NumberField(minute, 0, 59, map[]);
    CronLaws.NumberField(hour, 0, 23, map[]);
    CronLaws.NumberField(day, 1, 31, map[]);
    CronLaws.NumberField(month, 1, 12, MONTH_NAMES);
    CronLaws.StarField(0, 6, WEEKDAY_NAMES);
  }

  lemma LeapDaySets()
    ensures CronMeaningOf("0 0 29 2 *") == Accepts(CronSets({0}, {0}, {29}, {2}, CronLaws.Full(0, 6)))
  {
    LeapDayWords();
    YearlyMeaning(0, 0, 29, 2);
  }

  lemma LeapDayWords()
    ensures CronLaws.Spaced([Itoa(0), Itoa(0), Itoa(29), Itoa(2), "*"]) == "0 0 29 2 *"
  {
    assert Itoa(0) == "0" && Itoa(29) == "29" && Itoa(2) == "2";
    assert CronLaws.Spaced(["*"]) == "*";
    assert CronLaws.Spaced(["2", "*"]) == "2 *";
    assert CronLaws.Spaced(["29", "2", "*"]) == "29 2 *";
    assert CronLaws.Spaced(["0", "29", "2", "*"]) == "0 29 2 *";
  }

  function LeapMidnight(y: int): int {
    Date(y, 2, 29, 0, 0)
  }

  lemma LeapDayMatches(cs: CronSchedule, t: int)
    requires LeapDaySchedule(cs)
    ensures Matches(cs, t) <==> IsLeap(Year(t)) && t == LeapMidnight(Year(t))
  {
    DateOfParts(t);
    if IsLeap(Year(t)) {
      PartsOfDate(Year(t), 2, 29, 0, 0);
    }
  }

  lemma LeapIsFourth(y: int)
    requires IsLeap(y)
    ensures y % 4 == 0
  {
  }

  /** The first multiple of four from y on. */
  function NextFourth(y: int): (z: int)
    ensures y <= z < y + 4 && z % 4 == 0
  {
    y + (4 - y % 4) % 4
  }

  /** The first leap year from y on: a century that is not leap is skipped. */
  function LeapYearFrom(y: int): int {
    if IsLeap(NextFourth(y)) then NextFourth(y) else NextFourth(y) + 4
  }

  lemma LeapYearFromIsFirst(y: int)
    ensures y <= LeapYearFrom(y) < y + 8 && IsLeap(LeapYearFrom(y))
    ensures forall x :: y <= x < LeapYearFrom(y) ==> !IsLeap(x)
  {
    var q := NextFourth(y);
    LeapAfterCentury(q);
    forall x | y <= x < LeapYearFrom(y)
      ensures !IsLeap(x)
    {
      if IsLeap(x) {
        LeapIsFourth(x);
        FourthsApart(q, x);
      }
    }
  }

  lemma LeapAfterCentury(q: int)
    requires q % 4 == 0
    ensures IsLeap(q) || IsLeap(q + 4)
  {
    if !IsLeap(q) {
      assert (q + 4) % 100 == 4;
    }
  }

  lemma FourthsApart(q: int, x: int)
    requires q % 4 == 0 && x % 4 == 0 && q - 4 < x < q + 4
    ensures x == q
  {
  }

  /** The first February 29th midnight from a minute on. */
  function NextLeapMidnight(start: int): int {
    var y := Year(start);
    LeapMidnight(LeapYearFrom(if start <= LeapMidnight(y) then y else y + 1))
  }

  lemma NextLeapMidnightIsNext(cs: CronSchedule, start: int)
    requires LeapDaySchedule(cs)
    ensures start <= NextLeapMidnight(start)
    ensures Matches(cs, NextLeapMidnight(start)) && Barren(cs, start, NextLeapMidnight(start))
  {
    NextLeapMidnightIsLeap(start);
    LeapDayMatches(cs, NextLeapMidnight(start));
    forall u | start <= u && Matches(cs, u)
      ensures NextLeapMidnight(start) <= u
    {
      LeapDayMatches(cs, u);
      NextLeapMidnightIsFirst(start, Year(u));
    }
  }

  lemma NextLeapMidnightIsLeap(start: int)
    ensures var z := Year(NextLeapMidnight(start)); IsLeap(z) && NextLeapMidnight(start) == LeapMidnight(z)
    ensures start <= NextLeapMidnight(start)
  {
    var y := Year(start);
    var from := if start <= LeapMidnight(y) then y else y + 1;
    var z := LeapYearFrom(from);
    LeapYearFromIsFirst(from);
    StartsBefore(start, z);
    PartsOfDate(z, 2, 29, 0, 0);
  }

  lemma NextLeapMidnightIsFirst(start: int, x: int)
    requires IsLeap(x) && start <= LeapMidnight(x)
    ensures NextLeapMidnight(start) <= LeapMidnight(x)
  {
    var y := Year(start);
    var from := if start <= LeapMidnight(y) then y else y + 1;
    PartsOfDate(x, 2, 29, 0, 0);
    LaterMinuteLaterYear(start, LeapMidnight(x));
    LeapYearFromIsFirst(from);
    LeapMidnightDay(x);
    LeapMidnightDay(LeapYearFrom(from));
    YearsInOrder(LeapYearFrom(from), x);
  }

  lemma StartsBefore(start: int, z: int)
    requires z > Year(start) || (z == Year(start) && start <= LeapMidnight(z))
    ensures start <= LeapMidnight(z)
  {
    if z > Year(start) {
      LeapMidnightDay(z);
      YearsInOrder(Year(start) + 1, z);
    }
  }

  lemma YearsInOrder(a: int, b: int)
    requires a <= b
    ensures DaysBeforeYear(a) <= DaysBeforeYear(b)
  {
    if a < b {
      YearsOrdered(a, b);
    }
  }

  lemma LaterMinuteLaterYear(t: int, u: int)
    requires t <= u
    ensures Year(t) <= Year(u)
  {
    YearOrderReflects(Year(t), Year(u) + 1);
  }

  /** Asked at any minute, the schedule is found exactly when the next February 29th lies within
      the 1460 days of the window. */
  lemma LeapDayFoundIff(cs: CronSchedule, start: int)
    requires LeapDaySchedule(cs)
    ensures Scan(cs, start, start + WINDOW) ==
            if NextLeapMidnight(start) < start + WINDOW then Some(NextLeapMidnight(start)) else None
  {
    NextLeapMidnightIsNext(cs, start);
    ScanNearest(cs, start, NextLeapMidnight(start), start + WINDOW);
  }

  lemma ScanNearest(cs: CronSchedule, start: int, next: int, limit: int)
    requires cs.WellFormed() && start <= next && start <= limit
    requires Barren(cs, start, next) && Matches(cs, next)
    ensures Scan(cs, start, limit) == if next < limit then Some(next) else None
  {
    if next < limit {
      ScanFinds(cs, start, next, limit);
    } else {
      ScanFindsNothing(cs, start, limit, next);
    }
  }

  /** Between two leap days the schedule is lost for the first day, or, across a century that is
      not leap, for the first 1461 days. */
  lemma LeapDayLostFor(cs: CronSchedule, y: int, start: int)
    requires LeapDaySchedule(cs) && IsLeap(y)
    requires LeapMidnight(y) < start <= LeapMidnight(LeapYearFrom(y + 1))
    ensures var lost := if IsLeap(y + 4) then 1 else 1461;
            Scan(cs, start, start + WINDOW) ==
            if start > LeapMidnight(y) + lost * MINUTES_PER_DAY then Some(LeapMidnight(LeapYearFrom(y + 1))) else None
  {
    NextLeapBetween(y, start);
    LeapGap(y);
    LeapDayFoundIff(cs, start);
  }

  /** Days from one leap day to the next. */
  lemma LeapGap(y: int)
    requires IsLeap(y)
    ensures LeapMidnight(LeapYearFrom(y + 1)) ==
            LeapMidnight(y) + (if IsLeap(y + 4) then 1461 else 2921) * MINUTES_PER_DAY
  {
    LeapIsFourth(y);
    FourthsApart(y + 4, NextFourth(y + 1));
    LeapMidnightsApart(y);
  }

  lemma NextLeapBetween(y: int, start: int)
    requires IsLeap(y) && LeapMidnight(y) < start <= LeapMidnight(LeapYearFrom(y + 1))
    ensures NextLeapMidnight(start) == LeapMidnight(LeapYearFrom(y + 1))
  {
    var z := LeapYearFrom(y + 1);
    LeapYearFromIsFirst(y + 1);
    YearBounds(start, y, z);
    var x := Year(start);
    var from := if start <= LeapMidnight(x) then x else x + 1;
    LeapYearFromIsFirst(from);
    assert y < from <= z;
  }

  lemma LeapMidnightsApart(y: int)
    requires IsLeap(y)
    ensures LeapMidnight(y + 4) == LeapMidnight(y) + 1461 * MINUTES_PER_DAY
    ensures !IsLeap(y + 4) ==> LeapMidnight(y + 8) == LeapMidnight(y) + 2921 * MINUTES_PER_DAY
  {
    LeapIsFourth(y);
    LeapMidnightDay(y);
    LeapMidnightDay(y + 4);
    LeapMidnightDay(y + 8);
    FourYears(y);
    FourYears(y + 4);
  }

  lemma NotLeapAfter(y: int)
    requires y % 4 == 0
    ensures !IsLeap(y + 1) && !IsLeap(y + 2) && !IsLeap(y + 3)
  {
  }

  lemma FourYears(y: int)
    requires y % 4 == 0
    ensures DaysBeforeYear(y + 4) == DaysBeforeYear(y) + if IsLeap(y) then 1461 else 1460
  {
    NotLeapAfter(y);
    NextYear(y);
    NextYear(y + 1);
    NextYear(y + 2);
    NextYear(y + 3);
  }

  lemma ScanFinds(cs: CronSchedule, start: int, t: int, limit: int)
    requires cs.WellFormed() && start <= t < limit && Barren(cs, start, t) && Matches(cs, t)
    ensures Scan(cs, start, limit) == Some(t)
  {
    ScanSkips(cs, start, t, limit);
  }

  lemma ScanFindsNothing(cs: CronSchedule, start: int, limit: int, t: int)
    requires cs.WellFormed() && start <= limit <= t && Barren(cs, start, t)
    ensures Scan(cs, start, limit) == None
  {
    ScanSkips(cs, start, limit, limit);
  }

  lemma YearBounds(u: int, a: int, b: int)
    requires LeapMidnight(a) <= u <= LeapMidnight(b) && a <= b
    ensures a <= Year(u) <= b
  {
    LeapMidnightDay(a);
    LeapMidnightDay(b);
    NextYear(b);
    YearOrderReflects(a, Year(u) + 1);
    YearOrderReflects(Year(u), b + 1);
  }

  lemma LeapMidnightDay(y: int)
    ensures LeapMidnight(y) == (DaysBeforeYear(y) + 59) * MINUTES_PER_DAY
  {
    assert DaysBeforeMonth(y, 2) == 31;
  }

  lemma YearOrderReflects(a: int, b: int)
    requires DaysBeforeYear(a) < DaysBeforeYear(b)
    ensures a < b
  {
    if b < a {
      YearsOrdered(b, a);
    }
  }
}
