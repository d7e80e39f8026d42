/** When an expression runs next, in terms of the calendar alone. */
module CronAnswers {
  import opened Wrappers
  import opened CronText
  import opened Calendar
  import opened CronParser
  import opened CronLaws
  import opened CronNext

  /** Minute, hour, day, month and weekday of the time are among the allowed values. */
  predicate At(sets: CronSets, t: int) {
    && Minute(t) in sets.minutes && Hour(t) in sets.hours
    && Day(t) in sets.days && Month(t) in sets.months && Weekday(t) in sets.weekdays
  }

  lemma MatchesIffAt(sets: CronSets, t: int)
    ensures Matches(ScheduleOf(sets), t) <==> At(sets, t)
  {
  }

  /** No minute from `start` to before `limit` is allowed. */
  ghost predicate NoneAt(sets: CronSets, start: int, limit: int) {
    forall u :: start <= u < limit ==> !At(sets, u)
  }

  lemma BarrenIffNoneAt(sets: CronSets, start: int, limit: int)
    ensures Barren(ScheduleOf(sets), start, limit) <==> NoneAt(sets, start, limit)
  {
    forall u
      ensures Matches(ScheduleOf(sets), u) <==> At(sets, u)
    {
      MatchesIffAt(sets, u);
    }
  }

  /** ParseCron and Next together: of an accepted expression, the first instant after `from` whose
      local minute has allowed values in all five parts, if there is one within 1460 days. */
  method NextOf(expr: string, from: int, offset: int) returns (ok: bool, r: Option<int>)
    ensures ok <==> CronMeaningOf(expr).Accepts?
    ensures ok ==> Answers(CronMeaningOf(expr).sets, from, offset, r)
  {
    var parsed := ParseCron(expr);
    match parsed {
      case Failed => return false, None;
      case Crashed => return false, None;
      case Parsed(cs) =>
        ghost var sets := CronMeaningOf(expr).sets;
        RepresentationUnique(cs, sets);
        r := Next(cs, from, offset);
        ok := true;
        AnswerOf(sets, from, offset, r);
    }
  }

  ghost predicate Answers(sets: CronSets, from: int, offset: int, r: Option<int>) {
    var start := LocalMinute(from, offset) + 1;
    match r
    case Some(instant) =>
      && instant > from && instant % NS_PER_MINUTE == 0
      && At(sets, LocalMinute(instant, offset)) && NoneAt(sets, start, LocalMinute(instant, offset))
    case None => NoneAt(sets, start, start + 1460 * 24 * 60)
  }

  lemma AnswerOf(sets: CronSets, from: int, offset: int, r: Option<int>)
    requires var cs, start := ScheduleOf(sets), LocalMinute(from, offset) + 1;
             match Scan(cs, start, start + WINDOW)
             case Some(m) => r == Some(InstantOf(m, offset))
             case None => r == None
    ensures Answers(sets, from, offset, r)
  {
    var cs, start := ScheduleOf(sets), LocalMinute(from, offset) + 1;
    ScanIsLeast(cs, start, start + WINDOW);
    match Scan(cs, start, start + WINDOW)
    case None => BarrenIffNoneAt(sets, start, start + WINDOW);
    case Some(m) =>
      MatchesIffAt(sets, m);
      BarrenIffNoneAt(sets, start, m);
      MinuteRoundTrip(m, offset);
      LaterMinuteLaterInstant(from, offset, m);
  }

  // ---------------------------------------------------------------------------------------
  // The expressions the service prints
  // ---------------------------------------------------------------------------------------

  /** Where some allowed minute lies within the window, the answer is not empty. */
  lemma AnswerExists(sets: CronSets, from: int, offset: int, r: Option<int>, t: int)
    requires Answers(sets, from, offset, r) && At(sets, t)
    requires LocalMinute(from, offset) < t <= LocalMinute(from, offset) + WINDOW
    ensures r.Some?
  {
  }

  /** The clock shows that minute. */
  predicate ClockIs(t: int, hour: int, minute: int) {
    Hour(t) == hour && Minute(t) == minute
  }

  function TimeOn(day: int, hour: int, minute: int): int {
    day * MINUTES_PER_DAY + hour * 60 + minute
  }

  lemma PartsOfTimeOn(day: int, hour: int, minute: int)
    requires 0 <= hour <= 23 && 0 <= minute <= 59
    ensures var t := TimeOn(day, hour, minute); DayAt(t) == day && ClockIs(t, hour, minute)
  {
    ClockOfParts(day, hour, minute);
  }

  function DailySets(hour: int, minute: int): CronSets {
    CronSets({minute}, {hour}, Full(1, 31), Full(1, 12), Full(0, 6))
  }

  lemma DailyAt(hour: int, minute: int, u: int)
    ensures At(DailySets(hour, minute), u) <==> ClockIs(u, hour, minute)
  {
    assert Day(u) in Full(1, 31) && Month(u) in Full(1, 12) && Weekday(u) in Full(0, 6);
  }

  lemma DailyAnswer(hour: int, minute: int, from: int, offset: int, r: Option<int>)
    requires 0 <= hour <= 23 && 0 <= minute <= 59 && Answers(DailySets(hour, minute), from, offset, r)
    ensures r.Some? && r.value > from && ClockIs(LocalMinute(r.value, offset), hour, minute)
    ensures forall u :: LocalMinute(from, offset) < u < LocalMinute(r.value, offset) ==> !ClockIs(u, hour, minute)
  {
    var now := LocalMinute(from, offset);
    var t := TimeOn(DayAt(now) + 1, hour, minute);
    PartsOfTimeOn(DayAt(now) + 1, hour, minute);
    DailyAt(hour, minute, t);
    AnswerExists(DailySets(hour, minute), from, offset, r, t);
    DailyAt(hour, minute, LocalMinute(r.value, offset));
    forall u | now < u < LocalMinute(r.value, offset)
      ensures !ClockIs(u, hour, minute)
    {
      DailyAt(hour, minute, u);
    }
  }

  /** A daily schedule runs at the next minute that shows its time. */
  method NextDaily(hour: Int64, minute: Int64, from: int, offset: int) returns (r: Option<int>)
    requires 0 <= hour <= 23 && 0 <= minute <= 59
    ensures r.Some? && r.value > from && ClockIs(LocalMinute(r.value, offset), hour, minute)
    ensures forall u :: LocalMinute(from, offset) < u < LocalMinute(r.value, offset) ==> !ClockIs(u, hour, minute)
  {
    DailyCronParsesBack(hour, minute);
    var ok;
    ok, r := NextOf(DailyCron(hour, minute), from, offset);
    DailyAnswer(hour, minute, from, offset, r);
  }

  function WeeklySets(weekday: int, hour: int, minute: int): CronSets {
    CronSets({minute}, {hour}, Full(1, 31), Full(1, 12), {weekday})
  }

  lemma WeeklyAt(weekday: int, hour: int, minute: int, u: int)
    ensures At(WeeklySets(weekday, hour, minute), u) <==> Weekday(u) == weekday && ClockIs(u, hour, minute)
  {
    assert Day(u) in Full(1, 31) && Month(u) in Full(1, 12);
  }

  /** Among seven days in a row each weekday occurs. */
  lemma WeekdayWithin(day: int, weekday: int) returns (d: int)
    requires 0 <= weekday <= 6
    ensures day <= d <= day + 6 && (d + 6) % 7 == weekday
  {
    d := day + (weekday - (day + 6) % 7) % 7;
    var w := (day + 6) % 7;
    if weekday >= w {
      assert d + 6 == (day + 6) - w + weekday;
    } else {
      assert d + 6 == (day + 6) - w + weekday + 7;
    }
  }

  lemma WeeklyAnswer(weekday: int, hour: int, minute: int, from: int, offset: int, r: Option<int>)
    requires 0 <= weekday <= 6 && 0 <= hour <= 23 && 0 <= minute <= 59
    requires Answers(WeeklySets(weekday, hour, minute), from, offset, r)
    ensures r.Some? && r.value > from
    ensures Weekday(LocalMinute(r.value, offset)) == weekday && ClockIs(LocalMinute(r.value, offset), hour, minute)
    ensures forall u :: LocalMinute(from, offset) < u < LocalMinute(r.value, offset) ==>
              !(Weekday(u) == weekday && ClockIs(u, hour, minute))
  {
    var now := LocalMinute(from, offset);
    var day := WeekdayWithin(DayAt(now) + 1, weekday);
    var t := TimeOn(day, hour, minute);
    PartsOfTimeOn(day, hour, minute);
    WeeklyAt(weekday, hour, minute, t);
    AnswerExists(WeeklySets(weekday, hour, minute), from, offset, r, t);
    WeeklyAt(weekday, hour, minute, LocalMinute(r.value, offset));
    forall u | now < u < LocalMinute(r.value, offset)
      ensures !(Weekday(u) == weekday && ClockIs(u, hour, minute))
    {
      WeeklyAt(weekday, hour, minute, u);
    }
  }

  /** A weekly schedule runs at the next minute that shows its time on its weekday. */
  method NextWeekly(weekday: Int64, hour: Int64, minute: Int64, from: int, offset: int) returns (r: Option<int>)
    requires 0 <= weekday <= 6 && 0 <= hour <= 23 && 0 <= minute <= 59
    ensures r.Some? && r.value > from
    ensures Weekday(LocalMinute(r.value, offset)) == weekday && ClockIs(LocalMinute(r.value, offset), hour, minute)
    ensures forall u :: LocalMinute(from, offset) < u < LocalMinute(r.value, offset) ==>
              !(Weekday(u) == weekday && ClockIs(u, hour, minute))
  {
    WeeklyCronParsesBack(weekday, hour, minute);
    var ok;
    ok, r := NextOf(WeeklyCron(weekday, hour, minute), from, offset);
    WeeklyAnswer(weekday, hour, minute, from, offset, r);
  }

  function MonthlySets(day: int, hour: int, minute: int): CronSets {
    CronSets({minute}, {hour}, {day}, Full(1, 12), Full(0, 6))
  }

  lemma MonthlyAt(day: int, hour: int, minute: int, u: int)
    ensures At(MonthlySets(day, hour, minute), u) <==> Day(u) == day && ClockIs(u, hour, minute)
  {
    assert Month(u) in Full(1, 12) && Weekday(u) in Full(0, 6);
  }

  /** Every day of a month occurs in the next January. */
  lemma InJanuary(now: int, day: int, hour: int, minute: int)
    requires 1 <= day <= 31 && 0 <= hour <= 23 && 0 <= minute <= 59
    ensures var t := Date(Year(now) + 1, 1, day, hour, minute);
            Day(t) == day && ClockIs(t, hour, minute) && now < t <= now + WINDOW
  {
    var y := Year(now);
    PartsOfDate(y + 1, 1, day, hour, minute);
    NextYear(y);
    assert DayNumber(y + 1, 1, day) == DaysBeforeYear(y + 1) + day - 1;
  }

  lemma MonthlyAnswer(day: int, hour: int, minute: int, from: int, offset: int, r: Option<int>)
    requires 1 <= day <= 31 && 0 <= hour <= 23 && 0 <= minute <= 59
    requires Answers(MonthlySets(day, hour, minute), from, offset, r)
    ensures r.Some? && r.value > from
    ensures Day(LocalMinute(r.value, offset)) == day && ClockIs(LocalMinute(r.value, offset), hour, minute)
    ensures forall u :: LocalMinute(from, offset) < u < LocalMinute(r.value, offset) ==>
              !(Day(u) == day && ClockIs(u, hour, minute))
  {
    var now := LocalMinute(from, offset);
    var t := Date(Year(now) + 1, 1, day, hour, minute);
    InJanuary(now, day, hour, minute);
    MonthlyAt(day, hour, minute, t);
    AnswerExists(MonthlySets(day, hour, minute), from, offset, r, t);
    MonthlyAt(day, hour, minute, LocalMinute(r.value, offset));
    forall u | now < u < LocalMinute(r.value, offset)
      ensures !(Day(u) == day && ClockIs(u, hour, minute))
    {
      MonthlyAt(day, hour, minute, u);
    }
  }

  /** A monthly schedule runs at the next minute that shows its time on its day of a month. */
  method NextMonthly(day: Int64, hour: Int64, minute: Int64, from: int, offset: int) returns (r: Option<int>)
    requires 1 <= day <= 31 && 0 <= hour <= 23 && 0 <= minute <= 59
    ensures r.Some? && r.value > from
    ensures Day(LocalMinute(r.value, offset)) == day && ClockIs(LocalMinute(r.value, offset), hour, minute)
    ensures forall u :: LocalMinute(from, offset) < u < LocalMinute(r.value, offset) ==>
              !(Day(u) == day && ClockIs(u, hour, minute))
  {
    MonthlyCronParsesBack(day, hour, minute);
    var ok;
    ok, r := NextOf(MonthlyCron(day, hour, minute), from, offset);
    MonthlyAnswer(day, hour, minute, from, offset, r);
  }

  // ---------------------------------------------------------------------------------------
  // Zones and weekdays
  // ---------------------------------------------------------------------------------------

  /** A zone ahead of UTC shows the later time: what its clock shows at an instant, the clock of UTC
      shows `offset` minutes later. */
  lemma ZoneAhead(instant: int, offset: int)
    ensures LocalMinute(instant, offset) == LocalMinute(instant + offset * NS_PER_MINUTE, 0)
  {
  }

  /** The weekday after Saturday is Sunday, and otherwise the next number. */
  lemma WeekdayAdvances(t: int)
    ensures Weekday(t + MINUTES_PER_DAY) == if Weekday(t) == 6 then 0 else Weekday(t) + 1
  {
    assert DayAt(t + MINUTES_PER_DAY) == DayAt(t) + 1;
  }
}
