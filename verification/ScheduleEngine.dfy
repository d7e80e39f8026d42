/** The scheduler's tick and fire on one schedule, driven by the cron search. A fire runs in its own
    goroutine, so its read of the record and its write may have other fires in between. */
module ScheduleEngine {
  import opened Wrappers
  import opened CronText
  import opened Calendar
  import opened CronParser
  import opened CronNext
  import CronAnswers

  datatype Status = Active | Paused | Disabled | Expired

  datatype Schedule = Schedule(
    once: bool, cron: string, offset: int, enabled: bool, status: Status,
    nextRunAt: Option<int>, lastRunAt: Option<int>,
    runCount: nat, failureCount: nat, maxRuns: int, expiresAt: Option<int>)

  /** One fire: the time of the tick that started it, the later time it reads itself, and whether
      the dispatch fails. */
  datatype Tick = Tick(now: int, clock: int, fails: bool)

  /** What computeNextRun delivers: an instant, none, an error (invalid expression) or a panic of
      the parser. */
  datatype NextRun = At(instant: int) | Never | NoAnswer | Crashes

  /** The next match of an accepted expression after an instant. */
  function NextMatch(cs: CronSchedule, offset: int, after: int): NextRun
    requires cs.WellFormed()
  {
    var start := LocalMinute(after, offset) + 1;
    match Scan(cs, start, start + WINDOW)
    case Some(m) => At(InstantOf(m, offset))
    case None => Never
  }

  lemma NextMatchIsLater(cs: CronSchedule, offset: int, after: int)
    requires cs.WellFormed() && NextMatch(cs, offset, after).At?
    ensures NextMatch(cs, offset, after).instant > after
  {
    var start := LocalMinute(after, offset) + 1;
    ScanIsLeast(cs, start, start + WINDOW);
    LaterMinuteLaterInstant(after, offset, Scan(cs, start, start + WINDOW).value);
  }

  function FromMeaning(m: CronMeaning, offset: int, after: int): NextRun {
    match m
    case Accepts(sets) => NextMatch(ScheduleOf(sets), offset, after)
    case Rejects => NoAnswer
    case CronPanics => Crashes
  }

  function ComputeNextRun(s: Schedule, after: int): (r: NextRun)
    ensures r.At? ==> r.instant > after
    ensures s.once ==> r == Never
    ensures r == Crashes <==> !s.once && CronMeaningOf(s.cron).CronPanics?
  {
    if s.once then Never
    else
      var m := CronMeaningOf(s.cron);
      var r := FromMeaning(m, s.offset, after);
      assert r.At? ==> r.instant > after by {
        if r.At? {
          NextMatchIsLater(ScheduleOf(m.sets), s.offset, after);
        }
      }
      r
  }

  /** A way to find the next run that always looks ahead and has none for once-schedules. */
  type NextRunOf = (Schedule, int) -> NextRun

  ghost predicate LooksAhead(next: NextRunOf) {
    forall s, after ::
      && (next(s, after).At? ==> next(s, after).instant > after)
      && (s.once ==> next(s, after) == Never)
  }

  lemma ComputeNextRunLooksAhead()
    ensures LooksAhead(ComputeNextRun)
  {
  }

  predicate Due(s: Schedule, now: int) {
    s.enabled && s.status == Active && s.nextRunAt.Some? && s.nextRunAt.value <= now
  }

  /** A tick at `now` finds the schedule due, and its next run can be computed. */
  predicate Starts(next: NextRunOf, s: Schedule, now: int) {
    Due(s, now) && (next(s, now).At? || next(s, now).Never?)
  }

  /** The record after a fire that found `run` as the next run. */
  function Updated(s: Schedule, t: Tick, run: NextRun): Schedule {
    s.(nextRunAt := if run.At? then Some(run.instant) else None,
       lastRunAt := Some(t.now),
       runCount := s.runCount + 1,
       failureCount := s.failureCount + if t.fails then 1 else 0,
       status := if (s.maxRuns > 0 && s.runCount + 1 >= s.maxRuns)
                    || (s.expiresAt.Some? && t.clock > s.expiresAt.value) then Expired else s.status)
  }

  function After(next: NextRunOf, s: Schedule, t: Tick): Schedule {
    if Starts(next, s, t.now) then Updated(s, t, next(s, t.now)) else s
  }

  function Run(next: NextRunOf, s: Schedule, ticks: seq<Tick>): Schedule {
    if ticks == [] then s else After(next, Run(next, s, ticks[..|ticks| - 1]), ticks[|ticks| - 1])
  }

  /** The times at which the schedule fired. */
  function FireTimes(next: NextRunOf, s: Schedule, ticks: seq<Tick>): seq<int> {
    if ticks == [] then []
    else
      var init, t := ticks[..|ticks| - 1], ticks[|ticks| - 1];
      FireTimes(next, s, init) + if Starts(next, Run(next, s, init), t.now) then [t.now] else []
  }

  function Failures(next: NextRunOf, s: Schedule, ticks: seq<Tick>): nat {
    if ticks == [] then 0
    else
      var init, t := ticks[..|ticks| - 1], ticks[|ticks| - 1];
      Failures(next, s, init) + if Starts(next, Run(next, s, init), t.now) && t.fails then 1 else 0
  }

  // ---------------------------------------------------------------------------------------
  // Fires as goroutines
  // ---------------------------------------------------------------------------------------

  /** A fire under way: the copy of the record it was started with, the time of its tick and the
      next run it computed. */
  datatype Fire = Fire(copy: Schedule, now: int, run: NextRun)

  /** `fires` are the times of the fires started so far, `done` the fires that wrote the record and
      `lost` the number of those whose write failed; the process is down once the parser has
      panicked. */
  datatype State = State(db: Schedule, flying: seq<Fire>, down: bool, fires: seq<int>, done: seq<Tick>, lost: nat)

  /** A fire ends by writing the record; a failed write is only logged. */
  datatype Event = Poll(now: int) | Complete(n: nat, clock: int, fails: bool) | WriteFails(n: nat)

  function Initial(s: Schedule): State {
    State(s, [], false, [], [], 0)
  }

  /** UpdateAfterRun overwrites the fields of one run, whatever the record holds by then. */
  function Overwritten(db: Schedule, u: Schedule): Schedule {
    db.(nextRunAt := u.nextRunAt, lastRunAt := u.lastRunAt, runCount := u.runCount,
        failureCount := u.failureCount, status := u.status)
  }

  function DoPoll(next: NextRunOf, st: State, now: int): State {
    if Starts(next, st.db, now) then
      st.(flying := st.flying + [Fire(st.db, now, next(st.db, now))], fires := st.fires + [now])
    else if Due(st.db, now) && next(st.db, now).Crashes? then st.(down := true)
    else st
  }

  function DoComplete(st: State, n: nat, clock: int, fails: bool): State
    requires n < |st.flying|
  {
    var f := st.flying[n];
    var t := Tick(f.now, clock, fails);
    st.(db := Overwritten(st.db, Updated(f.copy, t, f.run)),
        flying := st.flying[..n] + st.flying[n + 1..], done := st.done + [t])
  }

  function DoWriteFails(st: State, n: nat): State
    requires n < |st.flying|
  {
    st.(flying := st.flying[..n] + st.flying[n + 1..], lost := st.lost + 1)
  }

  predicate Enabled(st: State, e: Event) {
    !st.down && (!e.Poll? ==> e.n < |st.flying|)
  }

  function Apply(next: NextRunOf, st: State, e: Event): State
    requires Enabled(st, e)
  {
    match e
    case Poll(now) => DoPoll(next, st, now)
    case Complete(n, clock, fails) => DoComplete(st, n, clock, fails)
    case WriteFails(n) => DoWriteFails(st, n)
  }

  predicate Runs(next: NextRunOf, s: Schedule, events: seq<Event>)
    decreases |events|, 0
  {
    events == [] ||
    (Runs(next, s, events[..|events| - 1]) && Enabled(Exec(next, s, events[..|events| - 1]), events[|events| - 1]))
  }

  function Exec(next: NextRunOf, s: Schedule, events: seq<Event>): State
    requires Runs(next, s, events)
    decreases |events|, 1
  {
    if events == [] then Initial(s)
    else Apply(next, Exec(next, s, events[..|events| - 1]), events[|events| - 1])
  }

  /** The engine's side of one schedule: its record and the fires under way. */
  class Engine {
    var db: Schedule
    var flying: seq<Fire>
    var down: bool
    ghost var fires: seq<int>
    ghost var done: seq<Tick>
    ghost var lost: nat

    ghost function View(): State
      reads this
    {
      State(db, flying, down, fires, done, lost)
    }

    constructor (initial: Schedule)
      ensures View() == Initial(initial)
    {
      db, flying, down := initial, [], false;
      fires, done, lost := [], [], 0;
    }

    /** computeNextRun, through the parser and the search loop. */
    method Compute(after: int) returns (r: NextRun)
      ensures r == ComputeNextRun(db, after)
    {
      if db.once {
        return Never;
      }
      var parsed := ParseCron(db.cron);
      r := FromParsed(CronMeaningOf(db.cron), parsed, db.offset, after);
    }

    /** tick for this schedule, and the start of fire: the copy is taken and the next run computed. */
    method DoTick(now: int)
      modifies this
      ensures View() == DoPoll(ComputeNextRun, old(View()), now)
    {
      if !Due(db, now) {
        return;
      }
      var next := Compute(now);
      match next {
        case NoAnswer => return;
        case Crashes => down := true;
        case _ =>
          flying := flying + [Fire(db, now, next)];
          fires := fires + [now];
      }
    }

    /** The end of fire n: counters and status from its own copy, written in one update, which may
        fail. */
    method Record(n: nat, clock: int, fails: bool, saved: bool)
      requires n < |flying|
      modifies this
      ensures saved ==> View() == DoComplete(old(View()), n, clock, fails)
      ensures !saved ==> View() == DoWriteFails(old(View()), n)
    {
      var s, now, next := flying[n].copy, flying[n].now, flying[n].run;
      var newRunCount := s.runCount + 1;
      var newStatus := s.status;
      if s.maxRuns > 0 && newRunCount >= s.maxRuns {
        newStatus := Expired;
      }
      if s.expiresAt.Some? && clock > s.expiresAt.value {
        newStatus := Expired;
      }
      var newFailureCount := s.failureCount;
      if fails {
        newFailureCount := newFailureCount + 1;
      }
      flying := flying[..n] + flying[n + 1..];
      if saved {
        db := db.(lastRunAt := Some(now), nextRunAt := if next.At? then Some(next.instant) else None,
                  runCount := newRunCount, failureCount := newFailureCount, status := newStatus);
        done := done + [Tick(now, clock, fails)];
      } else {
        lost := lost + 1;
      }
    }
  }

  method FromParsed(ghost m: CronMeaning, parsed: ParseResult, offset: int, after: int) returns (r: NextRun)
    requires Implements(m, parsed)
    ensures r == FromMeaning(m, offset, after)
  {
    match parsed {
      case Failed => return NoAnswer;
      case Crashed => return Crashes;
      case Parsed(cs) =>
        RepresentationUnique(cs, m.sets);
        var next := Next(cs, after, offset);
        return if next.Some? then At(next.value) else Never;
    }
  }

  // ---------------------------------------------------------------------------------------
  // Laws over every sequence of ticks
  // ---------------------------------------------------------------------------------------

  ghost predicate Increasing(times: seq<int>) {
    forall i, j :: 0 <= i < j < |times| ==> times[i] < times[j]
  }

  /** What holds of a schedule that started as `s`, is now `r`, fired at `fires` and failed
      `failures` times. */
  ghost predicate Law(s: Schedule, r: Schedule, fires: seq<int>, failures: nat) {
    && Increasing(fires)
    && r.runCount == s.runCount + |fires|
    && r.failureCount == s.failureCount + failures
    && failures <= |fires|
    && r.maxRuns == s.maxRuns && r.once == s.once
    && (fires != [] ==> r.lastRunAt == Some(fires[|fires| - 1]))
    && (fires != [] && r.nextRunAt.Some? ==> fires[|fires| - 1] < r.nextRunAt.value)
    && (s.once ==> |fires| <= 1 && (fires != [] ==> r.nextRunAt.None?))
    && (s.maxRuns > 0 && s.runCount < s.maxRuns ==>
          r.runCount <= s.maxRuns && (r.runCount == s.maxRuns ==> r.status != Active))
  }

  lemma FireKeepsLaw(s: Schedule, r: Schedule, fires: seq<int>, failures: nat, t: Tick, run: NextRun)
    requires Law(s, r, fires, failures) && Due(r, t.now)
    requires run.At? ==> run.instant > t.now
    requires s.once ==> run == Never
    ensures Law(s, Updated(r, t, run), fires + [t.now], failures + if t.fails then 1 else 0)
  {
    assert fires != [] ==> fires[|fires| - 1] < t.now;
  }

  lemma TickKeepsLaw(next: NextRunOf, s: Schedule, r: Schedule, fires: seq<int>, failures: nat, t: Tick)
    requires LooksAhead(next) && Law(s, r, fires, failures)
    ensures var f := Starts(next, r, t.now);
            Law(s, After(next, r, t), fires + (if f then [t.now] else []), failures + if f && t.fails then 1 else 0)
  {
    if Starts(next, r, t.now) {
      FireKeepsLaw(s, r, fires, failures, t, next(r, t.now));
    } else {
      assert fires + [] == fires;
    }
  }

  /** Fire times strictly increase, counters count fires, a once-schedule fires at most once and
      MaxRuns bounds the number of runs, over every sequence of ticks. */
  lemma {:induction false} TicksKeepLaw(next: NextRunOf, s: Schedule, ticks: seq<Tick>)
    requires LooksAhead(next)
    ensures Law(s, Run(next, s, ticks), FireTimes(next, s, ticks), Failures(next, s, ticks))
  {
    if ticks != [] {
      var init, t := ticks[..|ticks| - 1], ticks[|ticks| - 1];
      TicksKeepLaw(next, s, init);
      TickKeepsLaw(next, s, Run(next, s, init), FireTimes(next, s, init), Failures(next, s, init), t);
    }
  }

  // ---------------------------------------------------------------------------------------
  // When a schedule stops firing
  // ---------------------------------------------------------------------------------------

  /** A schedule that is disabled, not active or has no next run never fires. */
  lemma {:induction false} IdleNeverFires(next: NextRunOf, s: Schedule, ticks: seq<Tick>)
    requires !s.enabled || s.status != Active || s.nextRunAt.None?
    ensures Run(next, s, ticks) == s && FireTimes(next, s, ticks) == []
  {
    if ticks != [] {
      IdleNeverFires(next, s, ticks[..|ticks| - 1]);
    }
  }

  /** A fire after which MaxRuns is used up or the expiry date has passed is the last one; a
      once-schedule has no other. */
  lemma LastFire(next: NextRunOf, s: Schedule, t: Tick, ticks: seq<Tick>)
    requires LooksAhead(next) && Starts(next, s, t.now)
    requires || (s.maxRuns > 0 && s.runCount + 1 >= s.maxRuns)
             || (s.expiresAt.Some? && s.expiresAt.value < t.clock)
             || s.once
    ensures FireTimes(next, After(next, s, t), ticks) == []
  {
    IdleNeverFires(next, After(next, s, t), ticks);
  }

  /** A fire that is none of these leaves the schedule active. */
  lemma OtherFiresGoOn(next: NextRunOf, s: Schedule, t: Tick)
    requires Starts(next, s, t.now)
    requires s.maxRuns <= 0 || s.runCount + 1 < s.maxRuns
    requires s.expiresAt.Some? ==> t.clock <= s.expiresAt.value
    ensures After(next, s, t).status == Active && After(next, s, t).enabled
  {
  }

  /** A tick fires a schedule exactly when it is enabled, active, its next run is not in the future,
      and its expression is accepted or not needed. */
  lemma PollFiresIff(st: State, now: int)
    ensures DoPoll(ComputeNextRun, st, now).fires == st.fires + [now] <==>
            && st.db.enabled && st.db.status == Active
            && st.db.nextRunAt.Some? && st.db.nextRunAt.value <= now
            && (st.db.once || CronMeaningOf(st.db.cron).Accepts?)
  {
    assert |st.fires + [now]| == |st.fires| + 1;
  }

  /** A tick ends the process exactly when it finds a due schedule whose expression panics the
      parser, which takes an edit of the table behind the service. */
  lemma PollCrashesIff(st: State, now: int)
    requires !st.down
    ensures DoPoll(ComputeNextRun, st, now).down <==>
            && st.db.enabled && st.db.status == Active
            && st.db.nextRunAt.Some? && st.db.nextRunAt.value <= now
            && !st.db.once && CronMeaningOf(st.db.cron).CronPanics?
  {
  }

  /** The next run written after a fire is the answer of the expression, as of the time of the tick. */
  lemma NextRunIsAnswer(s: Schedule, t: Tick)
    requires Starts(ComputeNextRun, s, t.now) && !s.once
    ensures CronMeaningOf(s.cron).Accepts?
    ensures CronAnswers.Answers(CronMeaningOf(s.cron).sets, t.now, s.offset, After(ComputeNextRun, s, t).nextRunAt)
  {
    assert ComputeNextRun(s, t.now) == FromMeaning(CronMeaningOf(s.cron), s.offset, t.now);
    MatchAnswers(CronMeaningOf(s.cron).sets, s.offset, t.now);
  }

  lemma MatchAnswers(sets: CronSets, offset: int, after: int)
    ensures var run := NextMatch(ScheduleOf(sets), offset, after);
            CronAnswers.Answers(sets, after, offset, if run.At? then Some(run.instant) else None)
  {
    var run := NextMatch(ScheduleOf(sets), offset, after);
    CronAnswers.AnswerOf(sets, after, offset, if run.At? then Some(run.instant) else None);
  }

  // ---------------------------------------------------------------------------------------
  // Overlapping fires and failed writes
  // ---------------------------------------------------------------------------------------

  /** Some fire of the run was started while another was under way. */
  ghost predicate Overlaps(next: NextRunOf, s: Schedule, events: seq<Event>)
    requires Runs(next, s, events)
  {
    events != [] &&
    var init, e := events[..|events| - 1], events[|events| - 1];
    var st := Exec(next, s, init);
    Overlaps(next, s, init) || (e.Poll? && Starts(next, st.db, e.now) && st.flying != [])
  }

  /** No two fires overlapped and every write succeeded. */
  ghost predicate Orderly(next: NextRunOf, s: Schedule, events: seq<Event>)
    requires Runs(next, s, events)
  {
    !Overlaps(next, s, events) && !SomeWriteFailed(events)
  }

  ghost predicate SomeWriteFailed(events: seq<Event>) {
    exists e <- events :: e.WriteFails?
  }

  /** The lost writes are the failed ones. */
  lemma {:induction false} LostIffFailed(next: NextRunOf, s: Schedule, events: seq<Event>)
    requires Runs(next, s, events)
    ensures Exec(next, s, events).lost > 0 <==> SomeWriteFailed(events)
  {
    if events != [] {
      var init := events[..|events| - 1];
      LostIffFailed(next, s, init);
      assert events == init + [events[|events| - 1]];
    }
  }

  /** An orderly run is where its completed fires, one after the other, lead; at most one more fire
      is under way, started from the current record. */
  ghost predicate Sequential(next: NextRunOf, s: Schedule, st: State) {
    && st.db == Run(next, s, st.done)
    && |st.flying| <= 1
    && st.fires == FireTimes(next, s, st.done) + (if st.flying == [] then [] else [st.flying[0].now])
    && (st.flying != [] ==>
          st.flying[0] == Fire(st.db, st.flying[0].now, next(st.db, st.flying[0].now))
          && Starts(next, st.db, st.flying[0].now))
  }

  lemma RunSnoc(next: NextRunOf, s: Schedule, ticks: seq<Tick>, t: Tick)
    ensures Run(next, s, ticks + [t]) == After(next, Run(next, s, ticks), t)
    ensures FireTimes(next, s, ticks + [t]) ==
            FireTimes(next, s, ticks) + if Starts(next, Run(next, s, ticks), t.now) then [t.now] else []
  {
    assert (ticks + [t])[..|ticks|] == ticks;
  }

  lemma CompleteStaysSequential(next: NextRunOf, s: Schedule, st: State, n: nat, clock: int, fails: bool)
    requires Sequential(next, s, st) && n < |st.flying|
    ensures Sequential(next, s, DoComplete(st, n, clock, fails))
  {
    RunSnoc(next, s, st.done, Tick(st.flying[0].now, clock, fails));
  }

  lemma {:induction false} OrderlyIsSequential(next: NextRunOf, s: Schedule, events: seq<Event>)
    requires Runs(next, s, events) && Orderly(next, s, events)
    ensures Sequential(next, s, Exec(next, s, events))
  {
    if events != [] {
      var init, e := events[..|events| - 1], events[|events| - 1];
      assert events == init + [e];
      OrderlyIsSequential(next, s, init);
      if e.Complete? {
        CompleteStaysSequential(next, s, Exec(next, s, init), e.n, e.clock, e.fails);
      }
    }
  }

  /** The record never counts more runs than were written. After an overlap it counts fewer, or two
      fires are under way, or the only one under way will write a count that is too low. */
  ghost predicate RunsCounted(s: Schedule, st: State, overlapped: bool) {
    && |st.fires| == |st.done| + |st.flying| + st.lost
    && st.db.runCount <= s.runCount + |st.done|
    && (forall f <- st.flying :: f.copy.runCount <= s.runCount + |st.done|)
    && (overlapped && st.lost == 0 ==>
          match |st.flying|
          case 0 => st.db.runCount < s.runCount + |st.done|
          case 1 => st.flying[0].copy.runCount < s.runCount + |st.done|
          case _ => true)
  }

  lemma PollCounts(next: NextRunOf, s: Schedule, st: State, overlapped: bool, now: int)
    requires RunsCounted(s, st, overlapped)
    ensures RunsCounted(s, DoPoll(next, st, now), overlapped || (Starts(next, st.db, now) && st.flying != []))
  {
  }

  lemma CompleteCounts(s: Schedule, st: State, overlapped: bool, n: nat, clock: int, fails: bool)
    requires RunsCounted(s, st, overlapped) && n < |st.flying|
    ensures RunsCounted(s, DoComplete(st, n, clock, fails), overlapped)
  {
    var f, t := st.flying[n], DoComplete(st, n, clock, fails);
    assert f in st.flying;
    forall g | g in t.flying
      ensures g.copy.runCount < s.runCount + |t.done|
    {
      assert g in st.flying;
    }
  }

  lemma {:induction false} EveryRunCounted(next: NextRunOf, s: Schedule, events: seq<Event>)
    requires Runs(next, s, events)
    ensures RunsCounted(s, Exec(next, s, events), Overlaps(next, s, events))
  {
    if events != [] {
      var init, e := events[..|events| - 1], events[|events| - 1];
      EveryRunCounted(next, s, init);
      var st := Exec(next, s, init);
      match e
      case Poll(now) => PollCounts(next, s, st, Overlaps(next, s, init), now);
      case Complete(n, clock, fails) => CompleteCounts(s, st, Overlaps(next, s, init), n, clock, fails);
      case WriteFails(n) => assert forall f <- DoWriteFails(st, n).flying :: f in st.flying;
    }
  }

  /** Once all fires have ended, RunCount has grown by one per fire exactly when no two fires
      overlapped and every write succeeded; otherwise it has grown by less. */
  lemma RunsCountedIffOrderly(next: NextRunOf, s: Schedule, events: seq<Event>)
    requires LooksAhead(next) && Runs(next, s, events) && Exec(next, s, events).flying == []
    ensures var st := Exec(next, s, events);
            && st.db.runCount <= s.runCount + |st.fires|
            && (st.db.runCount == s.runCount + |st.fires| <==> Orderly(next, s, events))
  {
    EveryRunCounted(next, s, events);
    LostIffFailed(next, s, events);
    if Orderly(next, s, events) {
      OrderlyIsSequential(next, s, events);
      TicksKeepLaw(next, s, Exec(next, s, events).done);
    }
  }

  /** Some fire was started while another was under way or after a failed write. */
  ghost predicate Restarts(next: NextRunOf, s: Schedule, events: seq<Event>)
    requires Runs(next, s, events)
  {
    events != [] &&
    var init, e := events[..|events| - 1], events[|events| - 1];
    var st := Exec(next, s, init);
    Restarts(next, s, init) || (e.Poll? && Starts(next, st.db, e.now) && (st.flying != [] || SomeWriteFailed(init)))
  }

  /** A once-schedule that has fired is not due again, unless its fire has not written yet or could
      not. */
  ghost predicate FiredOnce(st: State, restarted: bool) {
    && st.db.once && (forall f <- st.flying :: f.run == Never)
    && (restarted ==> |st.fires| >= 2)
    && (!restarted ==>
          && |st.fires| <= 1
          && (st.fires != [] && st.flying == [] && st.lost == 0 ==> st.db.nextRunAt.None?))
  }

  lemma {:induction false} OnceFired(next: NextRunOf, s: Schedule, events: seq<Event>)
    requires LooksAhead(next) && Runs(next, s, events) && s.once
    ensures FiredOnce(Exec(next, s, events), Restarts(next, s, events))
  {
    if events != [] {
      var init, e := events[..|events| - 1], events[|events| - 1];
      OnceFired(next, s, init);
      EveryRunCounted(next, s, init);
      LostIffFailed(next, s, init);
      if !e.Poll? {
        var st := Exec(next, s, init);
        assert st.flying[e.n] in st.flying;
        assert forall f <- Exec(next, s, events).flying :: f in st.flying;
      }
    }
  }

  /** A once-schedule fires at most once exactly when no fire is started while another is under way
      or after a failed write. */
  lemma OnceFiresOnceIff(next: NextRunOf, s: Schedule, events: seq<Event>)
    requires LooksAhead(next) && Runs(next, s, events) && s.once
    ensures |Exec(next, s, events).fires| <= 1 <==> !Restarts(next, s, events)
  {
    OnceFired(next, s, events);
  }

  lemma RunsOn(next: NextRunOf, s: Schedule, events: seq<Event>, e: Event)
    requires Runs(next, s, events) && Enabled(Exec(next, s, events), e)
    ensures Runs(next, s, events + [e]) && Exec(next, s, events + [e]) == Apply(next, Exec(next, s, events), e)
    ensures Overlaps(next, s, events + [e]) <==>
            var st := Exec(next, s, events);
            Overlaps(next, s, events) || (e.Poll? && Starts(next, st.db, e.now) && st.flying != [])
  {
    assert (events + [e])[..|events|] == events;
  }

  /** Two ticks before the first fire has written start a due once-schedule twice. */
  lemma OverlapHappens(s: Schedule, now: int, later: int)
    requires s.once && Due(s, now) && now <= later
    ensures var events := [Poll(now)] + [Poll(later)];
            Runs(ComputeNextRun, s, events) && Exec(ComputeNextRun, s, events).fires == [now, later]
  {
    RunsOn(ComputeNextRun, s, [], Poll(now));
    assert [] + [Poll(now)] == [Poll(now)];
    RunsOn(ComputeNextRun, s, [Poll(now)], Poll(later));
  }

  /** So does a tick after a failed write. */
  lemma FailedWriteRefires(s: Schedule, now: int, later: int)
    requires s.once && Due(s, now) && now <= later
    ensures var events := [Poll(now)] + [WriteFails(0)] + [Poll(later)];
            && Runs(ComputeNextRun, s, events) && !Overlaps(ComputeNextRun, s, events)
            && Exec(ComputeNextRun, s, events).fires == [now, later]
  {
    RunsOn(ComputeNextRun, s, [], Poll(now));
    assert [] + [Poll(now)] == [Poll(now)];
    RunsOn(ComputeNextRun, s, [Poll(now)], WriteFails(0));
    RunsOn(ComputeNextRun, s, [Poll(now)] + [WriteFails(0)], Poll(later));
  }

  /** Even then a record never counts more failures than runs. */
  ghost predicate FailuresBounded(st: State) {
    st.db.failureCount <= st.db.runCount && forall f <- st.flying :: f.copy.failureCount <= f.copy.runCount
  }

  lemma {:induction false} FailuresNeverExceedRuns(next: NextRunOf, s: Schedule, events: seq<Event>)
    requires Runs(next, s, events) && s.failureCount <= s.runCount
    ensures FailuresBounded(Exec(next, s, events))
  {
    if events != [] {
      var init, e := events[..|events| - 1], events[|events| - 1];
      FailuresNeverExceedRuns(next, s, init);
      if !e.Poll? {
        assert Exec(next, s, init).flying[e.n] in Exec(next, s, init).flying;
      }
    }
  }

  // ---------------------------------------------------------------------------------------
  // What the service stores
  // ---------------------------------------------------------------------------------------

  datatype ScheduleType = Cron | Once | Daily | Weekly | Monthly | Unsupported

  datatype Normalised = Expression(cron: string) | Refused | Panicked

  /** normaliseCron of the schedule service, which Create and Update call before they store. */
  method NormaliseCron(kind: ScheduleType, expr: string) returns (r: Normalised)
    ensures r.Expression? ==> kind == Once || (CronMeaningOf(r.cron).Accepts? && r.cron == expr)
    ensures r.Panicked? <==> kind != Once && kind != Unsupported && CronMeaningOf(expr).CronPanics?
    ensures kind == Once ==> r == Expression(if expr == "" then "0 0 1 1 *" else expr)
    ensures kind == Unsupported ==> r == Refused
    ensures kind != Unsupported && CronMeaningOf(expr).Accepts? ==> r == Expression(expr)
  {
    EmptyIsRejected();
    match kind {
      case Once => return Expression(if expr == "" then "0 0 1 1 *" else expr);
      case Unsupported => return Refused;
      case _ =>
        if kind != Cron && expr == "" {
          return Refused;
        }
        var parsed := ParseCron(expr);
        match parsed {
          case Parsed(_) => return Expression(expr);
          case Failed => return Refused;
          case Crashed => return Panicked;
        }
    }
  }

  lemma EmptyIsRejected()
    ensures CronMeaningOf("") == Rejects
  {
  }

  /** The service stores only once-schedules and expressions the parser accepts. */
  predicate Storable(s: Schedule) {
    s.once || CronMeaningOf(s.cron).Accepts?
  }

  /** Whatever its counters and times, a record with this expression and type does not crash. */
  ghost predicate Safe(next: NextRunOf, s: Schedule) {
    forall r: Schedule, now :: r.cron == s.cron && r.once == s.once ==> !next(r, now).Crashes?
  }

  lemma {:induction false} SafeNeverCrashes(next: NextRunOf, s: Schedule, events: seq<Event>)
    requires Safe(next, s) && Runs(next, s, events)
    ensures var st := Exec(next, s, events); !st.down && st.db.cron == s.cron && st.db.once == s.once
  {
    if events != [] {
      SafeNeverCrashes(next, s, events[..|events| - 1]);
    }
  }

  lemma StorableIsSafe(s: Schedule)
    requires Storable(s)
    ensures Safe(ComputeNextRun, s)
  {
    forall r: Schedule, now | r.cron == s.cron && r.once == s.once
      ensures !ComputeNextRun(r, now).Crashes?
    {
      assert Storable(r);
    }
  }

  /** On such a record the engine never goes down, and the record stays such. */
  lemma StoredNeverCrashes(s: Schedule, events: seq<Event>)
    requires Storable(s) && Runs(ComputeNextRun, s, events)
    ensures var st := Exec(ComputeNextRun, s, events); !st.down && st.db.cron == s.cron && st.db.once == s.once
  {
    StorableIsSafe(s);
    SafeNeverCrashes(ComputeNextRun, s, events);
  }

  // ---------------------------------------------------------------------------------------
  // The engine
  // ---------------------------------------------------------------------------------------

  /** For orderly runs of the cron-driven engine: a schedule starting at zero runs fires at strictly
      increasing times, at most MaxRuns times (once if it is a once-schedule), and RunCount is the
      number of fires that have written and FailureCount at most that. */
  lemma EngineLaw(s: Schedule, events: seq<Event>)
    requires s.runCount == 0 && s.failureCount == 0
    requires Runs(ComputeNextRun, s, events) && Orderly(ComputeNextRun, s, events)
    ensures var st := Exec(ComputeNextRun, s, events);
            && Increasing(st.fires)
            && (s.maxRuns > 0 ==> |st.fires| <= s.maxRuns)
            && (s.once ==> |st.fires| <= 1)
            && st.db.failureCount <= st.db.runCount == |st.fires| - |st.flying|
  {
    ComputeNextRunLooksAhead();
    var st := Exec(ComputeNextRun, s, events);
    OrderlyIsSequential(ComputeNextRun, s, events);
    LostIffFailed(ComputeNextRun, s, events);
    TicksKeepLaw(ComputeNextRun, s, st.done);
    if st.flying != [] {
      FireKeepsLaw(s, st.db, FireTimes(ComputeNextRun, s, st.done), Failures(ComputeNextRun, s, st.done),
                   Tick(st.flying[0].now, 0, false), st.flying[0].run);
    }
  }
}
