/** ParseCron: five text fields into five bit arrays. */
module CronParser {
  import opened Wrappers
  import opened CronText

  /** The parsed bit arrays; days and months are 1-indexed with entry 0 unused. */
  datatype CronSchedule = CronSchedule(
    minutes: seq<bool>, hours: seq<bool>, days: seq<bool>, months: seq<bool>, weekdays: seq<bool>)
  {
    predicate WellFormed() {
      |minutes| == 60 && |hours| == 24 && |days| == 32 && |months| == 13 && |weekdays| == 7
    }
  }

  /** Ending of a parsing function: normal, an error value, or an index-out-of-range panic. */
  datatype Ending = Ok | Error | Panic

  type Names = map<string, int>

  const MONTH_NAMES: Names := map[
    "jan" := 1, "feb" := 2, "mar" := 3, "apr" := 4, "may" := 5, "jun" := 6,
    "jul" := 7, "aug" := 8, "sep" := 9, "oct" := 10, "nov" := 11, "dec" := 12]

  const WEEKDAY_NAMES: Names := map[
    "sun" := 0, "mon" := 1, "tue" := 2, "wed" := 3, "thu" := 4, "fri" := 5, "sat" := 6]

  // ---------------------------------------------------------------------------------------
  // Specification: what a field denotes
  // ---------------------------------------------------------------------------------------

  /** Meaning of a text: a set of values, an error, or a panic. */
  datatype Meaning = Values(values: set<int>) | Rejected | Panics

  /** parseValue: a name (case-insensitively) or a number. */
  function ParseValue(s: string, names: Names): Option<int> {
    if ToLower(s) in names then Some(names[ToLower(s)])
    else match Atoi(s) case Some(n) => Some(n) case None => None
  }

  /** lo, lo + step, ... up to hi. The counter is a 64-bit int: when lo + step does not fit,
      it turns negative and the next write is out of range. */
  function Progression(lo: int, hi: int, step: int): Meaning
    requires step > 0
  {
    if lo + step > MAX_INT then Panics
    else Values(set v | lo <= v <= hi && OnGrid(lo, step, v))
  }

  /** v is lo, lo + step, lo + 2 * step, ... */
  predicate OnGrid(lo: int, step: int, v: int)
    requires step > 0
    decreases v - lo
  {
    v == lo || (v > lo && OnGrid(lo, step, v - step))
  }

  function RangeMeaning(lo: Option<int>, hi: Option<int>, step: int, min: int, max: int): Meaning
    requires step > 0
  {
    if lo.None? || hi.None? then Rejected
    else if lo.value < min || hi.value > max || lo.value > hi.value then Rejected
    else Progression(lo.value, hi.value, step)
  }

  function SingleMeaning(v: Option<int>, min: int, max: int): Meaning {
    if v.None? || v.value < min || v.value > max then Rejected else Values({v.value})
  }

  function BodyMeaning(body: string, step: int, min: int, max: int, names: Names): Meaning
    requires step > 0
  {
    if body == "*" then Progression(min, max, step)
    else
      var dash := Index(body, '-');
      if dash >= 0
      then RangeMeaning(ParseValue(body[..dash], names), ParseValue(body[dash + 1..], names), step, min, max)
      else SingleMeaning(ParseValue(body, names), min, max)
  }

  /** One comma-separated part: body, or body/step. The step of a single value is ignored. */
  function PartMeaning(part: string, min: int, max: int, names: Names): Meaning {
    var slash := Index(part, '/');
    if slash < 0 then BodyMeaning(part, 1, min, max, names)
    else
      match Atoi(part[slash + 1..])
      case Some(step) => if step < 1 then Rejected else BodyMeaning(part[..slash], step, min, max, names)
      case None => Rejected
  }

  /** A field is the union of its parts; the first part that is not accepted decides. */
  function PartsMeaning(parts: seq<string>, min: int, max: int, names: Names): Meaning {
    if parts == [] then Values({})
    else
      var init := PartsMeaning(parts[..|parts| - 1], min, max, names);
      if !init.Values? then init
      else
        var last := PartMeaning(parts[|parts| - 1], min, max, names);
        if last.Values? then Values(init.values + last.values) else last
  }

  function FieldMeaning(field: string, min: int, max: int, names: Names): Meaning {
    PartsMeaning(Split(field, ','), min, max, names)
  }

  datatype CronSets = CronSets(
    minutes: set<int>, hours: set<int>, days: set<int>, months: set<int>, weekdays: set<int>)

  datatype CronMeaning = Accepts(sets: CronSets) | Rejects | CronPanics

  /** What an expression means: five value sets, a rejection, or a panic. The first field that
      is not accepted decides. */
  function CronMeaningOf(expr: string): CronMeaning {
    var fields := SplitFields(expr);
    if |fields| != 5 then Rejects
    else Combine(
      FieldMeaning(fields[0], 0, 59, map[]), FieldMeaning(fields[1], 0, 23, map[]),
      FieldMeaning(fields[2], 1, 31, map[]), FieldMeaning(fields[3], 1, 12, MONTH_NAMES),
      FieldMeaning(fields[4], 0, 6, WEEKDAY_NAMES))
  }

  function Combine(mi: Meaning, ho: Meaning, da: Meaning, mo: Meaning, we: Meaning): CronMeaning {
    if !mi.Values? then Failure(mi)
    else if !ho.Values? then Failure(ho)
    else if !da.Values? then Failure(da)
    else if !mo.Values? then Failure(mo)
    else if !we.Values? then Failure(we)
    else Accepts(CronSets(mi.values, ho.values, da.values, mo.values, we.values))
  }

  function Failure(m: Meaning): CronMeaning
    requires !m.Values?
  {
    if m.Panics? then CronPanics else Rejects
  }

  // ---------------------------------------------------------------------------------------
  // The parser
  // ---------------------------------------------------------------------------------------

  /** Two's-complement wrap-around of a 64-bit int, for results at most one turn off. */
  function Wrap(n: int): Int64
    requires 2 * MIN_INT <= n <= 2 * MAX_INT
  {
    if n > MAX_INT then n - 0x1_0000_0000_0000_0000
    else if n < MIN_INT then n + 0x1_0000_0000_0000_0000
    else n
  }

  /** bits[v - min] is set exactly for the values of `was` and of `added`. */
  ghost predicate Marks(was: seq<bool>, now: seq<bool>, min: int, added: set<int>) {
    && |now| == |was|
    && forall i :: 0 <= i < |now| ==> (now[i] <==> was[i] || min + i in added)
  }

  lemma {:induction false} NothingBetweenGridPoints(lo: int, step: int, i: int, v: int)
    requires step > 0 && OnGrid(lo, step, i) && i < v < i + step
    ensures !OnGrid(lo, step, v)
    decreases i - lo
  {
    if i > lo {
      NothingBetweenGridPoints(lo, step, i - step, v - step);
    }
  }

  /** One round of the loop: the write at i extends the marked part from below i to below i + step. */
  lemma FillStep(lo: int, hi: int, step: int, min: int, i: int, was: seq<bool>, before: seq<bool>, after: seq<bool>)
    requires step > 0 && min <= lo <= i <= hi < min + |was| && OnGrid(lo, step, i)
    requires Filled(lo, hi, step, min, i, was, before)
    requires after == before[i - min := true]
    ensures Filled(lo, hi, step, min, i + step, was, after)
    ensures OnGrid(lo, step, i + step)
  {
    forall j | 0 <= j < |after|
      ensures after[j] <==> was[j] || (lo <= min + j < i + step && min + j <= hi && OnGrid(lo, step, min + j))
    {
      if i < min + j < i + step {
        NothingBetweenGridPoints(lo, step, i, min + j);
      }
    }
  }

  ghost predicate Filled(lo: int, hi: int, step: int, min: int, i: int, was: seq<bool>, now: seq<bool>)
    requires step > 0
  {
    && |now| == |was|
    && forall j :: 0 <= j < |now| ==>
         (now[j] <==> was[j] || (lo <= min + j < i && min + j <= hi && OnGrid(lo, step, min + j)))
  }

  /** The loop `for i := lo; i <= hi; i += step` over a bit slice. */
  method FillProgression(lo: int, hi: int, step: Int64, min: int, bits: array<bool>) returns (e: Ending)
    requires 0 <= min <= lo <= hi < min + bits.Length <= 100 && step > 0
    modifies bits
    ensures e.Panic? <==> Progression(lo, hi, step).Panics?
    ensures !e.Panic? ==> e.Ok? && Marks(old(bits[..]), bits[..], min, Progression(lo, hi, step).values)
  {
    var i := lo;
    ghost var was := bits[..];
    while i <= hi
      invariant lo + step > MAX_INT ==> i == lo || i == lo + step - 0x1_0000_0000_0000_0000
      invariant lo + step <= MAX_INT ==>
                  lo <= i <= MAX_INT && OnGrid(lo, step, i) && Filled(lo, hi, step, min, i, was, bits[..])
      decreases if i < 0 then 0 else 1 + hi - i
    {
      var index := Wrap(i - min);
      if !(0 <= index < bits.Length) {
        return Panic;
      }
      ghost var before := bits[..];
      bits[index] := true;
      if lo + step <= MAX_INT {
        FillStep(lo, hi, step, min, i, was, before, bits[..]);
      }
      i := Wrap(i + step);
    }
    return Ok;
  }

  /** parsePart. */
  method ParsePart(text: string, min: int, max: int, bits: array<bool>, names: Names) returns (e: Ending)
    requires 0 <= min <= max == min + bits.Length - 1 < 100
    modifies bits
    ensures EndingOf(PartMeaning(text, min, max, names)) == e
    ensures e.Ok? ==> Marks(old(bits[..]), bits[..], min, PartMeaning(text, min, max, names).values)
  {
    var slash := Index(text, '/');
    if slash < 0 {
      e := ParseBody(text, 1, min, max, bits, names);
      return;
    }
    var step := Atoi(text[slash + 1..]);
    if step.None? || step.value < 1 {
      return Error;
    }
    e := ParseBody(text[..slash], step.value, min, max, bits, names);
  }

  method ParseBody(part: string, step: Int64, min: int, max: int, bits: array<bool>, names: Names)
    returns (e: Ending)
    requires 0 <= min <= max == min + bits.Length - 1 < 100 && step > 0
    modifies bits
    ensures EndingOf(BodyMeaning(part, step, min, max, names)) == e
    ensures e.Ok? ==> Marks(old(bits[..]), bits[..], min, BodyMeaning(part, step, min, max, names).values)
  {
    if part == "*" {
      e := FillProgression(min, max, step, min, bits);
      return;
    }
    var dash := Index(part, '-');
    if dash >= 0 {
      e := ParseRange(ParseValue(part[..dash], names), ParseValue(part[dash + 1..], names), step, min, max, bits);
    } else {
      e := ParseSingle(ParseValue(part, names), min, max, bits);
    }
  }

  method ParseRange(lo: Option<int>, hi: Option<int>, step: Int64, min: int, max: int, bits: array<bool>)
    returns (e: Ending)
    requires 0 <= min <= max == min + bits.Length - 1 < 100 && step > 0
    modifies bits
    ensures EndingOf(RangeMeaning(lo, hi, step, min, max)) == e
    ensures e.Ok? ==> Marks(old(bits[..]), bits[..], min, RangeMeaning(lo, hi, step, min, max).values)
  {
    if lo.None? || hi.None? {
      return Error;
    }
    if lo.value < min || hi.value > max || lo.value > hi.value {
      return Error;
    }
    e := FillProgression(lo.value, hi.value, step, min, bits);
  }

  method ParseSingle(v: Option<int>, min: int, max: int, bits: array<bool>) returns (e: Ending)
    requires 0 <= min <= max == min + bits.Length - 1 < 100
    modifies bits
    ensures EndingOf(SingleMeaning(v, min, max)) == e
    ensures e.Ok? ==> Marks(old(bits[..]), bits[..], min, SingleMeaning(v, min, max).values)
  {
    if v.None? || v.value < min || v.value > max {
      return Error;
    }
    bits[v.value - min] := true;
    return Ok;
  }

  function EndingOf(m: Meaning): Ending {
    match m
    case Values(_) => Ok
    case Rejected => Error
    case Panics => Panic
  }

  /** parseField. */
  method ParseField(field: string, min: int, max: int, bits: array<bool>, names: Names) returns (e: Ending)
    requires 0 <= min <= max == min + bits.Length - 1 < 100
    modifies bits
    ensures EndingOf(FieldMeaning(field, min, max, names)) == e
    ensures e.Ok? ==> Marks(old(bits[..]), bits[..], min, FieldMeaning(field, min, max, names).values)
  {
    var parts := Split(field, ',');
    for i := 0 to |parts|
      invariant PartsMeaning(parts[..i], min, max, names).Values?
      invariant Marks(old(bits[..]), bits[..], min, PartsMeaning(parts[..i], min, max, names).values)
    {
      assert parts[..i + 1][..i] == parts[..i];
      e := ParsePart(parts[i], min, max, bits, names);
      if !e.Ok? {
        FailureSticks(parts, i, min, max, names);
        return;
      }
    }
    assert parts[..|parts|] == parts;
    return Ok;
  }

  /** A part that is not accepted decides the meaning of the whole field. */
  lemma {:induction false} FailureSticks(parts: seq<string>, i: nat, min: int, max: int, names: Names)
    requires i < |parts|
    requires PartsMeaning(parts[..i], min, max, names).Values?
    requires !PartMeaning(parts[i], min, max, names).Values?
    ensures PartsMeaning(parts, min, max, names) == PartMeaning(parts[i], min, max, names)
    decreases |parts|
  {
    if i < |parts| - 1 {
      var init := parts[..|parts| - 1];
      assert init[..i] == parts[..i];
      FailureSticks(init, i, min, max, names);
    }
  }

  datatype ParseResult = Parsed(schedule: CronSchedule) | Failed | Crashed

  method NewField(field: string, min: int, max: int, names: Names) returns (e: Ending, bits: seq<bool>)
    requires 0 <= min <= max < 100
    ensures EndingOf(FieldMeaning(field, min, max, names)) == e
    ensures |bits| == max - min + 1
    ensures e.Ok? ==> BitsOf(bits, min, FieldMeaning(field, min, max, names).values)
  {
    var slice := new bool[max - min + 1](_ => false);
    e := ParseField(field, min, max, slice, names);
    bits := slice[..];
  }

  ghost predicate BitsOf(bits: seq<bool>, first: int, s: set<int>) {
    forall i :: 0 <= i < |bits| ==> (bits[i] <==> first + i in s)
  }

  /** The schedule's arrays are the characteristic functions of the five sets. */
  ghost predicate Represents(cs: CronSchedule, sets: CronSets) {
    && cs.WellFormed() && !cs.days[0] && !cs.months[0]
    && BitsOf(cs.minutes, 0, sets.minutes)
    && BitsOf(cs.hours, 0, sets.hours)
    && BitsOf(cs.days[1..], 1, sets.days)
    && BitsOf(cs.months[1..], 1, sets.months)
    && BitsOf(cs.weekdays, 0, sets.weekdays)
  }

  /** The arrays of five sets. */
  function ScheduleOf(sets: CronSets): (cs: CronSchedule)
    ensures cs.WellFormed()
  {
    CronSchedule(
      seq(60, i => i in sets.minutes), seq(24, i => i in sets.hours),
      seq(32, i => i > 0 && i in sets.days), seq(13, i => i > 0 && i in sets.months),
      seq(7, i => i in sets.weekdays))
  }

  /** Only one schedule represents given sets. */
  lemma RepresentationUnique(cs: CronSchedule, sets: CronSets)
    requires Represents(cs, sets)
    ensures cs == ScheduleOf(sets)
  {
    assert forall i :: 1 <= i < 32 ==> cs.days[i] == cs.days[1..][i - 1];
    assert forall i :: 1 <= i < 13 ==> cs.months[i] == cs.months[1..][i - 1];
    var c := ScheduleOf(sets);
    assert cs.minutes == c.minutes && cs.hours == c.hours && cs.days == c.days && cs.months == c.months
           && cs.weekdays == c.weekdays;
  }

  /** The result delivers what the expression means. */
  ghost predicate Implements(m: CronMeaning, r: ParseResult) {
    match m
    case Accepts(sets) => r.Parsed? && Represents(r.schedule, sets)
    case Rejects => r == Failed
    case CronPanics => r == Crashed
  }

  /** ParseCron. */
  method ParseCron(expr: string) returns (r: ParseResult)
    ensures Implements(CronMeaningOf(expr), r)
  {
    var fields := SplitFields(expr);
    if |fields| != 5 {
      return Failed;
    }
    r := ParseFields(fields[0], fields[1], fields[2], fields[3], fields[4]);
  }

  method ParseFields(mi: string, ho: string, da: string, mo: string, we: string) returns (r: ParseResult)
    ensures Implements(Combine(FieldMeaning(mi, 0, 59, map[]), FieldMeaning(ho, 0, 23, map[]),
                               FieldMeaning(da, 1, 31, map[]), FieldMeaning(mo, 1, 12, MONTH_NAMES),
                               FieldMeaning(we, 0, 6, WEEKDAY_NAMES)), r)
  {
    var e, minutes := NewField(mi, 0, 59, map[]);
    if !e.Ok? { return Stop(e); }
    var hours;
    e, hours := NewField(ho, 0, 23, map[]);
    if !e.Ok? { return Stop(e); }
    var days;
    e, days := NewField(da, 1, 31, map[]);
    if !e.Ok? { return Stop(e); }
    var months;
    e, months := NewField(mo, 1, 12, MONTH_NAMES);
    if !e.Ok? { return Stop(e); }
    var weekdays;
    e, weekdays := NewField(we, 0, 6, WEEKDAY_NAMES);
    if !e.Ok? { return Stop(e); }
    Assembled(minutes, hours, days, months, weekdays,
              CronSets(FieldMeaning(mi, 0, 59, map[]).values, FieldMeaning(ho, 0, 23, map[]).values,
                       FieldMeaning(da, 1, 31, map[]).values, FieldMeaning(mo, 1, 12, MONTH_NAMES).values,
                       FieldMeaning(we, 0, 6, WEEKDAY_NAMES).values));
    r := Parsed(CronSchedule(minutes, hours, [false] + days, [false] + months, weekdays));
  }

  lemma Assembled(mi: seq<bool>, ho: seq<bool>, da: seq<bool>, mo: seq<bool>, we: seq<bool>, sets: CronSets)
    requires |mi| == 60 && |ho| == 24 && |da| == 31 && |mo| == 12 && |we| == 7
    requires BitsOf(mi, 0, sets.minutes) && BitsOf(ho, 0, sets.hours) && BitsOf(da, 1, sets.days)
    requires BitsOf(mo, 1, sets.months) && BitsOf(we, 0, sets.weekdays)
    ensures Represents(CronSchedule(mi, ho, [false] + da, [false] + mo, we), sets)
  {
    assert ([false] + da)[1..] == da && ([false] + mo)[1..] == mo;
  }

  function Stop(e: Ending): ParseResult
    requires !e.Ok?
  {
    if e.Panic? then Crashed else Failed
  }
}
