/** Laws of the cron parser: accepted fields are non-empty and in range, exactly which steps
    crash it, and the printers DailyCron, WeeklyCron and MonthlyCron parse back. */
module CronLaws {
  import opened Wrappers
  import opened CronText
  import opened CronParser

  // ---------------------------------------------------------------------------------------
  // Accepted schedules
  // ---------------------------------------------------------------------------------------

  lemma PartNonEmpty(part: string, min: int, max: int, names: Names)
    requires min <= max
    requires PartMeaning(part, min, max, names).Values?
    ensures var s := PartMeaning(part, min, max, names).values;
            s != {} && forall v <- s :: min <= v <= max
  {
    var slash := Index(part, '/');
    var body := if slash < 0 then part else part[..slash];
    var step: int := if slash < 0 then 1 else Atoi(part[slash + 1..]).value;
    assert PartMeaning(part, min, max, names) == BodyMeaning(body, step, min, max, names);
    if body == "*" {
      ProgressionNonEmpty(min, max, step);
    } else {
      var dash := Index(body, '-');
      if dash >= 0 {
        ProgressionNonEmpty(ParseValue(body[..dash], names).value, ParseValue(body[dash + 1..], names).value, step);
      }
    }
  }

  lemma ProgressionNonEmpty(lo: int, hi: int, step: int)
    requires step > 0 && lo <= hi && Progression(lo, hi, step).Values?
    ensures lo in Progression(lo, hi, step).values
    ensures forall v <- Progression(lo, hi, step).values :: lo <= v <= hi
  {
    assert OnGrid(lo, step, lo);
  }

  lemma {:induction false} PartsNonEmpty(parts: seq<string>, min: int, max: int, names: Names)
    requires min <= max
    requires PartsMeaning(parts, min, max, names).Values?
    ensures var s := PartsMeaning(parts, min, max, names).values;
            (parts != [] ==> s != {}) && forall v <- s :: min <= v <= max
  {
    if parts != [] {
      PartsNonEmpty(parts[..|parts| - 1], min, max, names);
      PartNonEmpty(parts[|parts| - 1], min, max, names);
    }
  }

  ghost predicate NonEmptyWithin(s: set<int>, min: int, max: int) {
    s != {} && forall v <- s :: min <= v <= max
  }

  /** Every field of an accepted expression allows at least one value, and only values in range. */
  lemma AcceptedFieldsNonEmpty(expr: string)
    requires CronMeaningOf(expr).Accepts?
    ensures var sets := CronMeaningOf(expr).sets;
            && NonEmptyWithin(sets.minutes, 0, 59) && NonEmptyWithin(sets.hours, 0, 23)
            && NonEmptyWithin(sets.days, 1, 31) && NonEmptyWithin(sets.months, 1, 12)
            && NonEmptyWithin(sets.weekdays, 0, 6)
  {
    var f := SplitFields(expr);
    PartsNonEmpty(Split(f[0], ','), 0, 59, map[]);
    PartsNonEmpty(Split(f[1], ','), 0, 23, map[]);
    PartsNonEmpty(Split(f[2], ','), 1, 31, map[]);
    PartsNonEmpty(Split(f[3], ','), 1, 12, MONTH_NAMES);
    PartsNonEmpty(Split(f[4], ','), 0, 6, WEEKDAY_NAMES);
  }

  /** A field denotes the union of its parts: a value is set exactly when some part sets it. */
  lemma {:induction false} FieldIsUnion(parts: seq<string>, min: int, max: int, names: Names, v: int)
    requires PartsMeaning(parts, min, max, names).Values?
    ensures forall p <- parts :: PartMeaning(p, min, max, names).Values?
    ensures v in PartsMeaning(parts, min, max, names).values <==>
            exists p <- parts :: v in PartMeaning(p, min, max, names).values
  {
    if parts != [] {
      var init := parts[..|parts| - 1];
      FieldIsUnion(init, min, max, names, v);
      var last := parts[|parts| - 1];
      forall p | p in parts
        ensures p in init || p == last
      {
      }
      if v in PartMeaning(last, min, max, names).values {
        assert last in parts;
      } else if p :| p in init && v in PartMeaning(p, min, max, names).values {
        assert p in parts;
      }
    }
  }

  /** The grid of a progression in closed form. */
  lemma {:induction false} OnGridIff(lo: int, step: int, v: int)
    requires step > 0
    ensures OnGrid(lo, step, v) <==> exists q: nat :: v == lo + q * step
    decreases v - lo
  {
    if v == lo {
      assert v == lo + 0 * step;
    } else if v > lo {
      OnGridIff(lo, step, v - step);
      if OnGrid(lo, step, v) {
        var q: nat :| v - step == lo + q * step;
        assert v == lo + (q + 1) * step;
      }
      if q: nat :| v == lo + q * step {
        assert q > 0;
        assert v - step == lo + (q - 1) * step;
      }
    } else {
      forall q: nat
        ensures v != lo + q * step
      {
        assert q * step >= 0;
      }
    }
  }

  // ---------------------------------------------------------------------------------------
  // When parsing crashes
  // ---------------------------------------------------------------------------------------

  /** The value a stepped part starts from, if it gets as far as its loop. */
  function LoopStart(body: string, min: int, max: int, names: Names): Option<int> {
    if body == "*" then Some(min)
    else
      var dash := Index(body, '-');
      if dash < 0 then None
      else RangeStart(ParseValue(body[..dash], names), ParseValue(body[dash + 1..], names), min, max)
  }

  function RangeStart(lo: Option<int>, hi: Option<int>, min: int, max: int): Option<int> {
    if lo.None? || hi.None? || lo.value < min || hi.value > max || lo.value > hi.value then None else lo
  }

  /** The part runs the loop with a step that carries the 64-bit counter past its maximum on the
      first increment. */
  predicate StepOverflows(part: string, min: int, max: int, names: Names) {
    var slash := Index(part, '/');
    && slash >= 0
    && Atoi(part[slash + 1..]).Some?
    && LoopStart(part[..slash], min, max, names).Some?
    && Atoi(part[slash + 1..]).value > MAX_INT - LoopStart(part[..slash], min, max, names).value
  }

  /** A part crashes the parser exactly when its step overflows. */
  lemma PartPanicsIff(part: string, min: int, max: int, names: Names)
    requires 0 <= min <= max < 100
    ensures PartMeaning(part, min, max, names).Panics? <==> StepOverflows(part, min, max, names)
  {
    var slash := Index(part, '/');
    if slash < 0 {
      BodyPanicsIff(part, 1, min, max, names);
    } else if Atoi(part[slash + 1..]).Some? && Atoi(part[slash + 1..]).value >= 1 {
      BodyPanicsIff(part[..slash], Atoi(part[slash + 1..]).value, min, max, names);
    }
  }

  lemma BodyPanicsIff(body: string, step: int, min: int, max: int, names: Names)
    requires 0 <= min <= max < 100 && step >= 1
    ensures BodyMeaning(body, step, min, max, names).Panics? <==>
            LoopStart(body, min, max, names).Some? && step > MAX_INT - LoopStart(body, min, max, names).value
    ensures LoopStart(body, min, max, names).Some? ==> min <= LoopStart(body, min, max, names).value <= max
  {
    var dash := Index(body, '-');
    if body != "*" && dash >= 0 {
      RangePanicsIff(ParseValue(body[..dash], names), ParseValue(body[dash + 1..], names), step, min, max);
    }
  }

  lemma RangePanicsIff(lo: Option<int>, hi: Option<int>, step: int, min: int, max: int)
    requires 0 <= min <= max < 100 && step >= 1
    ensures RangeMeaning(lo, hi, step, min, max).Panics? <==>
            RangeStart(lo, hi, min, max).Some? && step > MAX_INT - RangeStart(lo, hi, min, max).value
    ensures RangeStart(lo, hi, min, max).Some? ==> min <= RangeStart(lo, hi, min, max).value <= max
  {
  }

  /** Part i is the first of the field that is not accepted, and its step overflows. */
  ghost predicate CrashesAt(parts: seq<string>, i: nat, min: int, max: int, names: Names) {
    i < |parts| && PartsMeaning(parts[..i], min, max, names).Values? && StepOverflows(parts[i], min, max, names)
  }

  lemma {:induction false} CrashingPartFound(parts: seq<string>, min: int, max: int, names: Names) returns (i: nat)
    requires PartsMeaning(parts, min, max, names).Panics?
    ensures i < |parts| && PartsMeaning(parts[..i], min, max, names).Values?
    ensures PartMeaning(parts[i], min, max, names).Panics?
  {
    i := |parts| - 1;
    var init := parts[..i];
    if !PartsMeaning(init, min, max, names).Values? {
      i := CrashingPartFound(init, min, max, names);
      assert init[..i] == parts[..i];
    }
  }

  /** A field crashes the parser exactly when some part does and every earlier one is accepted. */
  lemma FieldPanicsIff(parts: seq<string>, min: int, max: int, names: Names)
    requires 0 <= min <= max < 100
    ensures PartsMeaning(parts, min, max, names).Panics? <==> exists i: nat :: CrashesAt(parts, i, min, max, names)
  {
    if PartsMeaning(parts, min, max, names).Panics? {
      var i := CrashingPartFound(parts, min, max, names);
      PartPanicsIff(parts[i], min, max, names);
      assert CrashesAt(parts, i, min, max, names);
    } else if i: nat :| CrashesAt(parts, i, min, max, names) {
      PartPanicsIff(parts[i], min, max, names);
      FailureSticks(parts, i, min, max, names);
    }
  }

  /** Range and names of the k-th field. */
  function Range(k: nat): (int, int, Names)
    requires k < 5
  {
    [(0, 59, map[]), (0, 23, map[]), (1, 31, map[]), (1, 12, MONTH_NAMES), (0, 6, WEEKDAY_NAMES)][k]
  }

  /** Field k of five means this. */
  function MeaningAt(fields: seq<string>, k: nat): Meaning
    requires k < 5 == |fields|
  {
    FieldMeaning(fields[k], Range(k).0, Range(k).1, Range(k).2)
  }

  /** Field k is the first that is not accepted, and the parser crashes at its part i. */
  ghost predicate ExpressionCrashesAt(fields: seq<string>, k: nat, i: nat) {
    && k < 5 == |fields|
    && (forall j: nat :: j < k ==> MeaningAt(fields, j).Values?)
    && CrashesAt(Split(fields[k], ','), i, Range(k).0, Range(k).1, Range(k).2)
  }

  /** Field k is the first that is not accepted, and it crashes the parser. */
  ghost predicate FieldCrashes(fields: seq<string>, k: nat) {
    && k < 5 == |fields|
    && (forall j: nat :: j < k ==> MeaningAt(fields, j).Values?)
    && MeaningAt(fields, k).Panics?
  }

  lemma FieldCrashesIff(fields: seq<string>, k: nat)
    ensures FieldCrashes(fields, k) <==> exists i: nat :: ExpressionCrashesAt(fields, k, i)
  {
    if k < 5 == |fields| {
      var parts, min, max, names := Split(fields[k], ','), Range(k).0, Range(k).1, Range(k).2;
      FieldPanicsIff(parts, min, max, names);
      if i: nat :| FieldCrashes(fields, k) && CrashesAt(parts, i, min, max, names) {
        assert ExpressionCrashesAt(fields, k, i);
      }
    }
  }

  /** The field that decides an expression of five fields: the first that is not accepted. */
  function Deciding(fields: seq<string>): (k: nat)
    requires |fields| == 5
    ensures k < 5
  {
    if !MeaningAt(fields, 0).Values? then 0 else if !MeaningAt(fields, 1).Values? then 1
    else if !MeaningAt(fields, 2).Values? then 2 else if !MeaningAt(fields, 3).Values? then 3 else 4
  }

  lemma CrashingFieldDecides(fields: seq<string>, k: nat)
    requires |fields| == 5
    ensures FieldCrashes(fields, k) <==> k == Deciding(fields) && MeaningAt(fields, k).Panics?
  {
    if FieldCrashes(fields, k) {
      assert k > 0 ==> MeaningAt(fields, 0).Values?;
      assert k > 1 ==> MeaningAt(fields, 1).Values?;
      assert k > 2 ==> MeaningAt(fields, 2).Values?;
      assert k > 3 ==> MeaningAt(fields, 3).Values?;
    }
  }

  lemma DecidingFieldDecides(expr: string)
    requires |SplitFields(expr)| == 5
    ensures var f := SplitFields(expr); CronMeaningOf(expr).CronPanics? <==> MeaningAt(f, Deciding(f)).Panics?
  {
    var f := SplitFields(expr);
    assert CronMeaningOf(expr) ==
           Combine(MeaningAt(f, 0), MeaningAt(f, 1), MeaningAt(f, 2), MeaningAt(f, 3), MeaningAt(f, 4));
  }

  /** An expression crashes the parser exactly when it has five fields and one of them has a part
      with an overflowing step, everything before that part being accepted. */
  lemma ExpressionPanicsIff(expr: string)
    ensures CronMeaningOf(expr).CronPanics? <==>
            exists k: nat, i: nat :: ExpressionCrashesAt(SplitFields(expr), k, i)
  {
    var f := SplitFields(expr);
    if |f| == 5 {
      DecidingFieldDecides(expr);
      if CronMeaningOf(expr).CronPanics? {
        CrashingFieldDecides(f, Deciding(f));
        FieldCrashesIff(f, Deciding(f));
        var i: nat :| ExpressionCrashesAt(f, Deciding(f), i);
      } else if k: nat, i: nat :| ExpressionCrashesAt(f, k, i) {
        FieldCrashesIff(f, k);
        CrashingFieldDecides(f, k);
      }
    }
  }

  lemma {:induction false} NotInIndex(s: string, c: char)
    requires c !in s
    ensures Index(s, c) == -1
  {
  }

  lemma SingleField(field: string, min: int, max: int, names: Names)
    requires ',' !in field
    ensures FieldMeaning(field, min, max, names) == PartMeaning(field, min, max, names)
  {
    NotInIndex(field, ',');
    OnePart(field, min, max, names);
  }

  lemma OnePart(part: string, min: int, max: int, names: Names)
    ensures PartsMeaning([part], min, max, names) == PartMeaning(part, min, max, names)
  {
    assert [part][..0] == [];
    var m := PartMeaning(part, min, max, names);
    if m.Values? {
      assert {} + m.values == m.values;
    }
  }

  lemma DecimalPlain(n: nat)
    ensures forall c <- Decimal(n) :: !IsSpace(c) && c != ',' && c != '/' && c != '-' && c != '*' && c != '+'
  {
  }

  // A wildcard with step n is safe or fatal depending on n alone.
  lemma WildcardStep(n: Int64, min: int, max: int, names: Names)
    requires n >= 1
    ensures FieldMeaning("*/" + Itoa(n), min, max, names) == Progression(min, max, n)
  {
    var d := Decimal(n);
    var field := "*/" + d;
    DecimalPlain(n);
    assert field[0] == '*' && field[1] == '/';
    SingleField(field, min, max, names);
    assert field[1..][0] == '/';
    assert Index(field, '/') == 1;
    assert field[2..] == d && field[..1] == "*";
    AtoiItoa(n);
  }

  // "0 0 */n * *" is accepted for every step but the largest 64-bit integer, which crashes.
  lemma DayStepCrashesIff(n: Int64)
    requires n >= 1
    ensures var expr := Spaced(["0", "0", "*/" + Itoa(n), "*", "*"]);
            && (CronMeaningOf(expr).CronPanics? <==> n == MAX_INT)
            && (CronMeaningOf(expr).Accepts? <==> n < MAX_INT)
  {
    DecimalPlain(n);
    SpacedMeaning("0", "0", "*/" + Itoa(n), "*", "*");
    WildcardStep(n, 1, 31, map[]);
    assert Itoa(0) == "0";
    NumberField(0, 0, 59, map[]);
    NumberField(0, 0, 23, map[]);
    StarField(1, 12, MONTH_NAMES);
    StarField(0, 6, WEEKDAY_NAMES);
  }

  // ---------------------------------------------------------------------------------------
  // Printers
  // ---------------------------------------------------------------------------------------

  /** Words separated by single spaces. */
  function Spaced(words: seq<string>): string {
    if words == [] then ""
    else if |words| == 1 then words[0]
    else words[0] + (" " + Spaced(words[1..]))
  }

  function DailyCron(hour: Int64, minute: Int64): string {
    Spaced([Itoa(minute), Itoa(hour), "*", "*", "*"])
  }

  function WeeklyCron(weekday: Int64, hour: Int64, minute: Int64): string {
    Spaced([Itoa(minute), Itoa(hour), "*", "*", Itoa(weekday)])
  }

  function MonthlyCron(day: Int64, hour: Int64, minute: Int64): string {
    Spaced([Itoa(minute), Itoa(hour), Itoa(day), "*", "*"])
  }

  ghost predicate Word(w: string) {
    w != [] && forall c <- w :: !IsSpace(c)
  }

  /** Splitting undoes joining. */
  lemma {:induction false} FieldsOfSpaced(words: seq<string>)
    requires forall w <- words :: Word(w)
    ensures SplitFields(Spaced(words)) == words
  {
    if |words| == 1 {
      assert Word(words[0]);
      FieldsOfWord(words[0], "");
      assert words[0] + "" == words[0];
    } else if |words| > 1 {
      assert Word(words[0]);
      FieldsOfSpaced(words[1..]);
      FieldsOfWord(words[0], " " + Spaced(words[1..]));
      FieldsSkipSpace(Spaced(words[1..]));
    }
  }

  /** An expression of five spaced words means what its five fields mean. */
  lemma SpacedMeaning(mi: string, ho: string, da: string, mo: string, we: string)
    requires Word(mi) && Word(ho) && Word(da) && Word(mo) && Word(we)
    ensures CronMeaningOf(Spaced([mi, ho, da, mo, we])) ==
            Combine(FieldMeaning(mi, 0, 59, map[]), FieldMeaning(ho, 0, 23, map[]),
                    FieldMeaning(da, 1, 31, map[]), FieldMeaning(mo, 1, 12, MONTH_NAMES),
                    FieldMeaning(we, 0, 6, WEEKDAY_NAMES))
  {
    FieldsOfSpaced([mi, ho, da, mo, we]);
  }

  lemma ItoaWord(n: int)
    ensures Word(Itoa(n))
  {
    DecimalPlain(if n < 0 then -n else n);
  }

  lemma {:induction false} UnitGrid(lo: int, v: int)
    requires v >= lo
    ensures OnGrid(lo, 1, v)
    decreases v - lo
  {
    if v > lo {
      UnitGrid(lo, v - 1);
    }
  }

  predicate Within(v: int, min: int, max: int) {
    min <= v <= max
  }

  function Full(min: int, max: int): set<int> {
    set v | min <= v <= max && Within(v, min, max)
  }

  lemma StarField(min: int, max: int, names: Names)
    requires min < 100
    ensures FieldMeaning("*", min, max, names) == Values(Full(min, max))
  {
    SingleField("*", min, max, names);
    NotInIndex("*", '/');
    var p := Progression(min, max, 1);
    forall v
      ensures v in p.values <==> v in Full(min, max)
    {
      if min <= v <= max {
        UnitGrid(min, v);
      }
    }
    assert p.values == Full(min, max);
  }

  /** Aliases start with a letter. */
  ghost predicate Alphabetic(names: Names) {
    forall k <- names :: k != [] && !IsDigit(k[0])
  }

  lemma NumberIsNoName(n: nat, names: Names)
    requires Alphabetic(names)
    ensures ToLower(Decimal(n)) !in names
  {
    var d := Decimal(n);
    assert d[0] in d;
    assert IsDigit(ToLower(d)[0]);
  }

  /** A printed number is accepted exactly when it is in range, and then stands for itself. */
  lemma NumberField(n: Int64, min: int, max: int, names: Names)
    requires 0 <= min <= max < 100 && Alphabetic(names)
    ensures FieldMeaning(Itoa(n), min, max, names) == if min <= n <= max then Values({n}) else Rejected
  {
    var s, m: int := Itoa(n), n;
    DecimalPlain(if m < 0 then -m else m);
    SingleField(s, min, max, names);
    NotInIndex(s, '/');
    assert s[0] in s;
    if n >= 0 {
      NotInIndex(s, '-');
      NumberIsNoName(n, names);
      AtoiItoa(n);
    } else {
      assert s[0] == '-' && Index(s, '-') == 0;
      assert s[..0] == "" && ToLower("") == "";
      assert ParseValue("", names) == None;
    }
  }

  lemma AliasesAlphabetic()
    ensures Alphabetic(WEEKDAY_NAMES) && Alphabetic(MONTH_NAMES)
  {
  }

  /** For all integers: the daily expression parses exactly when the time is in range, and then
      allows that minute and hour on every day. */
  lemma DailyCronParsesBack(hour: Int64, minute: Int64)
    ensures CronMeaningOf(DailyCron(hour, minute)) ==
            if 0 <= minute <= 59 && 0 <= hour <= 23
            then Accepts(CronSets({minute}, {hour}, Full(1, 31), Full(1, 12), Full(0, 6)))
            else Rejects
  {
    ItoaWord(minute);
    ItoaWord(hour);
    SpacedMeaning(Itoa(minute), Itoa(hour), "*", "*", "*");
    NumberField(minute, 0, 59, map[]);
    NumberField(hour, 0, 23, map[]);
    StarField(1, 31, map[]);
    StarField(1, 12, MONTH_NAMES);
    StarField(0, 6, WEEKDAY_NAMES);
  }

  lemma WeeklyCronParsesBack(weekday: Int64, hour: Int64, minute: Int64)
    ensures CronMeaningOf(WeeklyCron(weekday, hour, minute)) ==
            if 0 <= minute <= 59 && 0 <= hour <= 23 && 0 <= weekday <= 6
            then Accepts(CronSets({minute}, {hour}, Full(1, 31), Full(1, 12), {weekday}))
            else Rejects
  {
    ItoaWord(minute);
    ItoaWord(hour);
    ItoaWord(weekday);
    SpacedMeaning(Itoa(minute), Itoa(hour), "*", "*", Itoa(weekday));
    AliasesAlphabetic();
    NumberField(minute, 0, 59, map[]);
    NumberField(hour, 0, 23, map[]);
    StarField(1, 31, map[]);
    StarField(1, 12, MONTH_NAMES);
    NumberField(weekday, 0, 6, WEEKDAY_NAMES);
  }

  lemma MonthlyCronParsesBack(day: Int64, hour: Int64, minute: Int64)
    ensures CronMeaningOf(MonthlyCron(day, hour, minute)) ==
            if 0 <= minute <= 59 && 0 <= hour <= 23 && 1 <= day <= 31
            then Accepts(CronSets({minute}, {hour}, {day}, Full(1, 12), Full(0, 6)))
            else Rejects
  {
    ItoaWord(minute);
    ItoaWord(hour);
    ItoaWord(day);
    SpacedMeaning(Itoa(minute), Itoa(hour), Itoa(day), "*", "*");
    NumberField(minute, 0, 59, map[]);
    NumberField(hour, 0, 23, map[]);
    NumberField(day, 1, 31, map[]);
    StarField(1, 12, MONTH_NAMES);
    StarField(0, 6, WEEKDAY_NAMES);
  }
}
