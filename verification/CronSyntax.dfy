/** What the syntax of a cron field denotes, for printed ranges, steps, lists and names. */
module CronSyntax {
  import opened Wrappers
  import opened CronText
  import opened CronParser
  import opened CronLaws

  // ---------------------------------------------------------------------------------------
  // Ranges and steps
  // ---------------------------------------------------------------------------------------

  /** v is a plus a multiple of s. */
  ghost predicate Steps(a: int, s: int, v: int) {
    exists q: nat :: v == a + q * s
  }

  /** Every s-th value from a to b. */
  ghost function Every(a: int, b: int, s: int): set<int> {
    set v | a <= v <= b && Steps(a, s, v)
  }

  lemma ProgressionIsEvery(a: int, b: int, s: int)
    requires s > 0 && a + s <= MAX_INT
    ensures Progression(a, b, s) == Values(Every(a, b, s))
  {
    var p := Progression(a, b, s);
    forall v
      ensures v in p.values <==> v in Every(a, b, s)
    {
      OnGridIff(a, s, v);
    }
    assert p.values == Every(a, b, s);
  }

  lemma EveryOne(a: int, b: int)
    ensures Every(a, b, 1) == Full(a, b)
  {
    forall v | a <= v <= b
      ensures Steps(a, 1, v)
    {
      assert v == a + (v - a) * 1;
    }
  }

  lemma {:induction false} IndexAfter(s: string, c: char, rest: string)
    requires c !in s
    ensures Index(s + [c] + rest, c) == |s|
  {
    var t := s + [c] + rest;
    if s == [] {
      assert t[0] == c;
    } else {
      assert t[0] == s[0] && t[1..] == s[1..] + [c] + rest;
      IndexAfter(s[1..], c, rest);
    }
  }

  lemma NumberValue(n: Int64, names: Names)
    requires n >= 0 && Alphabetic(names)
    ensures ParseValue(Itoa(n), names) == Some(n)
  {
    NumberIsNoName(n, names);
    AtoiItoa(n);
  }

  /** The body "a-b" of a part. */
  lemma RangeBody(a: Int64, b: Int64, step: int, min: int, max: int, names: Names)
    requires 0 <= min <= a <= b <= max < 100 && step > 0 && Alphabetic(names)
    ensures BodyMeaning(Itoa(a) + "-" + Itoa(b), step, min, max, names) == Progression(a, b, step)
  {
    var x, y := Itoa(a), Itoa(b);
    var body := x + "-" + y;
    DecimalPlain(a);
    DecimalPlain(b);
    IndexAfter(x, '-', y);
    assert body[..|x|] == x && body[|x| + 1..] == y;
    assert x[0] in x && body[0] == x[0];
    NumberValue(a, names);
    NumberValue(b, names);
  }

  lemma RangePlain(a: Int64, b: Int64)
    requires 0 <= a && 0 <= b
    ensures ',' !in Itoa(a) + "-" + Itoa(b) && '/' !in Itoa(a) + "-" + Itoa(b)
  {
    DecimalPlain(a);
    DecimalPlain(b);
  }

  /** "a-b" allows exactly the values from a to b. */
  lemma RangeField(a: Int64, b: Int64, min: int, max: int, names: Names)
    requires 0 <= min <= a <= b <= max < 100 && Alphabetic(names)
    ensures FieldMeaning(Itoa(a) + "-" + Itoa(b), min, max, names) == Values(Full(a, b))
  {
    var field := Itoa(a) + "-" + Itoa(b);
    RangePlain(a, b);
    SingleField(field, min, max, names);
    NotInIndex(field, '/');
    RangeBody(a, b, 1, min, max, names);
    ProgressionIsEvery(a, b, 1);
    EveryOne(a, b);
  }

  /** A body followed by "/s" means the body with step s. */
  lemma SteppedPart(body: string, s: Int64, min: int, max: int, names: Names)
    requires s >= 1 && '/' !in body
    ensures PartMeaning(body + "/" + Itoa(s), min, max, names) == BodyMeaning(body, s, min, max, names)
  {
    var part := body + "/" + Itoa(s);
    IndexAfter(body, '/', Itoa(s));
    assert part[..|body|] == body && part[|body| + 1..] == Itoa(s);
    AtoiItoa(s);
  }

  lemma SteppedField(body: string, s: Int64, min: int, max: int, names: Names)
    requires s >= 1 && '/' !in body && ',' !in body
    ensures FieldMeaning(body + "/" + Itoa(s), min, max, names) == BodyMeaning(body, s, min, max, names)
  {
    DecimalPlain(s);
    SingleField(body + "/" + Itoa(s), min, max, names);
    SteppedPart(body, s, min, max, names);
  }

  /** "a-b/s" allows exactly every s-th value from a to b. */
  lemma SteppedRangeField(a: Int64, b: Int64, s: Int64, min: int, max: int, names: Names)
    requires 0 <= min <= a <= b <= max < 100 && Alphabetic(names) && 1 <= s && a + s <= MAX_INT
    ensures FieldMeaning(Itoa(a) + "-" + Itoa(b) + "/" + Itoa(s), min, max, names) == Values(Every(a, b, s))
  {
    RangePlain(a, b);
    SteppedField(Itoa(a) + "-" + Itoa(b), s, min, max, names);
    RangeBody(a, b, s, min, max, names);
    ProgressionIsEvery(a, b, s);
  }

  /** A wildcard with a step allows every s-th value of the whole range. */
  lemma SteppedStarField(s: Int64, min: int, max: int, names: Names)
    requires 0 <= min <= max < 100 && 1 <= s && min + s <= MAX_INT
    ensures FieldMeaning("*" + "/" + Itoa(s), min, max, names) == Values(Every(min, max, s))
  {
    SteppedField("*", s, min, max, names);
    ProgressionIsEvery(min, max, s);
  }

  /** The step of a single value is ignored. */
  lemma SteppedNumberField(n: Int64, s: Int64, min: int, max: int, names: Names)
    requires 0 <= min <= n <= max < 100 && Alphabetic(names) && 1 <= s
    ensures FieldMeaning(Itoa(n) + "/" + Itoa(s), min, max, names) == Values({n})
  {
    DecimalPlain(n);
    SteppedField(Itoa(n), s, min, max, names);
    NotInIndex(Itoa(n), '-');
    assert Itoa(n)[0] in Itoa(n);
    NumberValue(n, names);
  }

  /** A range that is reversed or leaves the field's range is refused. */
  lemma BadRangeField(a: Int64, b: Int64, min: int, max: int, names: Names)
    requires 0 <= a && 0 <= b && 0 <= min <= max < 100 && Alphabetic(names)
    requires a < min || b > max || a > b
    ensures FieldMeaning(Itoa(a) + "-" + Itoa(b), min, max, names) == Rejected
  {
    var x, y := Itoa(a), Itoa(b);
    var field := x + "-" + y;
    RangePlain(a, b);
    DecimalPlain(a);
    SingleField(field, min, max, names);
    NotInIndex(field, '/');
    IndexAfter(x, '-', y);
    assert field[..|x|] == x && field[|x| + 1..] == y;
    assert x[0] in x && field[0] == x[0];
    NumberValue(a, names);
    NumberValue(b, names);
  }

  /** A step below one is refused. */
  lemma BadStepField(body: string, s: Int64, min: int, max: int, names: Names)
    requires s < 1 && '/' !in body && ',' !in body
    ensures FieldMeaning(body + "/" + Itoa(s), min, max, names) == Rejected
  {
    var part := body + "/" + Itoa(s);
    DecimalPlain(if s < 0 then 0 - s else s);
    SingleField(part, min, max, names);
    IndexAfter(body, '/', Itoa(s));
    assert part[..|body|] == body && part[|body| + 1..] == Itoa(s);
    AtoiItoa(s);
  }

  /** So is anything but five fields. */
  lemma OnlyFiveFields(words: seq<string>)
    requires (forall w <- words :: Word(w)) && |words| != 5
    ensures CronMeaningOf(Spaced(words)) == Rejects
  {
    FieldsOfSpaced(words);
  }

  // ---------------------------------------------------------------------------------------
  // Lists
  // ---------------------------------------------------------------------------------------

  /** Two meanings side by side: the first that is not accepted decides. */
  function Both(a: Meaning, b: Meaning): Meaning {
    if !a.Values? then a else if !b.Values? then b else Values(a.values + b.values)
  }

  lemma BothAssociative(a: Meaning, b: Meaning, c: Meaning)
    ensures Both(Both(a, b), c) == Both(a, Both(b, c))
  {
    if a.Values? && b.Values? && c.Values? {
      assert a.values + b.values + c.values == a.values + (b.values + c.values);
    }
  }

  lemma PartsSnoc(parts: seq<string>, last: string, min: int, max: int, names: Names)
    ensures PartsMeaning(parts + [last], min, max, names) ==
            Both(PartsMeaning(parts, min, max, names), PartMeaning(last, min, max, names))
  {
    assert (parts + [last])[..|parts|] == parts;
  }

  /** The first part and the rest of a list. */
  lemma {:induction false} PartsOf(first: string, rest: seq<string>, min: int, max: int, names: Names)
    ensures PartsMeaning([first] + rest, min, max, names) ==
            Both(PartMeaning(first, min, max, names), PartsMeaning(rest, min, max, names))
  {
    if rest == [] {
      assert [first] + rest == [first];
      OnePart(first, min, max, names);
      NothingAdds(PartMeaning(first, min, max, names));
    } else {
      var init, last := rest[..|rest| - 1], rest[|rest| - 1];
      assert [first] + rest == ([first] + init) + [last] && rest == init + [last];
      PartsOf(first, init, min, max, names);
      PartsSnoc([first] + init, last, min, max, names);
      PartsSnoc(init, last, min, max, names);
      BothAssociative(PartMeaning(first, min, max, names), PartsMeaning(init, min, max, names),
                      PartMeaning(last, min, max, names));
    }
  }

  lemma NothingAdds(a: Meaning)
    ensures Both(a, Values({})) == a
  {
    if a.Values? {
      assert a.values + {} == a.values;
    }
  }

  /** A list allows what its first part allows and what the others allow, if all are accepted. */
  lemma ListField(first: string, rest: string, min: int, max: int, names: Names)
    requires ',' !in first
    ensures FieldMeaning(first + "," + rest, min, max, names) ==
            Both(FieldMeaning(first, min, max, names), FieldMeaning(rest, min, max, names))
  {
    var field := first + "," + rest;
    IndexAfter(first, ',', rest);
    assert field[..|first|] == first && field[|first| + 1..] == rest;
    SingleField(first, min, max, names);
    PartsOf(first, Split(rest, ','), min, max, names);
  }

  /** "a,b" allows exactly a and b. */
  lemma PairField(a: Int64, b: Int64, min: int, max: int, names: Names)
    requires 0 <= min <= a <= max < 100 && min <= b <= max && Alphabetic(names)
    ensures FieldMeaning(Itoa(a) + "," + Itoa(b), min, max, names) == Values({a, b})
  {
    DecimalPlain(a);
    NumberField(a, min, max, names);
    NumberField(b, min, max, names);
    PairOf(Itoa(a), Itoa(b), a, b, min, max, names);
  }

  lemma PairOf(x: string, y: string, a: int, b: int, min: int, max: int, names: Names)
    requires ',' !in x
    requires FieldMeaning(x, min, max, names) == Values({a}) && FieldMeaning(y, min, max, names) == Values({b})
    ensures FieldMeaning(x + "," + y, min, max, names) == Values({a, b})
  {
    ListField(x, y, min, max, names);
    assert {a} + {b} == {a, b};
  }

  // ---------------------------------------------------------------------------------------
  // Names
  // ---------------------------------------------------------------------------------------

  const MONTHS: seq<string> := ["jan", "feb", "mar", "apr", "may", "jun", "jul", "aug", "sep", "oct", "nov", "dec"]

  const WEEKDAYS: seq<string> := ["sun", "mon", "tue", "wed", "thu", "fri", "sat"]

  /** The same word but for capital letters. */
  ghost predicate SameWord(s: string, name: string) {
    |s| == |name| && forall i :: 0 <= i < |s| ==> s[i] == name[i] || s[i] as int + 32 == name[i] as int
  }

  ghost predicate LowerCase(name: string) {
    forall i :: 0 <= i < |name| ==> 'a' <= name[i] <= 'z'
  }

  lemma {:induction false} LowerOfSameWord(s: string, name: string)
    requires SameWord(s, name) && LowerCase(name)
    ensures ToLower(s) == name
    ensures forall c <- s :: c != ',' && c != '/' && c != '-' && c != '*'
  {
    if s != [] {
      LowerOfSameWord(s[1..], name[1..]);
      assert s == [s[0]] + s[1..] && name == [name[0]] + name[1..];
    }
  }

  /** A name in either case allows exactly its number. */
  lemma NameField(s: string, name: string, v: int, min: int, max: int, names: Names)
    requires SameWord(s, name) && LowerCase(name) && name != "" && name in names && names[name] == v
    requires min <= v <= max
    ensures FieldMeaning(s, min, max, names) == Values({v})
  {
    LowerOfSameWord(s, name);
    assert s[0] in s;
    SingleField(s, min, max, names);
    NotInIndex(s, '/');
    NotInIndex(s, '-');
  }

  lemma MonthNameField(s: string, m: nat)
    requires 1 <= m <= 12 && SameWord(s, MONTHS[m - 1])
    ensures FieldMeaning(s, 1, 12, MONTH_NAMES) == Values({m})
  {
    MonthTexts(m);
    NameField(s, MONTHS[m - 1], m, 1, 12, MONTH_NAMES);
  }

  lemma MonthTexts(m: nat)
    requires 1 <= m <= 12
    ensures var name := MONTHS[m - 1];
            LowerCase(name) && name != "" && name in MONTH_NAMES && MONTH_NAMES[name] == m
  {
  }

  lemma WeekdayNameField(s: string, w: nat)
    requires w <= 6 && SameWord(s, WEEKDAYS[w])
    ensures FieldMeaning(s, 0, 6, WEEKDAY_NAMES) == Values({w})
  {
    WeekdayTexts(w);
    NameField(s, WEEKDAYS[w], w, 0, 6, WEEKDAY_NAMES);
  }

  lemma WeekdayTexts(w: nat)
    requires w <= 6
    ensures var name := WEEKDAYS[w];
            LowerCase(name) && name != "" && name in WEEKDAY_NAMES && WEEKDAY_NAMES[name] == w
  {
  }

  // ---------------------------------------------------------------------------------------
  // Text
  // ---------------------------------------------------------------------------------------

  /** The code points of the separators. */
  const SPACES: set<int> := {
    0x9, 0xA, 0xB, 0xC, 0xD, 0x20, 0x85, 0xA0, 0x1680, 0x2000, 0x2001, 0x2002, 0x2003, 0x2004, 0x2005, 0x2006,
    0x2007, 0x2008, 0x2009, 0x200A, 0x2028, 0x2029, 0x202F, 0x205F, 0x3000}

  lemma SpacesAre(c: char)
    ensures IsSpace(c) <==> c as int in SPACES
  {
  }

  /** A number too large for 64 bits is refused, with or without a sign. */
  lemma TooLargeIsRefused(n: nat)
    requires n > MAX_INT
    ensures Atoi(Decimal(n)) == None && Atoi("+" + Decimal(n)) == None
    ensures n > MAX_INT + 1 ==> Atoi("-" + Decimal(n)) == None
  {
    DecimalValue(n);
    var s := Decimal(n);
    assert s[0] in s;
    assert ("+" + s)[1..] == s && ("-" + s)[1..] == s;
  }

  /** A plus sign changes nothing. */
  lemma PlusSign(n: nat)
    requires n <= MAX_INT
    ensures Atoi("+" + Decimal(n)) == Some(n)
  {
    DecimalValue(n);
    assert ("+" + Decimal(n))[1..] == Decimal(n);
  }
}
