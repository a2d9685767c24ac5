/**
 * ValidCron.ValidCronValidator.isValid, the Bean Validation check behind @ValidCron: null and
 * blank text are invalid; anything else is valid when the QUARTZ parser accepts it, and
 * every exception the parser throws makes it invalid.
 */
module ValidCron {
  import opened Wrappers
  import opened Strings
  import opened CronParser

  /**
   * isValid: false for null and blank text, otherwise whether parse and validate succeed.
   * The blank guard agrees with the parser, so validity is exactly acceptance by the parser.
   */
  function IsValid(value: Option<string>): (valid: bool)
    ensures valid <==> value.Some? && QuartzAccepts(value.value)
  {
    if value.None? then false
    else if IsBlank(value.value) then BlankRejected(value.value); false
    else ParseCron(value).Success?
  }

  /** A valid value is a schedule, and its canonical text is valid too. */
  lemma ValidIsSchedule(value: string)
    requires IsValid(Some(value))
    ensures WellFormed(ParseCron(Some(value)).value)
    ensures IsValid(Some(Render(ParseCron(Some(value)).value)))
  {
    AcceptedHasCanonicalForm(value);
  }

  /** Every well-formed schedule written out is valid. */
  lemma RenderedIsValid(c: Cron)
    requires WellFormed(c)
    ensures IsValid(Some(Render(c)))
  {
    RenderRoundTrip(c);
  }

  // ---------------------------------------------------------------------------
  // The expressions of the tests and of the seed data
  // ---------------------------------------------------------------------------

  /** A field holding the single value v. */
  function Single(v: nat): FieldExpr {
    Items([Item(At(v), None)])
  }

  const Every: FieldExpr := Items([Item(Any, None)])

  /** A field without ',' is a one-item list when no special form applies. */
  lemma SplitNoComma(s: string)
    requires ',' !in s
    ensures Split(s, ',') == [s]
  {
    SplitJoin([s], ',');
  }

  /** A numeral within the field's range is that single value. */
  lemma NumberField(k: FieldKind, s: string)
    requires |s| >= 1 && AllDigits(s) && InRange(k, DigitsValue(s))
    ensures ParseField(k, s) == Some(Single(DigitsValue(s)))
  {
    NumeralPlain(k, s);
    NumeralItem(k, s);
    SingleItem(k, s, Item(At(DigitsValue(s)), None));
    ListField(k, s);
  }

  lemma NumeralPlain(k: FieldKind, s: string)
    requires |s| >= 1 && AllDigits(s)
    ensures PlainField(k, s) && ',' !in s
  {
    assert IsDigit(s[0]) && IsDigit(s[|s| - 1]);
    if |s| >= 2 {
      assert s[..2][0] == s[0];
    }
  }

  lemma NumeralItem(k: FieldKind, s: string)
    requires |s| >= 1 && AllDigits(s) && InRange(k, DigitsValue(s))
    ensures ParseItem(k, s) == Some(Item(At(DigitsValue(s)), None))
  {
    assert '-' !in s && '/' !in s;
    assert ParseValue(k, s) == Some(DigitsValue(s));
  }

  /** A field without ',' that parses as one item is the list of that item. */
  lemma SingleItem(k: FieldKind, s: string, it: Item)
    requires ',' !in s && ParseItem(k, s) == Some(it)
    ensures ParseItemList(k, Split(s, ',')) == Some([it])
  {
    SplitNoComma(s);
    var r := ParseItemList(k, [s]);
    assert [s][0] == s;
    assert r.Some?;
    assert r.value == [it];
  }

  lemma Numerals()
    ensures DigitsValue("0") == 0 && DigitsValue("3") == 3 && DigitsValue("9") == 9
    ensures DigitsValue("12") == 12 && DigitsValue("14") == 14 && DigitsValue("15") == 15
  {
    assert "12"[..1] == "1" && "14"[..1] == "1" && "15"[..1] == "1";
  }

  /** '*' is every value. */
  lemma EveryField(k: FieldKind)
    ensures ParseField(k, "*") == Some(Every)
  {
    assert ParseRange(k, "*") == Some(Any);
    SingleItem(k, "*", Item(Any, None));
    ListField(k, "*");
  }

  /** Six tokens, each a field of its position, with exactly one day field '?'. */
  lemma SixFields(e: string, p0: string, p1: string, p2: string, p3: string, p4: string, p5: string,
                  f0: FieldExpr, f1: FieldExpr, f2: FieldExpr, f3: FieldExpr, f4: FieldExpr, f5: FieldExpr)
    requires Token(p0) && Token(p1) && Token(p2) && Token(p3) && Token(p4) && Token(p5)
    requires ParseField(Second, p0) == Some(f0) && ParseField(Minute, p1) == Some(f1)
    requires ParseField(Hour, p2) == Some(f2) && ParseField(DayOfMonth, p3) == Some(f3)
    requires ParseField(Month, p4) == Some(f4) && ParseField(DayOfWeek, p5) == Some(f5)
    requires e == Join([p0, p1, p2, p3, p4, p5], ' ')
    ensures ParseCron(Some(e)).Success? <==> (f3 == NoSpecificValue) != (f5 == NoSpecificValue)
    ensures ParseCron(Some(e)).Success? ==> ParseCron(Some(e)).value == Cron([f0, f1, f2, f3, f4, f5])
    ensures ParseCron(Some(e)).Failure? ==> ParseCron(Some(e)).error == DayFieldsConflict
  {
    var parts := [p0, p1, p2, p3, p4, p5];
    var fields := [f0, f1, f2, f3, f4, f5];
    forall i | 0 <= i < 6 ensures Token(parts[i]) && ParseField(FieldOrder[i], parts[i]) == Some(fields[i]) {
      if i == 0 { assert parts[i] == p0 && FieldOrder[i] == Second; }
      else if i == 1 { assert parts[i] == p1 && FieldOrder[i] == Minute; }
      else if i == 2 { assert parts[i] == p2 && FieldOrder[i] == Hour; }
      else if i == 3 { assert parts[i] == p3 && FieldOrder[i] == DayOfMonth; }
      else if i == 4 { assert parts[i] == p4 && FieldOrder[i] == Month; }
      else { assert parts[i] == p5 && FieldOrder[i] == DayOfWeek; }
    }
    ParsedFromFields(parts, fields);
  }

  /** Seven tokens, each a field of its position, with exactly one day field '?'. */
  lemma SevenFields(e: string, p0: string, p1: string, p2: string, p3: string, p4: string, p5: string, p6: string,
                    f0: FieldExpr, f1: FieldExpr, f2: FieldExpr, f3: FieldExpr, f4: FieldExpr, f5: FieldExpr, f6: FieldExpr)
    requires Token(p0) && Token(p1) && Token(p2) && Token(p3) && Token(p4) && Token(p5) && Token(p6)
    requires ParseField(Second, p0) == Some(f0) && ParseField(Minute, p1) == Some(f1)
    requires ParseField(Hour, p2) == Some(f2) && ParseField(DayOfMonth, p3) == Some(f3)
    requires ParseField(Month, p4) == Some(f4) && ParseField(DayOfWeek, p5) == Some(f5)
    requires ParseField(Year, p6) == Some(f6)
    requires (f3 == NoSpecificValue) != (f5 == NoSpecificValue)
    requires e == Join([p0, p1, p2, p3, p4, p5, p6], ' ')
    ensures ParseCron(Some(e)).Success?
    ensures ParseCron(Some(e)).value == Cron([f0, f1, f2, f3, f4, f5, f6])
  {
    var parts := [p0, p1, p2, p3, p4, p5, p6];
    var fields := [f0, f1, f2, f3, f4, f5, f6];
    forall i | 0 <= i < 7 ensures Token(parts[i]) && ParseField(FieldOrder[i], parts[i]) == Some(fields[i]) {
      if i == 0 { assert parts[i] == p0 && FieldOrder[i] == Second; }
      else if i == 1 { assert parts[i] == p1 && FieldOrder[i] == Minute; }
      else if i == 2 { assert parts[i] == p2 && FieldOrder[i] == Hour; }
      else if i == 3 { assert parts[i] == p3 && FieldOrder[i] == DayOfMonth; }
      else if i == 4 { assert parts[i] == p4 && FieldOrder[i] == Month; }
      else if i == 5 { assert parts[i] == p5 && FieldOrder[i] == DayOfWeek; }
      else { assert parts[i] == p6 && FieldOrder[i] == Year; }
    }
    ParsedFromFields(parts, fields);
  }

  lemma ZeroFields()
    ensures ParseField(Second, "0") == Some(Single(0)) && ParseField(Minute, "0") == Some(Single(0))
  {
    Numerals();
    NumberField(Second, "0");
    NumberField(Minute, "0");
  }

  /** SUN is day 1. */
  lemma SundayValue()
    ensures ParseValue(DayOfWeek, "SUN") == Some(1)
  {
    assert !IsDigit("SUN"[0]);
    assert DayNames[0] == "SUN";
  }

  /** MON is day 2. */
  lemma MondayValue()
    ensures ParseValue(DayOfWeek, "MON") == Some(2)
  {
    assert !IsDigit("MON"[0]);
    assert DayNames[0] != "MON" && DayNames[1..][0] == "MON";
  }

  /** SUN alone is the single day 1. */
  lemma SundayField()
    ensures ParseField(DayOfWeek, "SUN") == Some(Single(1))
  {
    SundayValue();
    assert ParseItem(DayOfWeek, "SUN") == Some(Item(At(1), None));
    SingleItem(DayOfWeek, "SUN", Item(At(1), None));
    assert PlainField(DayOfWeek, "SUN");
    ListField(DayOfWeek, "SUN");
  }

  /** MON#1 is the first Monday of the month. */
  lemma FirstMondayField()
    ensures ParseField(DayOfWeek, "MON#1") == Some(NthOfMonth(2, 1))
  {
    var s := "MON#1";
    IndexOfAfter("MON", '#', "1");
    assert s == "MON" + "#" + "1";
    assert s[..3] == "MON" && s[4..] == "1";
    MondayValue();
    assert ParseNumber("1") == Some(1);
    assert s != "?" && s != "L" && s[|s| - 1] != 'L' && '#' in s;
  }

  // "0 0 12 * * ?" (the validator's test of a valid expression)

  /** Text that is a join of parts whose expression parses is valid. */
  lemma ValidText(e: string, parts: seq<string>)
    requires |parts| >= 1 && e == Join(parts, ' ')
    requires ParseCron(Some(Join(parts, ' '))).Success?
    ensures IsValid(Some(e))
  {
    assert QuartzAccepts(e);
  }

  /** Text that is a join of parts whose expression fails to parse is invalid. */
  lemma InvalidText(e: string, parts: seq<string>)
    requires |parts| >= 1 && e == Join(parts, ' ')
    requires ParseCron(Some(Join(parts, ' '))).Failure?
    ensures !IsValid(Some(e))
  {
  }

  lemma DailyNoonTokens()
    ensures Token("0") && Token("12") && Token("*") && Token("?")
  {
  }

  lemma DailyNoonFields()
    ensures ParseField(Second, "0") == Some(Single(0)) && ParseField(Minute, "0") == Some(Single(0))
    ensures ParseField(Hour, "12") == Some(Single(12))
    ensures ParseField(DayOfMonth, "*") == Some(Every) && ParseField(Month, "*") == Some(Every)
  {
    ZeroFields();
    Numerals();
    NumberField(Hour, "12");
    EveryField(DayOfMonth);
    EveryField(Month);
  }

  lemma DailyNoonSchedule()
    ensures ParseCron(Some(Join(["0", "0", "12", "*", "*", "?"], ' '))).Success?
    ensures ParseCron(Some(Join(["0", "0", "12", "*", "*", "?"], ' '))).value ==
      Cron([Single(0), Single(0), Single(12), Every, Every, NoSpecificValue])
  {
    DailyNoonTokens();
    DailyNoonFields();
    SixFields(Join(["0", "0", "12", "*", "*", "?"], ' '), "0", "0", "12", "*", "*", "?",
      Single(0), Single(0), Single(12), Every, Every, NoSpecificValue);
  }

  lemma DailyNoonText()
    ensures "0 0 12 * * ?" == Join(["0", "0", "12", "*", "*", "?"], ' ')
  {
    SixJoined("0", "0", "12", "*", "*", "?", ' ');
  }

  /** "0 0 12 * * ?", noon every day, is valid. */
  lemma AcceptsDailyNoon()
    ensures IsValid(Some("0 0 12 * * ?"))
  {
    DailyNoonSchedule();
    DailyNoonText();
    ValidText("0 0 12 * * ?", ["0", "0", "12", "*", "*", "?"]);
  }

  // "0 0 * * * ?" (the expression of the controller's tests)

  lemma HourlyTokens()
    ensures Token("0") && Token("*") && Token("?")
  {
  }

  lemma HourlyFields()
    ensures ParseField(Second, "0") == Some(Single(0)) && ParseField(Minute, "0") == Some(Single(0))
    ensures ParseField(Hour, "*") == Some(Every)
    ensures ParseField(DayOfMonth, "*") == Some(Every) && ParseField(Month, "*") == Some(Every)
  {
    ZeroFields();
    EveryField(Hour);
    EveryField(DayOfMonth);
    EveryField(Month);
  }

  lemma HourlySchedule()
    ensures ParseCron(Some(Join(["0", "0", "*", "*", "*", "?"], ' '))).Success?
    ensures ParseCron(Some(Join(["0", "0", "*", "*", "*", "?"], ' '))).value ==
      Cron([Single(0), Single(0), Every, Every, Every, NoSpecificValue])
  {
    HourlyTokens();
    HourlyFields();
    SixFields(Join(["0", "0", "*", "*", "*", "?"], ' '), "0", "0", "*", "*", "*", "?",
      Single(0), Single(0), Every, Every, Every, NoSpecificValue);
  }

  lemma HourlyText()
    ensures "0 0 * * * ?" == Join(["0", "0", "*", "*", "*", "?"], ' ')
  {
    SixJoined("0", "0", "*", "*", "*", "?", ' ');
  }

  /** "0 0 * * * ?", the start of every hour, is valid. */
  lemma AcceptsHourly()
    ensures IsValid(Some("0 0 * * * ?"))
  {
    HourlySchedule();
    HourlyText();
    ValidText("0 0 * * * ?", ["0", "0", "*", "*", "*", "?"]);
  }

  // "0 0 9 ? * MON#1" (seed data)

  lemma FirstMondayTokens()
    ensures Token("0") && Token("9") && Token("?") && Token("*") && Token("MON#1")
  {
  }

  lemma FirstMondayFields()
    ensures ParseField(Second, "0") == Some(Single(0)) && ParseField(Minute, "0") == Some(Single(0))
    ensures ParseField(Hour, "9") == Some(Single(9)) && ParseField(Month, "*") == Some(Every)
    ensures ParseField(DayOfWeek, "MON#1") == Some(NthOfMonth(2, 1))
  {
    ZeroFields();
    Numerals();
    NumberField(Hour, "9");
    EveryField(Month);
    FirstMondayField();
  }

  lemma FirstMondaySchedule()
    ensures ParseCron(Some(Join(["0", "0", "9", "?", "*", "MON#1"], ' '))).Success?
    ensures ParseCron(Some(Join(["0", "0", "9", "?", "*", "MON#1"], ' '))).value ==
      Cron([Single(0), Single(0), Single(9), NoSpecificValue, Every, NthOfMonth(2, 1)])
  {
    FirstMondayTokens();
    FirstMondayFields();
    SixFields(Join(["0", "0", "9", "?", "*", "MON#1"], ' '), "0", "0", "9", "?", "*", "MON#1",
      Single(0), Single(0), Single(9), NoSpecificValue, Every, NthOfMonth(2, 1));
  }

  lemma FirstMondayText()
    ensures "0 0 9 ? * MON#1" == Join(["0", "0", "9", "?", "*", "MON#1"], ' ')
  {
    SixJoined("0", "0", "9", "?", "*", "MON#1", ' ');
  }

  /** "0 0 9 ? * MON#1", nine o'clock on the first Monday of each month, is valid. */
  lemma AcceptsFirstMonday()
    ensures IsValid(Some("0 0 9 ? * MON#1"))
  {
    FirstMondaySchedule();
    FirstMondayText();
    ValidText("0 0 9 ? * MON#1", ["0", "0", "9", "?", "*", "MON#1"]);
  }

  // "0 0 14 15 * ? *" (seed data, with a year field)

  lemma WithYearTokens()
    ensures Token("0") && Token("14") && Token("15") && Token("*") && Token("?")
  {
  }

  lemma WithYearFields()
    ensures ParseField(Second, "0") == Some(Single(0)) && ParseField(Minute, "0") == Some(Single(0))
    ensures ParseField(Hour, "14") == Some(Single(14)) && ParseField(DayOfMonth, "15") == Some(Single(15))
    ensures ParseField(Month, "*") == Some(Every) && ParseField(Year, "*") == Some(Every)
  {
    ZeroFields();
    Numerals();
    NumberField(Hour, "14");
    NumberField(DayOfMonth, "15");
    EveryField(Month);
    EveryField(Year);
  }

  lemma WithYearSchedule()
    ensures ParseCron(Some(Join(["0", "0", "14", "15", "*", "?", "*"], ' '))).Success?
    ensures ParseCron(Some(Join(["0", "0", "14", "15", "*", "?", "*"], ' '))).value ==
      Cron([Single(0), Single(0), Single(14), Single(15), Every, NoSpecificValue, Every])
  {
    WithYearTokens();
    WithYearFields();
    SevenFields(Join(["0", "0", "14", "15", "*", "?", "*"], ' '), "0", "0", "14", "15", "*", "?", "*",
      Single(0), Single(0), Single(14), Single(15), Every, NoSpecificValue, Every);
  }

  lemma WithYearText()
    ensures "0 0 14 15 * ? *" == Join(["0", "0", "14", "15", "*", "?", "*"], ' ')
  {
    SevenJoined("0", "0", "14", "15", "*", "?", "*", ' ');
  }

  /** "0 0 14 15 * ? *", two in the afternoon on the 15th of every month in every year, is valid. */
  lemma AcceptsWithYear()
    ensures IsValid(Some("0 0 14 15 * ? *"))
  {
    WithYearSchedule();
    WithYearText();
    ValidText("0 0 14 15 * ? *", ["0", "0", "14", "15", "*", "?", "*"]);
  }

  // "0 0 3 ? * SUN" (seed data)

  lemma SundayTokens()
    ensures Token("0") && Token("3") && Token("?") && Token("*") && Token("SUN")
  {
  }

  lemma SundayFields()
    ensures ParseField(Second, "0") == Some(Single(0)) && ParseField(Minute, "0") == Some(Single(0))
    ensures ParseField(Hour, "3") == Some(Single(3)) && ParseField(Month, "*") == Some(Every)
    ensures ParseField(DayOfWeek, "SUN") == Some(Single(1))
  {
    ZeroFields();
    Numerals();
    NumberField(Hour, "3");
    EveryField(Month);
    SundayField();
  }

  lemma SundaySchedule()
    ensures ParseCron(Some(Join(["0", "0", "3", "?", "*", "SUN"], ' '))).Success?
    ensures ParseCron(Some(Join(["0", "0", "3", "?", "*", "SUN"], ' '))).value ==
      Cron([Single(0), Single(0), Single(3), NoSpecificValue, Every, Single(1)])
  {
    SundayTokens();
    SundayFields();
    SixFields(Join(["0", "0", "3", "?", "*", "SUN"], ' '), "0", "0", "3", "?", "*", "SUN",
      Single(0), Single(0), Single(3), NoSpecificValue, Every, Single(1));
  }

  lemma SundayText()
    ensures "0 0 3 ? * SUN" == Join(["0", "0", "3", "?", "*", "SUN"], ' ')
  {
    SixJoined("0", "0", "3", "?", "*", "SUN", ' ');
  }

  /** "0 0 3 ? * SUN", three o'clock every Sunday, is valid: SUN is day 1. */
  lemma AcceptsSunday()
    ensures IsValid(Some("0 0 3 ? * SUN"))
  {
    SundaySchedule();
    SundayText();
    ValidText("0 0 3 ? * SUN", ["0", "0", "3", "?", "*", "SUN"]);
  }

  // Invalid expressions

  lemma TwoWordsText()
    ensures "INVALID CRON" == Join(["INVALID", "CRON"], ' ')
  {
    JoinTwo("INVALID", "CRON", ' ');
  }

  lemma TwoWordsTokens()
    ensures Token("INVALID") && Token("CRON")
  {
  }

  lemma TwoWordsCount()
    ensures ParseCron(Some(Join(["INVALID", "CRON"], ' '))) == Failure(WrongFieldCount(2))
  {
    TwoWordsTokens();
    WrongCount(["INVALID", "CRON"]);
  }

  /** "INVALID CRON" (the validator's test of an invalid expression) is invalid: two fields. */
  lemma RejectsTwoWords()
    ensures !IsValid(Some("INVALID CRON"))
  {
    TwoWordsCount();
    TwoWordsText();
    InvalidText("INVALID CRON", ["INVALID", "CRON"]);
  }

  /** "invalid-cron" (the controller's test of an invalid expression) is invalid: one field. */
  lemma RejectsOneWord()
    ensures !IsValid(Some("invalid-cron"))
  {
    OneWord("invalid-cron");
  }

  /** null is invalid. */
  lemma RejectsNull()
    ensures !IsValid(None)
  {
  }

  lemma BothDaysTokens()
    ensures Token("0") && Token("12") && Token("*")
  {
  }

  lemma BothDaysFields()
    ensures ParseField(Second, "0") == Some(Single(0)) && ParseField(Minute, "0") == Some(Single(0))
    ensures ParseField(Hour, "12") == Some(Single(12))
    ensures ParseField(DayOfMonth, "*") == Some(Every) && ParseField(Month, "*") == Some(Every)
    ensures ParseField(DayOfWeek, "*") == Some(Every)
  {
    DailyNoonFields();
    EveryField(DayOfWeek);
  }

  lemma BothDaysConflict()
    ensures ParseCron(Some(Join(["0", "0", "12", "*", "*", "*"], ' '))) == Failure(DayFieldsConflict)
  {
    BothDaysTokens();
    BothDaysFields();
    SixFields(Join(["0", "0", "12", "*", "*", "*"], ' '), "0", "0", "12", "*", "*", "*",
      Single(0), Single(0), Single(12), Every, Every, Every);
  }

  lemma BothDaysText()
    ensures "0 0 12 * * *" == Join(["0", "0", "12", "*", "*", "*"], ' ')
  {
    SixJoined("0", "0", "12", "*", "*", "*", ' ');
  }

  /** "0 0 12 * * *" is invalid: neither day field is '?'. */
  lemma RejectsBothDays()
    ensures !IsValid(Some("0 0 12 * * *"))
  {
    BothDaysConflict();
    BothDaysText();
    InvalidText("0 0 12 * * *", ["0", "0", "12", "*", "*", "*"]);
  }

  /** 24 is no hour: hours run from 0 to 23. */
  lemma Hour24Field()
    ensures ParseField(Hour, "24").None?
  {
    assert "24"[..1] == "2";
    assert ParseValue(Hour, "24").None?;
    assert ParseRange(Hour, "24").None?;
    assert ParseItem(Hour, "24").None?;
    SplitNoComma("24");
    assert ParseItemList(Hour, ["24"]).None?;
  }

  lemma Hour24Tokens()
    ensures Token("0") && Token("24") && Token("*") && Token("?")
  {
  }

  lemma Hour24Rejected()
    ensures ParseCron(Some(Join(["0", "0", "24", "*", "*", "?"], ' '))).Failure?
  {
    Hour24Tokens();
    Hour24Field();
    RejectedField(["0", "0", "24", "*", "*", "?"], 2);
  }

  lemma Hour24Text()
    ensures "0 0 24 * * ?" == Join(["0", "0", "24", "*", "*", "?"], ' ')
  {
    SixJoined("0", "0", "24", "*", "*", "?", ' ');
  }

  /** "0 0 24 * * ?" is invalid: the hour is out of range. */
  lemma RejectsHour24()
    ensures !IsValid(Some("0 0 24 * * ?"))
  {
    Hour24Rejected();
    Hour24Text();
    InvalidText("0 0 24 * * ?", ["0", "0", "24", "*", "*", "?"]);
  }
}
