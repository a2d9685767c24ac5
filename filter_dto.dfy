/**
 * FilterDto: the query parameters of the event search, turned from raw (possibly null)
 * strings into typed criteria by one setter per field. Month and date parameters are strict
 * (bad input makes the setter throw), the instant parameters are tolerant (bad input becomes
 * null), and weekday, tag and title text are kept as given.
 */
module Dto {
  import opened Wrappers
  import opened Strings
  import opened Time

  /** What a strict setter throws: NumberFormatException (month) or DateTimeParseException (date). */
  datatype MalformedFilter = MalformedMonth(token: string) | MalformedDate(text: string)

  /** The values of FilterDto's getters; None is null. */
  datatype Criteria = Criteria(
    weekday: Option<string>,
    month: Option<seq<int>>,
    from: Option<Instant>,
    to: Option<Instant>,
    tag: Option<string>,
    titleContains: Option<string>,
    dateFrom: Option<LocalDate>,
    dateTo: Option<LocalDate>)

  /** A fresh FilterDto: every field null. */
  const NoCriteria: Criteria := Criteria(None, None, None, None, None, None, None, None)

  // ---------------------------------------------------------------------------
  // The parsers inside the setters
  // ---------------------------------------------------------------------------

  /**
   * Integer.parseInt mapped over the tokens, collected into a list: all of them, in order,
   * or the first failure.
   */
  function ParseAll(tokens: seq<string>): (r: Result<seq<int>, MalformedFilter>)
    ensures r.Success? <==> forall i :: 0 <= i < |tokens| ==> ParseInt(tokens[i]).Some?
    ensures r.Success? ==> |r.value| == |tokens| && forall i :: 0 <= i < |tokens| ==> r.value[i] == ParseInt(tokens[i]).value
    ensures r.Failure? ==> exists i :: 0 <= i < |tokens| && ParseInt(tokens[i]).None? && r.error == MalformedMonth(tokens[i])
  {
    if |tokens| == 0 then Success([])
    else
      match ParseInt(tokens[0])
      case None => Failure(MalformedMonth(tokens[0]))
      case Some(v) =>
        var rest := ParseAll(tokens[1..]);
        if rest.Failure? then
          assert forall i :: 1 <= i < |tokens| ==> tokens[i] == tokens[1..][i - 1];
          rest
        else
          assert forall i :: 1 <= i < |tokens| ==> tokens[i] == tokens[1..][i - 1];
          Success([v] + rest.value)
  }

  /** The month list setMonth computes: empty for null or blank, else every comma-separated token parsed. */
  function MonthList(raw: Option<string>): Result<seq<int>, MalformedFilter> {
    if raw.None? || IsBlank(raw.value) then Success([]) else ParseAll(JavaSplit(raw.value, ','))
  }

  /** The instant setFrom and setTo store: null for null, blank or unparsable text. */
  function InstantParam(raw: Option<string>): (r: Option<Instant>)
    ensures raw.None? ==> r.None?
    ensures r.Some? ==> raw.Some? && ParseInstant(raw.value) == r
    ensures raw.Some? ==> r == ParseInstant(raw.value)
  {
    if raw.None? then None
    else if IsBlank(raw.value) then
      BlankIsNoInstant(raw.value);
      None
    else ParseInstant(raw.value)
  }

  /** The date setDateFrom and setDateTo store: null for null, otherwise LocalDate.parse, which may throw. */
  function DateParam(raw: Option<string>): (r: Result<Option<LocalDate>, MalformedFilter>)
    ensures raw.None? ==> r == Success(None)
    ensures r.Success? && r.value.Some? ==> raw.Some? && ParseLocalDate(raw.value) == r.value
    ensures r.Failure? ==> raw.Some? && ParseLocalDate(raw.value).None? && r.error == MalformedDate(raw.value)
    ensures raw.Some? ==> (r.Success? <==> ParseLocalDate(raw.value).Some?) && (r.Success? ==> r.value.Some?)
  {
    if raw.None? then Success(None)
    else match ParseLocalDate(raw.value)
      case None => Failure(MalformedDate(raw.value))
      case Some(d) => Success(Some(d))
  }

  // ---------------------------------------------------------------------------
  // The DTO
  // ---------------------------------------------------------------------------

  class FilterDto {
    var weekday: Option<string>
    var month: Option<seq<int>>
    var from: Option<Instant>
    var to: Option<Instant>
    var tag: Option<string>
    var titleContains: Option<string>
    var dateFrom: Option<LocalDate>
    var dateTo: Option<LocalDate>

    /** What the getters return. */
    function Snapshot(): Criteria
      reads this
    {
      Criteria(weekday, month, from, to, tag, titleContains, dateFrom, dateTo)
    }

    constructor()
      ensures Snapshot() == NoCriteria
    {
      weekday, month, from, to := None, None, None, None;
      tag, titleContains, dateFrom, dateTo := None, None, None, None;
    }

    /** setWeekday: the raw text, no split, trim or case change. */
    method SetWeekday(weekdaysCsv: Option<string>)
      modifies this`weekday
      ensures weekday == weekdaysCsv
    {
      weekday := weekdaysCsv;
    }

    /**
     * setMonth: the parsed list, or the NumberFormatException; the right-hand side is
     * evaluated first, so a failing call leaves the field as it was.
     */
    method SetMonth(monthsCsv: Option<string>) returns (outcome: Outcome<MalformedFilter>)
      modifies this`month
      ensures MonthList(monthsCsv).Success? ==> outcome.Pass? && month == Some(MonthList(monthsCsv).value)
      ensures MonthList(monthsCsv).Failure? ==> outcome == Fail(MonthList(monthsCsv).error) && month == old(month)
    {
      var parsed := MonthList(monthsCsv);
      if parsed.Failure? {
        return Fail(parsed.error);
      }
      month := Some(parsed.value);
      return Pass;
    }

    /** setFrom: tolerant, never throws. */
    method SetFrom(fromIso: Option<string>)
      modifies this`from
      ensures from == InstantParam(fromIso)
    {
      from := InstantParam(fromIso);
    }

    /** setTo: tolerant, never throws. */
    method SetTo(toIso: Option<string>)
      modifies this`to
      ensures to == InstantParam(toIso)
    {
      to := InstantParam(toIso);
    }

    /** setTag: verbatim, blank text included. */
    method SetTag(tag': Option<string>)
      modifies this`tag
      ensures tag == tag'
    {
      tag := tag';
    }

    /** setTitleContains: verbatim, blank text included. */
    method SetTitleContains(titleContains': Option<string>)
      modifies this`titleContains
      ensures titleContains == titleContains'
    {
      titleContains := titleContains';
    }

    /** setDateFrom: strict; a failing call leaves the field as it was. */
    method SetDateFrom(date: Option<string>) returns (outcome: Outcome<MalformedFilter>)
      modifies this`dateFrom
      ensures DateParam(date).Success? ==> outcome.Pass? && dateFrom == DateParam(date).value
      ensures DateParam(date).Failure? ==> outcome == Fail(DateParam(date).error) && dateFrom == old(dateFrom)
    {
      var parsed := DateParam(date);
      if parsed.Failure? {
        return Fail(parsed.error);
      }
      dateFrom := parsed.value;
      return Pass;
    }

    /** setDateTo: strict; a failing call leaves the field as it was. */
    method SetDateTo(date: Option<string>) returns (outcome: Outcome<MalformedFilter>)
      modifies this`dateTo
      ensures DateParam(date).Success? ==> outcome.Pass? && dateTo == DateParam(date).value
      ensures DateParam(date).Failure? ==> outcome == Fail(DateParam(date).error) && dateTo == old(dateTo)
    {
      var parsed := DateParam(date);
      if parsed.Failure? {
        return Fail(parsed.error);
      }
      dateTo := parsed.value;
      return Pass;
    }
  }

  // ---------------------------------------------------------------------------
  // All eight setters together
  // ---------------------------------------------------------------------------

  /** The raw text of the eight parameters, one per setter; None is null. */
  datatype RawFilter = RawFilter(
    weekday: Option<string>,
    month: Option<string>,
    from: Option<string>,
    to: Option<string>,
    tag: Option<string>,
    titleContains: Option<string>,
    dateFrom: Option<string>,
    dateTo: Option<string>)

  /**
   * The criteria the setters produce from the raw parameters, field by field, or the first
   * strict failure: the month list before the dates, as the setters are declared.
   */
  function Normalised(raw: RawFilter): (r: Result<Criteria, MalformedFilter>)
    ensures r.Success? <==>
      MonthList(raw.month).Success? && DateParam(raw.dateFrom).Success? && DateParam(raw.dateTo).Success?
    ensures r.Success? ==>
      r.value.weekday == raw.weekday && r.value.tag == raw.tag && r.value.titleContains == raw.titleContains
      && r.value.month == Some(MonthList(raw.month).value)
      && r.value.from == InstantParam(raw.from) && r.value.to == InstantParam(raw.to)
      && r.value.dateFrom == DateParam(raw.dateFrom).value && r.value.dateTo == DateParam(raw.dateTo).value
    ensures MonthList(raw.month).Failure? ==> r == Failure(MonthList(raw.month).error)
    ensures r.Failure? && MonthList(raw.month).Success? ==>
      r.error.MalformedDate? && (raw.dateFrom == Some(r.error.text) || raw.dateTo == Some(r.error.text))
  {
    var month := MonthList(raw.month);
    var dateFrom := DateParam(raw.dateFrom);
    var dateTo := DateParam(raw.dateTo);
    if month.Failure? then Failure(month.error)
    else if dateFrom.Failure? then Failure(dateFrom.error)
    else if dateTo.Failure? then Failure(dateTo.error)
    else Success(Criteria(raw.weekday, Some(month.value), InstantParam(raw.from), InstantParam(raw.to),
                          raw.tag, raw.titleContains, dateFrom.value, dateTo.value))
  }

  /**
   * Calls every setter of the DTO with its raw parameter, stopping at the first that throws.
   * On success the DTO's state depends on the parameters only, not on what it held before.
   */
  method ApplySetters(dto: FilterDto, raw: RawFilter) returns (outcome: Outcome<MalformedFilter>)
    modifies dto
    ensures Normalised(raw).Success? ==> outcome.Pass? && dto.Snapshot() == Normalised(raw).value
    ensures Normalised(raw).Failure? ==> outcome == Fail(Normalised(raw).error)
    ensures MonthList(raw.month).Failure? ==>
      dto.Snapshot() == old(dto.Snapshot()).(weekday := raw.weekday)
    ensures MonthList(raw.month).Success? && DateParam(raw.dateFrom).Failure? ==>
      dto.Snapshot() == old(dto.Snapshot()).(weekday := raw.weekday, month := Some(MonthList(raw.month).value),
        from := InstantParam(raw.from), to := InstantParam(raw.to), tag := raw.tag, titleContains := raw.titleContains)
    ensures MonthList(raw.month).Success? && DateParam(raw.dateFrom).Success? && DateParam(raw.dateTo).Failure? ==>
      dto.Snapshot() == old(dto.Snapshot()).(weekday := raw.weekday, month := Some(MonthList(raw.month).value),
        from := InstantParam(raw.from), to := InstantParam(raw.to), tag := raw.tag, titleContains := raw.titleContains,
        dateFrom := DateParam(raw.dateFrom).value)
  {
    dto.SetWeekday(raw.weekday);
    outcome := dto.SetMonth(raw.month);
    if outcome.Fail? {
      return;
    }
    dto.SetFrom(raw.from);
    dto.SetTo(raw.to);
    dto.SetTag(raw.tag);
    dto.SetTitleContains(raw.titleContains);
    outcome := dto.SetDateFrom(raw.dateFrom);
    if outcome.Fail? {
      return;
    }
    outcome := dto.SetDateTo(raw.dateTo);
  }

  /**
   * Normalising is idempotent: one DTO filled from the same raw parameters twice holds the
   * same criteria after each pass, and both are Normalised(raw).
   */
  method NormaliseTwice(raw: RawFilter) returns (first: Result<Criteria, MalformedFilter>, second: Result<Criteria, MalformedFilter>)
    ensures first == second == Normalised(raw)
  {
    var dto := new FilterDto();
    var outcome := ApplySetters(dto, raw);
    first := if outcome.Pass? then Success(dto.Snapshot()) else Failure(outcome.error);
    outcome := ApplySetters(dto, raw);
    second := if outcome.Pass? then Success(dto.Snapshot()) else Failure(outcome.error);
  }

  // ---------------------------------------------------------------------------
  // Properties of the parsers
  // ---------------------------------------------------------------------------

  /** null and blank month text give the empty list, never an error. */
  lemma MonthListBlank(raw: Option<string>)
    requires raw.None? || IsBlank(raw.value)
    ensures MonthList(raw) == Success([])
  {
  }

  /**
   * Any other month text gives one integer per comma-separated token, in order and with no
   * range check, or fails as a whole when some token is not a decimal int.
   */
  lemma MonthListTokens(raw: string)
    requires !IsBlank(raw)
    ensures var tokens := JavaSplit(raw, ',');
      && (MonthList(Some(raw)).Success? <==> forall i :: 0 <= i < |tokens| ==> ParseInt(tokens[i]).Some?)
      && (MonthList(Some(raw)).Success? ==>
            |MonthList(Some(raw)).value| == |tokens|
            && forall i :: 0 <= i < |tokens| ==> MonthList(Some(raw)).value[i] == ParseInt(tokens[i]).value)
  {
  }

  /** The numerals of a list of ints. */
  function Numerals(ms: seq<int>): (r: seq<string>)
    ensures |r| == |ms| && forall i :: 0 <= i < |ms| ==> r[i] == IntToString(ms[i])
  {
    if |ms| == 0 then [] else [IntToString(ms[0])] + Numerals(ms[1..])
  }

  lemma IntToStringShape(n: int)
    ensures |IntToString(n)| >= 1 && ',' !in IntToString(n)
    ensures IsDigit(IntToString(n)[0]) || IntToString(n)[0] == '-'
  {
  }

  /** Parsing the numerals of a list of ints gives the list back. */
  lemma {:induction false} ParseAllNumerals(ms: seq<int>)
    requires forall i :: 0 <= i < |ms| ==> IsInt32(ms[i])
    ensures ParseAll(Numerals(ms)) == Success(ms)
  {
    var r := ParseAll(Numerals(ms));
    forall i | 0 <= i < |ms|
      ensures ParseInt(Numerals(ms)[i]) == Some(ms[i])
    {
      ParseIntToString(ms[i]);
    }
    assert r.Success?;
    assert r.value == ms;
  }

  /** Joining a non-empty list of ints with commas and setting it as the month text gives the list back. */
  lemma MonthListRoundTrip(ms: seq<int>)
    requires |ms| >= 1 && forall i :: 0 <= i < |ms| ==> IsInt32(ms[i])
    ensures MonthList(Some(Join(Numerals(ms), ','))) == Success(ms)
  {
    var parts := Numerals(ms);
    NumeralsSplit(ms);
    NumeralsNotBlank(ms);
    MonthListOf(Join(parts, ','), parts);
    ParseAllNumerals(ms);
  }

  /** Numerals joined with commas start with a digit or '-': never blank. */
  lemma NumeralsNotBlank(ms: seq<int>)
    requires |ms| >= 1
    ensures !IsBlank(Join(Numerals(ms), ','))
  {
    var parts := Numerals(ms);
    var s := Join(parts, ',');
    JoinStart(parts, ',');
    IntToStringShape(ms[0]);
    assert s[0] == parts[0][0];
    assert !IsWhitespace(s[0]);
  }

  /** The numerals joined with commas split back into the numerals. */
  lemma NumeralsSplit(ms: seq<int>)
    requires |ms| >= 1
    ensures JavaSplit(Join(Numerals(ms), ','), ',') == Numerals(ms)
  {
    var parts := Numerals(ms);
    forall i | 0 <= i < |parts|
      ensures ',' !in parts[i]
    {
      IntToStringShape(ms[i]);
    }
    IntToStringShape(ms[|ms| - 1]);
    JavaSplitJoin(parts, ',');
  }

  /** A join starts with its first piece. */
  lemma JoinStart(parts: seq<string>, sep: char)
    requires |parts| >= 1
    ensures |Join(parts, sep)| >= |parts[0]| && Join(parts, sep)[..|parts[0]|] == parts[0]
  {
  }

  /** "1,2," gives [1, 2]: Java's split drops the trailing empty token. */
  lemma MonthListTrailingComma()
    ensures MonthList(Some("1,2,")) == Success([1, 2])
  {
    TrailingCommaNotBlank();
    SplitTrailingComma();
    MonthListOf("1,2,", ["1", "2"]);
    ParseAllDigits(["1", "2"], [1, 2]);
  }

  lemma TrailingCommaNotBlank()
    ensures !IsBlank("1,2,")
  {
    assert !IsWhitespace("1,2,"[0]);
  }

  lemma SplitTrailingComma()
    ensures JavaSplit("1,2,", ',') == ["1", "2"]
  {
    JoinThree("1", "2", "", ',');
    JoinTwo("2", "", ',');
    assert Join(["1", "2", ""], ',') == "1,2,";
    JavaSplitJoin(["1", "2", ""], ',');
    DropOneTrailing(["1", "2"]);
  }

  lemma DropOneTrailing(parts: seq<string>)
    requires |parts| > 0 && parts[|parts| - 1] != ""
    ensures DropTrailingEmpty(parts + [""]) == parts
  {
    assert (parts + [""])[..|parts|] == parts;
  }

  /** Parsing single-digit tokens. */
  lemma ParseAllDigits(tokens: seq<string>, values: seq<int>)
    requires |tokens| == |values| <= 2
    requires forall i :: 0 <= i < |tokens| ==> |tokens[i]| == 1 && IsDigit(tokens[i][0]) && values[i] == DigitValue(tokens[i][0])
    ensures ParseAll(tokens) == Success(values)
  {
    forall i | 0 <= i < |tokens|
      ensures ParseInt(tokens[i]) == Some(values[i])
    {
      var t := tokens[i];
      assert t[..|t| - 1] == "";
      assert DigitsValue(t) == DigitValue(t[0]);
      assert AllDigits(t);
    }
    assert ParseAll([]) == Success([]);
    if |tokens| >= 1 {
      if |tokens| == 2 {
        assert tokens[1..][1..] == [];
        assert [values[1]] + [] == values[1..];
        assert ParseAll(tokens[1..]) == Success(values[1..]);
      } else {
        assert tokens[1..] == [];
      }
      assert [values[0]] + values[1..] == values;
    }
  }

  /** "," gives the empty list: every token is trailing and dropped. */
  lemma MonthListOnlyComma()
    ensures MonthList(Some(",")) == Success([])
  {
    assert !IsBlank(",") by {
      assert !IsWhitespace(","[0]);
    }
    JoinTwo("", "", ',');
    assert Join(["", ""], ',') == ",";
    JavaSplitJoin(["", ""], ',');
    assert DropTrailingEmpty(["", ""]) == [];
    assert JavaSplit(",", ',') == [];
  }

  /** Non-blank month text is parsed token by token. */
  lemma MonthListOf(raw: string, tokens: seq<string>)
    requires !IsBlank(raw) && JavaSplit(raw, ',') == tokens
    ensures MonthList(Some(raw)) == ParseAll(tokens)
  {
  }

  /** "a,b" fails: a token that is not a decimal int fails the whole call. */
  lemma MonthListLetters()
    ensures MonthList(Some("a,b")).Failure?
  {
    assert !IsWhitespace("a,b"[0]);
    JoinTwo("a", "b", ',');
    assert Join(["a", "b"], ',') == "a,b";
    JavaSplitJoin(["a", "b"], ',');
    MonthListOf("a,b", ["a", "b"]);
    assert !IsDigit('a');
    assert ParseInt(["a", "b"][0]).None?;
  }

  /** "1,,2" fails: the empty token between the commas is not a number. */
  lemma MonthListEmptyToken()
    ensures MonthList(Some("1,,2")).Failure?
  {
    assert !IsWhitespace("1,,2"[0]);
    JoinThree("1", "", "2", ',');
    JoinTwo("", "2", ',');
    assert Join(["1", "", "2"], ',') == "1,,2";
    JavaSplitJoin(["1", "", "2"], ',');
    MonthListOf("1,,2", ["1", "", "2"]);
    assert ParseInt(["1", "", "2"][1]).None?;
  }

  /** " 2" fails: tokens are not trimmed. */
  lemma MonthListUntrimmed()
    ensures MonthList(Some(" 2")).Failure?
  {
    assert !IsWhitespace(" 2"[1]);
    assert JavaSplit(" 2", ',') == [" 2"];
    MonthListOf(" 2", [" 2"]);
    assert ParseInt([" 2"][0]).None?;
  }

  /** null, blank and malformed instants leave the field absent. */
  lemma InstantParamAbsent(raw: Option<string>)
    requires raw.None? || IsBlank(raw.value) || ParseInstant(raw.value).None?
    ensures InstantParam(raw).None?
  {
  }

  /** A well-formed UTC instant is stored as that instant. */
  lemma InstantParamUtc(d: LocalDate, hour: nat, minute: nat, second: nat)
    requires hour < 24 && minute < 60 && second < 60
    ensures InstantParam(Some(FormatDate(d) + "T" + TwoDigits(hour) + ":" + TwoDigits(minute) + ":"
                              + TwoDigits(second) + "Z")) == Some(UtcInstant(d, hour, minute, second))
  {
    ParseInstantUtc(d, hour, minute, second);
  }

  /** A date parameter that is present but blank is an error, not an absent date. */
  lemma DateParamBlank(raw: string)
    requires IsBlank(raw)
    ensures DateParam(Some(raw)) == Failure(MalformedDate(raw))
  {
    BlankIsNoDate(raw);
  }

  /** Every date, printed as yyyy-MM-dd, is read back as itself. */
  lemma DateParamRoundTrip(d: LocalDate)
    ensures DateParam(Some(FormatDate(d))) == Success(Some(d))
  {
    ParseFormatDate(d);
  }
}
