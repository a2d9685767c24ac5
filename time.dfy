/**
 * The parts of java.time that the filter needs: proleptic ISO calendar dates, the epoch-day
 * count behind LocalDate.atStartOfDay(ZoneOffset.UTC), LocalDate.plusDays(1), and the two
 * strict parsers LocalDate.parse (ISO_LOCAL_DATE) and Instant.parse (ISO_INSTANT).
 * An Instant is a count of nanoseconds since 1970-01-01T00:00:00Z.
 */
module Time {
  import opened Wrappers
  import opened Strings

  // ---------------------------------------------------------------------------
  // Calendar dates
  // ---------------------------------------------------------------------------

  /** Year, month and day as the parser reads them; nothing is checked yet. */
  datatype Date = Date(year: int, month: int, day: int)

  /** The year range of LocalDate (Year.MIN_VALUE .. Year.MAX_VALUE). */
  const MinYear: int := -999_999_999
  const MaxYear: int := 999_999_999

  /** IsoChronology.isLeapYear, for every proleptic year. */
  predicate IsLeapYear(y: int) {
    y % 4 == 0 && (y % 100 != 0 || y % 400 == 0)
  }

  function MonthLength(y: int, m: int): (n: int)
    requires 1 <= m <= 12
    ensures 28 <= n <= 31
    ensures n == 29 <==> m == 2 && IsLeapYear(y)
  {
    if m == 2 then (if IsLeapYear(y) then 29 else 28)
    else if m == 4 || m == 6 || m == 9 || m == 11 then 30
    else 31
  }

  function YearLength(y: int): int {
    if IsLeapYear(y) then 366 else 365
  }

  /** A day that exists in its month, whatever the year. */
  predicate DayExists(d: Date) {
    1 <= d.month <= 12 && 1 <= d.day <= MonthLength(d.year, d.month)
  }

  /** A date LocalDate can hold. */
  predicate ValidDate(d: Date) {
    MinYear <= d.year <= MaxYear && DayExists(d)
  }

  type LocalDate = d: Date | ValidDate(d) witness Date(1970, 1, 1)

  // ---------------------------------------------------------------------------
  // Epoch days
  // ---------------------------------------------------------------------------

  /** Days from 0001-01-01 to January 1st of year y (negative before year 1). */
  function DaysBeforeYear(y: int): int {
    var p := y - 1;
    365 * p + p / 4 - p / 100 + p / 400
  }

  /** Days from January 1st to the first of month m. */
  function DaysBeforeMonth(y: int, m: int): int
    requires 1 <= m <= 12
  {
    var cumulative := [0, 31, 59, 90, 120, 151, 181, 212, 243, 273, 304, 334];
    cumulative[m - 1] + (if m > 2 && IsLeapYear(y) then 1 else 0)
  }

  /** LocalDate.toEpochDay: days since 1970-01-01. */
  function EpochDay(d: Date): int
    requires 1 <= d.month <= 12
  {
    DaysBeforeYear(d.year) + DaysBeforeMonth(d.year, d.month) + d.day - 1 - DaysBeforeYear(1970)
  }

  /** A year holds YearLength(y) days. */
  lemma YearStep(y: int)
    ensures DaysBeforeYear(y + 1) == DaysBeforeYear(y) + YearLength(y)
  {
    var p := y - 1;
    assert y / 4 - p / 4 == (if y % 4 == 0 then 1 else 0);
    assert y / 100 - p / 100 == (if y % 100 == 0 then 1 else 0);
    assert y / 400 - p / 400 == (if y % 400 == 0 then 1 else 0);
  }

  /** A month holds MonthLength(y, m) days. */
  lemma MonthStep(y: int, m: int)
    requires 1 <= m < 12
    ensures DaysBeforeMonth(y, m + 1) == DaysBeforeMonth(y, m) + MonthLength(y, m)
  {
  }

  /** The day after d (LocalDate.plusDays(1)); None where LocalDate throws, after the last date. */
  function NextDay(d: LocalDate): (r: Option<LocalDate>)
    ensures r.None? <==> d == Date(MaxYear, 12, 31)
  {
    if d.day < MonthLength(d.year, d.month) then Some(Date(d.year, d.month, d.day + 1))
    else if d.month < 12 then Some(Date(d.year, d.month + 1, 1))
    else if d.year < MaxYear then Some(Date(d.year + 1, 1, 1))
    else None
  }

  /** The epoch-day count advances by exactly one from a date to the next. */
  lemma NextDayEpochDay(d: LocalDate)
    requires NextDay(d).Some?
    ensures EpochDay(NextDay(d).value) == EpochDay(d) + 1
  {
    if d.day < MonthLength(d.year, d.month) {
    } else if d.month < 12 {
      MonthStep(d.year, d.month);
    } else {
      YearStep(d.year);
    }
  }

  /** Day zero is 1970-01-01. */
  lemma EpochDayOrigin()
    ensures EpochDay(Date(1970, 1, 1)) == 0
  {
  }

  /** Years before y, split into whole 400-year cycles of 146097 days and the rest. */
  lemma DaysBeforeYearCycles(y: int)
    ensures var p := y - 1; var r := p % 400;
      DaysBeforeYear(y) == 146097 * (p / 400) + 365 * r + r / 4 - r / 100
  {
    var p := y - 1;
    var q := p / 400;
    var r := p % 400;
    assert p == 400 * q + r;
    assert p / 4 == 100 * q + r / 4;
    assert p / 100 == 4 * q + r / 100;
  }

  /** A later year does not start earlier. */
  lemma DaysBeforeYearMonotone(x: int, y: int)
    requires x <= y
    ensures DaysBeforeYear(x) <= DaysBeforeYear(y)
  {
    DaysBeforeYearCycles(x);
    DaysBeforeYearCycles(y);
    var px, py := x - 1, y - 1;
    assert px / 400 <= py / 400;
    if px / 400 == py / 400 {
      assert px % 400 <= py % 400;
    }
  }

  /** Every LocalDate is within the epoch days of the first and the last date. */
  lemma EpochDayBounds(d: LocalDate)
    ensures EpochDay(Date(MinYear, 1, 1)) <= EpochDay(d) <= EpochDay(Date(MaxYear, 12, 31))
  {
    DaysBeforeYearMonotone(MinYear, d.year);
    DaysBeforeYearMonotone(d.year + 1, MaxYear + 1);
    YearStep(d.year);
    YearStep(MaxYear);
    assert DaysBeforeMonth(d.year, d.month) + d.day <= YearLength(d.year);
  }

  // ---------------------------------------------------------------------------
  // Instants
  // ---------------------------------------------------------------------------

  /** Nanoseconds since 1970-01-01T00:00:00Z. */
  type Instant = int

  const NanosPerSecond: int := 1_000_000_000
  const SecondsPerDay: int := 86_400

  /** Instant.MIN and Instant.MAX in whole seconds. */
  const MinInstantSecond: int := -31_557_014_167_219_200
  const MaxInstantSecond: int := 31_556_889_864_403_199

  predicate InInstantRange(t: Instant) {
    MinInstantSecond * NanosPerSecond <= t < (MaxInstantSecond + 1) * NanosPerSecond
  }

  /** The first and the last second of Instant are -1000000000-01-01T00:00:00Z and ..-12-31T23:59:59Z. */
  lemma InstantRangeEnds()
    ensures EpochDay(Date(-1_000_000_000, 1, 1)) * SecondsPerDay == MinInstantSecond
    ensures EpochDay(Date(1_000_000_000, 12, 31)) * SecondsPerDay + SecondsPerDay - 1 == MaxInstantSecond
  {
  }

  /** date.atStartOfDay(ZoneOffset.UTC).toInstant(). */
  function AtStartOfDayUtc(d: LocalDate): (t: Instant)
    ensures InInstantRange(t)
  {
    EpochDayBounds(d);
    EpochDay(d) * SecondsPerDay * NanosPerSecond
  }

  /** Two consecutive midnights are one day apart. */
  lemma StartOfNextDay(d: LocalDate)
    requires NextDay(d).Some?
    ensures AtStartOfDayUtc(NextDay(d).value) == AtStartOfDayUtc(d) + SecondsPerDay * NanosPerSecond
  {
    NextDayEpochDay(d);
  }

  // ---------------------------------------------------------------------------
  // LocalDate.parse: uuuu-MM-dd as ISO_LOCAL_DATE reads it in strict mode
  // ---------------------------------------------------------------------------

  /**
   * The year token (SignStyle.EXCEEDS_PAD, 4 to 10 digits, strict): exactly four digits
   * without a sign, '+' followed by five to ten digits, or '-' followed by four to ten
   * digits that are not all zero. The value is not range-checked here.
   */
  function ParseYear(s: string): (r: Option<int>)
    ensures r.Some? ==> 4 <= |s| <= 11
  {
    if |s| >= 1 && s[0] == '+' then
      var digits := s[1..];
      if 5 <= |digits| <= 10 && AllDigits(digits) then Some(DigitsValue(digits)) else None
    else if |s| >= 1 && s[0] == '-' then
      var digits := s[1..];
      if 4 <= |digits| <= 10 && AllDigits(digits) && DigitsValue(digits) != 0 then Some(-(DigitsValue(digits) as int))
      else None
    else if |s| == 4 && AllDigits(s) then Some(DigitsValue(s))
    else None
  }

  /** Two ASCII digits at s[i], s[i+1]. */
  predicate TwoDigitsAt(s: string, i: nat) {
    i + 2 <= |s| && IsDigit(s[i]) && IsDigit(s[i + 1])
  }

  function TwoDigitValue(s: string, i: nat): (v: nat)
    requires TwoDigitsAt(s, i)
    ensures v < 100
  {
    DigitValue(s[i]) * 10 + DigitValue(s[i + 1])
  }

  /**
   * The fields of "year-MM-dd" with the syntax of ISO_LOCAL_DATE and no range checks:
   * a year token, then '-', two digits, '-', two digits, and nothing after.
   */
  function ParseDateFields(s: string): (r: Option<Date>)
    ensures r.Some? ==> 10 <= |s| <= 17 && 0 <= r.value.month < 100 && 0 <= r.value.day < 100
  {
    if |s| < 6 || s[|s| - 6] != '-' || s[|s| - 3] != '-' then None
    else
      var y := ParseYear(s[..|s| - 6]);
      if y.None? || !TwoDigitsAt(s, |s| - 5) || !TwoDigitsAt(s, |s| - 2) then None
      else Some(Date(y.value, TwoDigitValue(s, |s| - 5), TwoDigitValue(s, |s| - 2)))
  }

  /** LocalDate.parse(s); None stands for the DateTimeParseException. */
  function ParseLocalDate(s: string): (r: Option<LocalDate>)
    ensures r.Some? ==> ParseDateFields(s) == Some(r.value)
    ensures ParseDateFields(s).Some? && ValidDate(ParseDateFields(s).value) ==> r.Some?
  {
    var f := ParseDateFields(s);
    if f.Some? && ValidDate(f.value) then Some(f.value) else None
  }

  /** A blank string is never a date. */
  lemma BlankIsNoDate(s: string)
    requires IsBlank(s)
    ensures ParseLocalDate(s).None?
  {
    if |s| >= 6 {
      assert !IsDigit(s[|s| - 2]) by {
        assert IsWhitespace(s[|s| - 2]);
      }
    }
  }

  // ---------------------------------------------------------------------------
  // LocalDate.toString, the inverse of the date parser
  // ---------------------------------------------------------------------------

  /** Year.toString as LocalDate prints it: at least four digits, '+' above 9999. */
  function FormatYear(y: int): string {
    var a: nat := if y < 0 then -y else y;
    if a < 1000 then (if y < 0 then "-" else "") + ZeroPad(a, 4)
    else (if y > 9999 then "+" else if y < 0 then "-" else "") + NatToString(a)
  }

  function TwoDigits(n: nat): (s: string)
    requires n < 100
    ensures |s| == 2 && TwoDigitsAt(s, 0) && TwoDigitValue(s, 0) == n
  {
    ZeroPadLength(n, 2);
    var s := ZeroPad(n, 2);
    assert s[..1] == [s[0]] && s[..2][..1] == s[..1] && s[..2] == s;
    s
  }

  /** LocalDate.toString. */
  function FormatDate(d: LocalDate): string {
    FormatYear(d.year) + "-" + TwoDigits(d.month) + "-" + TwoDigits(d.day)
  }

  /** A sign followed by a numeral: the part after the sign is the numeral. */
  lemma SignedTail(sign: string, n: string)
    requires |sign| == 1
    ensures (sign + n)[0] == sign[0] && (sign + n)[1..] == n
  {
  }

  /** A signed year token: the digits after the sign decide. */
  lemma ParseSignedYear(sign: char, n: string)
    requires sign == '+' || sign == '-'
    requires AllDigits(n)
    ensures sign == '+' && 5 <= |n| <= 10 ==> ParseYear([sign] + n) == Some(DigitsValue(n))
    ensures sign == '-' && 4 <= |n| <= 10 && DigitsValue(n) != 0 ==> ParseYear([sign] + n) == Some(-(DigitsValue(n) as int))
  {
    assert ([sign] + n)[0] == sign;
    assert ([sign] + n)[1..] == n;
  }

  lemma ParseFormatYear(y: int)
    requires MinYear <= y <= MaxYear
    ensures ParseYear(FormatYear(y)) == Some(y)
  {
    if -1000 < y < 1000 {
      ParsePaddedYear(y);
    } else if 1000 <= y <= 9999 {
      ParsePlainYear(y);
    } else if y > 9999 {
      ParsePlusYear(y);
    } else {
      ParseMinusYear(y);
    }
  }

  /** Years of fewer than four digits are zero-padded to four. */
  lemma ParsePaddedYear(y: int)
    requires -1000 < y < 1000
    ensures ParseYear(FormatYear(y)) == Some(y)
  {
    var a: nat := if y < 0 then -y else y;
    ZeroPadLength(a, 4);
    if y < 0 {
      assert FormatYear(y) == ['-'] + ZeroPad(a, 4);
      ParseSignedYear('-', ZeroPad(a, 4));
    } else {
      assert FormatYear(y) == ZeroPad(a, 4);
    }
  }

  /** Four-digit years are printed as they are. */
  lemma ParsePlainYear(y: int)
    requires 1000 <= y <= 9999
    ensures ParseYear(FormatYear(y)) == Some(y)
  {
    Pow10Values();
    NatToStringLower(y, 4);
    NatToStringUpper(y, 4);
    assert FormatYear(y) == NatToString(y);
  }

  /** Years beyond four digits carry a '+'. */
  lemma ParsePlusYear(y: int)
    requires 9999 < y <= MaxYear
    ensures ParseYear(FormatYear(y)) == Some(y)
  {
    Pow10Values();
    NatToStringLower(y, 5);
    NatToStringUpper(y, 9);
    assert FormatYear(y) == ['+'] + NatToString(y);
    ParseSignedYear('+', NatToString(y));
  }

  /** Negative years of four or more digits carry a '-'. */
  lemma ParseMinusYear(y: int)
    requires MinYear <= y <= -1000
    ensures ParseYear(FormatYear(y)) == Some(y)
  {
    var a: nat := -y;
    Pow10Values();
    NatToStringLower(a, 4);
    NatToStringUpper(a, 9);
    assert FormatYear(y) == ['-'] + NatToString(a);
    ParseSignedYear('-', NatToString(a));
  }

  /** Every character of a printed year is a digit or a sign. */
  lemma FormatYearChars(y: int)
    ensures forall i :: 0 <= i < |FormatYear(y)| ==> IsDigit(FormatYear(y)[i]) || FormatYear(y)[i] in "+-"
  {
  }

  /** A year token, '-', two digits, '-', two digits: the fields are read off each part. */
  lemma DateFieldsOfParts(y: string, mm: string, dd: string)
    requires ParseYear(y).Some? && |mm| == 2 && TwoDigitsAt(mm, 0) && |dd| == 2 && TwoDigitsAt(dd, 0)
    ensures ParseDateFields(y + "-" + mm + "-" + dd)
         == Some(Date(ParseYear(y).value, TwoDigitValue(mm, 0), TwoDigitValue(dd, 0)))
  {
    var s := y + "-" + mm + "-" + dd;
    assert |s| == |y| + 6;
    assert s[..|s| - 6] == y;
    assert s[|s| - 6] == '-' && s[|s| - 3] == '-';
    assert s[|s| - 5] == mm[0] && s[|s| - 4] == mm[1];
    assert s[|s| - 2] == dd[0] && s[|s| - 1] == dd[1];
  }

  /** Printing a date and parsing it back gives the same date. */
  lemma ParseFormatDate(d: LocalDate)
    ensures ParseDateFields(FormatDate(d)) == Some(d)
    ensures ParseLocalDate(FormatDate(d)) == Some(d)
  {
    ParseFormatYear(d.year);
    DateFieldsOfParts(FormatYear(d.year), TwoDigits(d.month), TwoDigits(d.day));
  }

  /** A printed date holds no 'T'. */
  lemma FormatDateHasNoT(d: LocalDate)
    ensures forall j :: 0 <= j < |FormatDate(d)| ==> FormatDate(d)[j] != 'T' && FormatDate(d)[j] != 't'
  {
    var date := FormatDate(d);
    var y := FormatYear(d.year);
    FormatYearChars(d.year);
    forall j | 0 <= j < |date|
      ensures date[j] != 'T' && date[j] != 't'
    {
      if j < |y| {
        assert date[j] == y[j];
      } else if j == |y| || j == |y| + 3 {
        assert date[j] == '-';
      } else if j < |y| + 3 {
        assert date[j] == TwoDigits(d.month)[j - |y| - 1];
      } else {
        assert date[j] == TwoDigits(d.day)[j - |y| - 4];
      }
    }
  }

  // ---------------------------------------------------------------------------
  // Instant.parse: ISO_INSTANT, case-insensitive, strict
  // ---------------------------------------------------------------------------

  /** The index of the first 'T' or 't', or |s| if there is none. */
  function IndexOfT(s: string): (i: nat)
    ensures i <= |s|
    ensures i < |s| ==> s[i] == 'T' || s[i] == 't'
    ensures forall j :: 0 <= j < i ==> s[j] != 'T' && s[j] != 't'
  {
    if |s| == 0 || s[0] == 'T' || s[0] == 't' then 0 else 1 + IndexOfT(s[1..])
  }

  /** The number of leading ASCII digits. */
  function LeadingDigits(s: string): (k: nat)
    ensures k <= |s| && AllDigits(s[..k])
    ensures k < |s| ==> !IsDigit(s[k])
  {
    if |s| == 0 || !IsDigit(s[0]) then 0
    else
      var k := 1 + LeadingDigits(s[1..]);
      assert s[..k] == [s[0]] + s[1..][..k - 1];
      k
  }

  /** Hour, minute, second, nano-of-second and zone offset (in seconds) as read, unresolved. */
  datatype TimeFields = TimeFields(hour: int, minute: int, second: int, nano: int, offset: int)

  /**
   * The zone offset: 'Z' (any case), or a sign and +HH:MM or +HH:MM:SS with hours up to 23
   * and minutes and seconds up to 59.
   */
  function ParseOffset(s: string): (r: Option<int>)
    ensures r.Some? ==> -(23 * 3600 + 59 * 60 + 59) <= r.value <= 23 * 3600 + 59 * 60 + 59
  {
    if |s| == 1 && (s[0] == 'Z' || s[0] == 'z') then Some(0)
    else if (|s| == 6 || |s| == 9) && (s[0] == '+' || s[0] == '-')
      && TwoDigitsAt(s, 1) && s[3] == ':' && TwoDigitsAt(s, 4)
      && (|s| == 6 || (s[6] == ':' && TwoDigitsAt(s, 7)))
    then
      var hh := TwoDigitValue(s, 1);
      var mm := TwoDigitValue(s, 4);
      var ss := if |s| == 9 then TwoDigitValue(s, 7) else 0;
      if hh > 23 || mm > 59 || ss > 59 then None
      else
        var magnitude := hh * 3600 + mm * 60 + ss;
        Some(if s[0] == '-' then -magnitude else magnitude)
    else None
  }

  /** "HH:mm:ss", an optional '.' with up to nine digits, then the offset. */
  function ParseTimeFields(s: string): (r: Option<TimeFields>)
    ensures r.Some? ==> 0 <= r.value.hour < 100 && 0 <= r.value.minute < 100 && 0 <= r.value.second < 100
    ensures r.Some? ==> 0 <= r.value.nano < NanosPerSecond
  {
    if !(TwoDigitsAt(s, 0) && |s| >= 8 && s[2] == ':' && TwoDigitsAt(s, 3) && s[5] == ':' && TwoDigitsAt(s, 6)) then None
    else
      var rest := s[8..];
      var hasFraction := |rest| > 0 && rest[0] == '.';
      var digits := if hasFraction then LeadingDigits(rest[1..]) else 0;
      if digits > 9 then None
      else
        var nano: nat := if hasFraction then FractionNanos(rest[1..][..digits]) else 0;
        var offsetText := if hasFraction then rest[1 + digits..] else rest;
        var offset := ParseOffset(offsetText);
        if offset.None? then None
        else
          Some(TimeFields(TwoDigitValue(s, 0), TwoDigitValue(s, 3), TwoDigitValue(s, 6), nano, offset.value))
  }

  /** Up to nine fraction digits as nanoseconds: the digits scaled up to nine places. */
  function FractionNanos(f: string): (n: nat)
    requires AllDigits(f) && |f| <= 9
    ensures n < NanosPerSecond
  {
    var v := DigitsValue(f);
    var scale := Pow10(9 - |f|);
    DigitsValueBound(f);
    Pow10Add(|f|, 9 - |f|);
    Pow10Values();
    MulBelow(v, Pow10(|f|), scale);
    v * scale
  }

  /** A smaller factor gives a smaller product. */
  lemma MulBelow(v: nat, p: nat, q: nat)
    requires v < p && q >= 1
    ensures v * q < p * q
  {
    assert p * q - v * q == (p - v) * q;
  }

  /** The powers of ten the year and fraction formats use. */
  lemma Pow10Values()
    ensures Pow10(3) == 1000 && Pow10(4) == 10000 && Pow10(9) == NanosPerSecond
  {
  }

  lemma {:induction false} DigitsValueBound(s: string)
    requires AllDigits(s)
    ensures DigitsValue(s) < Pow10(|s|)
    decreases |s|
  {
    if |s| > 0 {
      DigitsValueBound(s[..|s| - 1]);
    }
  }

  lemma {:induction false} Pow10Add(i: nat, j: nat)
    ensures Pow10(i) * Pow10(j) == Pow10(i + j)
    decreases i
  {
    if i > 0 {
      Pow10Add(i - 1, j);
    }
  }

  /**
   * The resolution step of ISO_INSTANT: 24:00:00 (with no fraction) is midnight of the next
   * day, a leap second 23:59:60 is read as 23:59:59, the date and time of day must exist,
   * the offset is at most 18 hours either way, and the result must lie within Instant.
   */
  function ResolveInstant(d: Date, t: TimeFields): (r: Option<Instant>)
    ensures r.Some? ==> InInstantRange(r.value)
  {
    var endOfDay := t.hour == 24 && t.minute == 0 && t.second == 0 && t.nano == 0;
    var leapSecond := t.hour == 23 && t.minute == 59 && t.second == 60;
    var hour := if endOfDay then 0 else t.hour;
    var second := if leapSecond then 59 else t.second;
    var days := if endOfDay then 1 else 0;
    if !DayExists(d) || !(0 <= hour <= 23 && 0 <= t.minute <= 59 && 0 <= second <= 59)
      || !(-18 * 3600 <= t.offset <= 18 * 3600) || !(0 <= t.nano < NanosPerSecond)
    then None
    else
      var seconds := (EpochDay(d) + days) * SecondsPerDay + hour * 3600 + t.minute * 60 + second - t.offset;
      if MinInstantSecond <= seconds <= MaxInstantSecond then Some(seconds * NanosPerSecond + t.nano) else None
  }

  /** Instant.parse(s); None stands for the DateTimeParseException. */
  function ParseInstant(s: string): (r: Option<Instant>)
    ensures r.Some? ==> InInstantRange(r.value)
  {
    var i := IndexOfT(s);
    if i == |s| then None
    else
      var date := ParseDateFields(s[..i]);
      var time := ParseTimeFields(s[i + 1..]);
      if date.None? || time.None? then None else ResolveInstant(date.value, time.value)
  }

  /** The instant of a UTC date and time of day with whole seconds. */
  function UtcInstant(d: LocalDate, hour: nat, minute: nat, second: nat): Instant {
    (EpochDay(d) * SecondsPerDay + hour * 3600 + minute * 60 + second) * NanosPerSecond
  }

  /** A blank string is never an instant. */
  lemma BlankIsNoInstant(s: string)
    requires IsBlank(s)
    ensures ParseInstant(s).None?
  {
    var i := IndexOfT(s);
    assert i < |s| ==> IsWhitespace(s[i]);
  }

  /** A date part free of 'T', the letter, and a time part: each is parsed on its own. */
  lemma InstantOfParts(date: string, time: string)
    requires forall j :: 0 <= j < |date| ==> date[j] != 'T' && date[j] != 't'
    requires ParseDateFields(date).Some? && ParseTimeFields(time).Some?
    ensures ParseInstant(date + "T" + time) == ResolveInstant(ParseDateFields(date).value, ParseTimeFields(time).value)
  {
    var s := date + "T" + time;
    assert s[|date|] == 'T';
    assert IndexOfT(s) == |date|;
    assert s[..|date|] == date;
    assert s[|date| + 1..] == time;
  }

  /** "HH:mm:ssZ" with no fraction. */
  lemma TimeFieldsUtc(hour: nat, minute: nat, second: nat)
    requires hour < 24 && minute < 60 && second < 60
    ensures ParseTimeFields(TwoDigits(hour) + ":" + TwoDigits(minute) + ":" + TwoDigits(second) + "Z")
         == Some(TimeFields(hour, minute, second, 0, 0))
  {
    var h, m, s := TwoDigits(hour), TwoDigits(minute), TwoDigits(second);
    UtcTimeText(h, m, s);
    assert ParseOffset("Z") == Some(0);
  }

  /** The layout of "HH:mm:ssZ": every character in its place. */
  lemma UtcTimeText(h: string, m: string, s: string)
    requires |h| == 2 && |m| == 2 && |s| == 2
    ensures var t := h + ":" + m + ":" + s + "Z";
      && |t| == 9 && t[0] == h[0] && t[1] == h[1] && t[2] == ':'
      && t[3] == m[0] && t[4] == m[1] && t[5] == ':'
      && t[6] == s[0] && t[7] == s[1] && t[8..] == "Z"
  {
  }

  /** "yyyy-MM-ddTHH:mm:ssZ" is read as that UTC date and time. */
  lemma ParseInstantUtc(d: LocalDate, hour: nat, minute: nat, second: nat)
    requires hour < 24 && minute < 60 && second < 60
    ensures ParseInstant(FormatDate(d) + "T" + TwoDigits(hour) + ":" + TwoDigits(minute) + ":"
                         + TwoDigits(second) + "Z") == Some(UtcInstant(d, hour, minute, second))
  {
    var time := TwoDigits(hour) + ":" + TwoDigits(minute) + ":" + TwoDigits(second) + "Z";
    assert FormatDate(d) + "T" + TwoDigits(hour) + ":" + TwoDigits(minute) + ":" + TwoDigits(second) + "Z"
        == FormatDate(d) + "T" + time;
    FormatDateHasNoT(d);
    ParseFormatDate(d);
    TimeFieldsUtc(hour, minute, second);
    InstantOfParts(FormatDate(d), time);
    ResolveUtc(d, hour, minute, second);
  }

  /** A UTC time of day on a LocalDate always resolves, LocalDate being inside Instant's range. */
  lemma ResolveUtc(d: LocalDate, hour: nat, minute: nat, second: nat)
    requires hour < 24 && minute < 60 && second < 60
    ensures ResolveInstant(d, TimeFields(hour, minute, second, 0, 0)) == Some(UtcInstant(d, hour, minute, second))
  {
    EpochDayBounds(d);
    InstantRangeEnds();
    var seconds := EpochDay(d) * SecondsPerDay + hour * 3600 + minute * 60 + second;
    assert MinInstantSecond <= seconds <= MaxInstantSecond;
  }
}
