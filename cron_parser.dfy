/**
 * The contract of cron-utils' CronParser for the QUARTZ definition, as isValid and
 * validateCron use it: parse(expression) followed by validate(). The expression is
 * normalised (runs of \s become one space, then trimmed), upper-cased and split into 6 or 7
 * fields (second, minute, hour, day-of-month, month, day-of-week, optional year); each field
 * is parsed against the Quartz grammar for its position; exactly one of day-of-month and
 * day-of-week must be '?'. Every failure is an exception, here a CronError.
 */
module CronParser {
  import opened Wrappers
  import opened Strings

  // ---------------------------------------------------------------------------
  // Normalisation: replaceAll("\\s+", " ") then trim()
  // ---------------------------------------------------------------------------

  /** The characters the regex \s matches (no UNICODE_CHARACTER_CLASS flag). */
  predicate IsRegexSpace(c: char) {
    c == ' ' || c == '\t' || c == '\n' || c == '\U{000B}' || c == '\U{000C}' || c == '\r'
  }

  /** No \s character but the plain space, and no two spaces side by side. */
  predicate Collapsed(s: string) {
    && (forall i :: 0 <= i < |s| && IsRegexSpace(s[i]) ==> s[i] == ' ')
    && (forall i :: 0 <= i < |s| - 1 ==> s[i] != ' ' || s[i + 1] != ' ')
  }

  /** s without its leading \s characters. */
  function SkipRegexSpaces(s: string): (r: string)
    ensures |r| <= |s| && r == s[|s| - |r|..]
    ensures r == [] || !IsRegexSpace(r[0])
    ensures forall c :: c in s && !IsRegexSpace(c) ==> c in r
  {
    if |s| > 0 && IsRegexSpace(s[0]) then SkipRegexSpaces(s[1..]) else s
  }

  /**
   * replaceAll("\\s+", " "): every maximal run of \s characters becomes one space. The
   * result is collapsed, a collapsed input comes back unchanged, the first character is a
   * space exactly when the input starts with \s, and nothing but spaces is added.
   */
  function CollapseSpaces(s: string): (r: string)
    ensures Collapsed(r)
    ensures |s| > 0 ==> |r| > 0 && (r[0] == ' ' <==> IsRegexSpace(s[0]))
    ensures forall c :: c in r ==> c == ' ' || c in s
    decreases |s|
  {
    if |s| == 0 then []
    else if IsRegexSpace(s[0]) then
      var t := SkipRegexSpaces(s[1..]);
      assert t == s[|s| - |t|..];
      var rest := CollapseSpaces(t);
      ConsCollapsed(' ', rest);
      assert forall c :: c in rest ==> c == ' ' || c in s by {
        assert forall c :: c in t ==> c in s;
      }
      [' '] + rest
    else
      var rest := CollapseSpaces(s[1..]);
      ConsCollapsed(s[0], rest);
      [s[0]] + rest
  }

  /** Collapsing keeps every character that is not \s. */
  lemma {:induction false} CollapseKeepsText(s: string)
    ensures forall c :: c in s && !IsRegexSpace(c) ==> c in CollapseSpaces(s)
    decreases |s|
  {
    if |s| > 0 {
      if IsRegexSpace(s[0]) {
        var t := SkipRegexSpaces(s[1..]);
        CollapseKeepsText(t);
        assert forall c :: c in s && !IsRegexSpace(c) ==> c in t by {
          assert forall c :: c in s && !IsRegexSpace(c) ==> c in s[1..];
        }
      } else {
        CollapseKeepsText(s[1..]);
        assert forall c :: c in s ==> c == s[0] || c in s[1..];
      }
    }
  }

  /** A character before a collapsed string keeps it collapsed unless two spaces would meet. */
  /** A collapsed string comes back from CollapseSpaces unchanged. */
  lemma {:induction false} CollapseFixed(s: string)
    requires Collapsed(s)
    ensures CollapseSpaces(s) == s
    decreases |s|
  {
    if |s| > 0 {
      CollapsedSlice(s, 1, |s|);
      CollapseFixed(s[1..]);
      if IsRegexSpace(s[0]) && |s| > 1 {
        assert s[0] == ' ' && s[1] != ' ';
        assert !IsRegexSpace(s[1]);
      }
    }
  }

  lemma ConsCollapsed(c: char, rest: string)
    requires Collapsed(rest) && (c == ' ' || !IsRegexSpace(c))
    requires c == ' ' && |rest| > 0 ==> rest[0] != ' '
    ensures Collapsed([c] + rest)
  {
    var r := [c] + rest;
    forall i | 0 <= i < |r| - 1 ensures r[i] != ' ' || r[i + 1] != ' ' {
      if i > 0 {
        assert r[i] == rest[i - 1] && r[i + 1] == rest[i];
      }
    }
    forall i | 0 <= i < |r| && IsRegexSpace(r[i]) ensures r[i] == ' ' {
      if i > 0 {
        assert r[i] == rest[i - 1];
      }
    }
  }

  /** Leading characters up to U+0020 removed. */
  function TrimStart(s: string): (r: string)
    ensures |r| <= |s| && r == s[|s| - |r|..]
    ensures r == [] || r[0] > ' '
    ensures forall c :: c in s && c > ' ' ==> c in r
  {
    if |s| > 0 && s[0] <= ' ' then TrimStart(s[1..]) else s
  }

  /** Trailing characters up to U+0020 removed. */
  function TrimEnd(s: string): (r: string)
    ensures |r| <= |s| && r == s[..|r|]
    ensures r == [] || r[|r| - 1] > ' '
    ensures forall c :: c in s && c > ' ' ==> c in r
  {
    if |s| > 0 && s[|s| - 1] <= ' ' then TrimEnd(s[..|s| - 1]) else s
  }

  /** String.trim: both ends stripped of characters up to U+0020. */
  function Trim(s: string): (r: string)
    ensures r == [] || (r[0] > ' ' && r[|r| - 1] > ' ')
    ensures |r| <= |s|
  {
    TrimEnd(TrimStart(s))
  }

  /** Trim keeps a contiguous part of its input, from where the leading blanks end. */
  lemma TrimSlice(s: string)
    ensures |s| - |TrimStart(s)| + |Trim(s)| <= |s|
    ensures Trim(s) == s[|s| - |TrimStart(s)|..|s| - |TrimStart(s)| + |Trim(s)|]
  {
    var t := TrimStart(s);
    var r := TrimEnd(t);
    assert r == s[|s| - |t|..][..|r|];
  }

  /** Trimming a collapsed string leaves it collapsed. */
  lemma TrimCollapsed(s: string)
    requires Collapsed(s)
    ensures Collapsed(Trim(s))
  {
    var t := TrimStart(s);
    CollapsedSlice(s, |s| - |t|, |s|);
    CollapsedSlice(t, 0, |TrimEnd(t)|);
  }

  /** Trim adds no character. */
  lemma TrimChars(s: string)
    ensures forall x :: x in Trim(s) ==> x in s
  {
    TrimSlice(s);
    var i := |s| - |TrimStart(s)|;
    forall x | x in Trim(s) ensures x in s {
      var k :| 0 <= k < |Trim(s)| && Trim(s)[k] == x;
      assert s[i + k] == x;
    }
  }

  /** A slice of a collapsed string is collapsed. */
  lemma CollapsedSlice(s: string, i: int, j: int)
    requires 0 <= i <= j <= |s| && Collapsed(s)
    ensures Collapsed(s[i..j])
  {
    var t := s[i..j];
    forall k | 0 <= k < |t| - 1
      ensures t[k] != ' ' || t[k + 1] != ' '
    {
      assert t[k] == s[i + k] && t[k + 1] == s[i + k + 1];
    }
  }

  /** The text CronParser.parse goes on with: \s runs collapsed, then trimmed. */
  function Normalise(s: string): (r: string)
    ensures Collapsed(r)
    ensures r == [] || (r[0] > ' ' && r[|r| - 1] > ' ')
    ensures forall c :: c in r ==> c == ' ' || c in s
    ensures forall c :: c in s && c > ' ' ==> c in r
  {
    var c := CollapseSpaces(s);
    CollapseKeepsText(s);
    TrimCollapsed(c);
    TrimChars(c);
    Trim(c)
  }

  /** Trimming text whose ends are already above U+0020 changes nothing. */
  lemma TrimNoop(s: string)
    requires s == [] || (s[0] > ' ' && s[|s| - 1] > ' ')
    ensures Trim(s) == s
  {
  }

  /** Normalising twice is normalising once. */
  lemma NormaliseIdempotent(s: string)
    ensures Normalise(Normalise(s)) == Normalise(s)
  {
    var n := Normalise(s);
    CollapseFixed(n);
    TrimNoop(n);
  }

  /** Two collapsed strings, not both spaces where they meet, concatenate to a collapsed one. */
  lemma CollapsedConcat(a: string, b: string)
    requires Collapsed(a) && Collapsed(b)
    requires a == [] || b == [] || a[|a| - 1] != ' ' || b[0] != ' '
    ensures Collapsed(a + b)
  {
    var s := a + b;
    forall k | 0 <= k < |s| - 1
      ensures s[k] != ' ' || s[k + 1] != ' '
    {
      if k + 1 < |a| {
        assert s[k] == a[k] && s[k + 1] == a[k + 1];
      } else if k >= |a| {
        assert s[k] == b[k - |a|] && s[k + 1] == b[k - |a| + 1];
      }
    }
    forall k | 0 <= k < |s| && IsRegexSpace(s[k])
      ensures s[k] == ' '
    {
      if k < |a| {
        assert s[k] == a[k];
      } else {
        assert s[k] == b[k - |a|];
      }
    }
  }

  /** Pieces free of characters up to U+0020, joined with single spaces, are collapsed. */
  lemma {:induction false} JoinCollapsed(parts: seq<string>)
    requires |parts| >= 1
    requires forall i :: 0 <= i < |parts| ==> parts[i] != ""
    requires forall i, j :: 0 <= i < |parts| && 0 <= j < |parts[i]| ==> parts[i][j] > ' '
    ensures Collapsed(Join(parts, ' '))
    decreases |parts|
  {
    var p := parts[0];
    assert Collapsed(p) by {
      forall k | 0 <= k < |p| ensures p[k] > ' ' {
        assert p[k] == parts[0][k];
      }
    }
    if |parts| > 1 {
      var rest := parts[1..];
      JoinCollapsed(rest);
      JoinEnds(rest, ' ');
      assert rest[0][0] > ' ';
      CollapsedConcat([' '], Join(rest, ' '));
      CollapsedConcat(p, [' '] + Join(rest, ' '));
      assert Join(parts, ' ') == p + ([' '] + Join(rest, ' '));
    }
  }

  /** Pieces free of characters up to U+0020, joined with single spaces, are already normal. */
  lemma NormaliseJoin(parts: seq<string>)
    requires |parts| >= 1
    requires forall i :: 0 <= i < |parts| ==> parts[i] != ""
    requires forall i, j :: 0 <= i < |parts| && 0 <= j < |parts[i]| ==> parts[i][j] > ' '
    ensures Normalise(Join(parts, ' ')) == Join(parts, ' ')
  {
    JoinCollapsed(parts);
    CollapseFixed(Join(parts, ' '));
    JoinEnds(parts, ' ');
    var last := parts[|parts| - 1];
    assert last[|last| - 1] > ' ';
    TrimNoop(Join(parts, ' '));
  }

  /** A run of \s characters, possibly empty. */
  predicate SpaceRun(w: string) {
    forall i :: 0 <= i < |w| ==> IsRegexSpace(w[i])
  }

  /** Text with no character up to U+0020, so neither \s nor anything trim removes. */
  predicate NoBlank(p: string) {
    forall i :: 0 <= i < |p| ==> p[i] > ' '
  }

  /** The pieces with gaps[i] between parts[i] and parts[i + 1]. */
  function Spaced(parts: seq<string>, gaps: seq<string>): (r: string)
    requires |parts| >= 1 && |gaps| == |parts| - 1
    ensures |parts[0]| <= |r| && r[..|parts[0]|] == parts[0]
  {
    if |parts| == 1 then parts[0]
    else
      var r := parts[0] + gaps[0] + Spaced(parts[1..], gaps[1..]);
      assert r[..|parts[0]|] == parts[0];
      r
  }

  /** Skipping \s characters removes a whole leading run and stops at the first other character. */
  lemma {:induction false} SkipRun(w: string, b: string)
    requires SpaceRun(w) && (b == [] || !IsRegexSpace(b[0]))
    ensures SkipRegexSpaces(w + b) == b
    decreases |w|
  {
    if |w| > 0 {
      assert (w + b)[1..] == w[1..] + b;
      SkipRun(w[1..], b);
    }
  }

  /** CollapseSpaces keeps a first character that is not \s. */
  lemma CollapseKeep(c: char, b: string)
    requires !IsRegexSpace(c)
    ensures CollapseSpaces([c] + b) == [c] + CollapseSpaces(b)
  {
    assert ([c] + b)[1..] == b;
  }

  /** Characters that are not \s pass through the collapsing one by one. */
  lemma {:induction false} CollapseNoBlank(p: string, b: string)
    requires NoBlank(p)
    ensures CollapseSpaces(p + b) == p + CollapseSpaces(b)
    decreases |p|
  {
    if |p| == 0 {
      assert p + b == b;
    } else {
      HeadTail(p, b);
      CollapseKeep(p[0], p[1..] + b);
      CollapseNoBlank(p[1..], b);
      HeadTail(p, CollapseSpaces(b));
    }
  }

  /** A non-empty prefix is its first character followed by the rest. */
  lemma HeadTail(p: string, x: string)
    requires |p| >= 1
    ensures p + x == [p[0]] + (p[1..] + x)
  {
  }

  /** A non-empty run of \s characters before other text becomes one space. */
  lemma CollapseRun(w: string, b: string)
    requires SpaceRun(w) && |w| >= 1 && (b == [] || !IsRegexSpace(b[0]))
    ensures CollapseSpaces(w + b) == [' '] + CollapseSpaces(b)
  {
    assert (w + b)[1..] == w[1..] + b;
    SkipRun(w[1..], b);
  }

  /** Collapsing spaced pieces gives the pieces joined by single spaces; a trailing run leaves at most one space. */
  lemma {:induction false} CollapseSpaced(parts: seq<string>, gaps: seq<string>, trail: string)
    requires |parts| >= 1 && |gaps| == |parts| - 1
    requires forall i :: 0 <= i < |parts| ==> |parts[i]| >= 1 && NoBlank(parts[i])
    requires forall i :: 0 <= i < |gaps| ==> |gaps[i]| >= 1 && SpaceRun(gaps[i])
    requires SpaceRun(trail)
    ensures CollapseSpaces(Spaced(parts, gaps) + trail) == Join(parts, ' ') + (if trail == [] then [] else [' '])
    decreases |parts|
  {
    var t: string := if trail == [] then [] else [' '];
    if |parts| == 1 {
      CollapseLast(parts[0], trail);
    } else {
      var rest := Spaced(parts[1..], gaps[1..]) + trail;
      SpacedStep(parts, gaps, trail);
      assert rest[0] == parts[1][0] && parts[1][0] > ' ';
      CollapseGap(parts[0], gaps[0], rest);
      CollapseSpaced(parts[1..], gaps[1..], trail);
      JoinStep(parts, t);
    }
  }

  /** The last piece keeps its text, and a trailing run becomes at most one space. */
  lemma CollapseLast(p: string, trail: string)
    requires NoBlank(p) && SpaceRun(trail)
    ensures CollapseSpaces(p + trail) == p + (if trail == [] then [] else [' '])
  {
    CollapseNoBlank(p, trail);
    if trail != [] {
      CollapseRun(trail, []);
    }
  }

  /** A piece and the run after it become the piece and one space. */
  lemma CollapseGap(p: string, g: string, rest: string)
    requires NoBlank(p) && SpaceRun(g) && |g| >= 1
    requires rest == [] || !IsRegexSpace(rest[0])
    ensures CollapseSpaces(p + (g + rest)) == p + ([' '] + CollapseSpaces(rest))
  {
    CollapseNoBlank(p, g + rest);
    CollapseRun(g, rest);
  }

  /** One piece and one gap split off the front of spaced text. */
  lemma SpacedStep(parts: seq<string>, gaps: seq<string>, trail: string)
    requires |parts| >= 2 && |gaps| == |parts| - 1
    ensures Spaced(parts, gaps) + trail == parts[0] + (gaps[0] + (Spaced(parts[1..], gaps[1..]) + trail))
  {
  }

  /** One piece and one space split off the front of joined text. */
  lemma JoinStep(parts: seq<string>, t: string)
    requires |parts| >= 2
    ensures Join(parts, ' ') + t == parts[0] + ([' '] + (Join(parts[1..], ' ') + t))
  {
  }

  /** Trim removes one space on either side of text whose ends are above U+0020. */
  lemma TrimPadded(j: string, t: string)
    requires |j| >= 1 && j[0] > ' ' && j[|j| - 1] > ' '
    requires t == [] || t == [' ']
    ensures Trim(j + t) == j
    ensures Trim([' '] + (j + t)) == j
  {
    assert (j + t)[0] == j[0];
    assert ([' '] + (j + t))[1..] == j + t;
    assert TrimStart(j + t) == j + t;
    assert TrimEnd(j) == j;
    if t != [] {
      assert (j + t)[..|j|] == j;
      assert TrimEnd(j + t) == TrimEnd(j);
    } else {
      assert j + t == j;
    }
  }

  /** Collapsing spaced pieces with optional runs around them leaves at most one space at each end. */
  lemma CollapsePadded(lead: string, parts: seq<string>, gaps: seq<string>, trail: string)
    requires |parts| >= 1 && |gaps| == |parts| - 1
    requires forall i :: 0 <= i < |parts| ==> |parts[i]| >= 1 && NoBlank(parts[i])
    requires forall i :: 0 <= i < |gaps| ==> |gaps[i]| >= 1 && SpaceRun(gaps[i])
    requires SpaceRun(lead) && SpaceRun(trail)
    ensures CollapseSpaces(lead + (Spaced(parts, gaps) + trail)) ==
      (if lead == [] then [] else [' ']) + (Join(parts, ' ') + (if trail == [] then [] else [' ']))
  {
    var body := Spaced(parts, gaps) + trail;
    CollapseSpaced(parts, gaps, trail);
    assert body[0] == parts[0][0] && parts[0][0] > ' ';
    if lead == [] {
      assert lead + body == body;
    } else {
      CollapseRun(lead, body);
    }
  }

  /**
   * Whitespace between and around the fields is immaterial: non-blank pieces separated by
   * runs of \s characters, with optional runs before and after, normalise to the pieces
   * joined by single spaces.
   */
  lemma NormaliseSpaced(lead: string, parts: seq<string>, gaps: seq<string>, trail: string)
    requires |parts| >= 1 && |gaps| == |parts| - 1
    requires forall i :: 0 <= i < |parts| ==> |parts[i]| >= 1 && NoBlank(parts[i])
    requires forall i :: 0 <= i < |gaps| ==> |gaps[i]| >= 1 && SpaceRun(gaps[i])
    requires SpaceRun(lead) && SpaceRun(trail)
    ensures Normalise(lead + Spaced(parts, gaps) + trail) == Join(parts, ' ')
  {
    var j := Join(parts, ' ');
    var t: string := if trail == [] then [] else [' '];
    Regroup(lead, Spaced(parts, gaps), trail);
    CollapsePadded(lead, parts, gaps, trail);
    JoinEnds(parts, ' ');
    var last := parts[|parts| - 1];
    assert parts[0][0] > ' ' && last[|last| - 1] > ' ';
    TrimPadded(j, t);
  }

  /** Concatenation regrouped. */
  lemma Regroup(a: string, b: string, c: string)
    ensures a + b + c == a + (b + c)
  {
  }

  // ---------------------------------------------------------------------------
  // Errors and tokens
  // ---------------------------------------------------------------------------

  /** Why parse(expression).validate() throws. */
  datatype CronError =
    | NullExpression                          // NullPointerException: expression is null
    | EmptyExpression                         // IllegalArgumentException: nothing left after trimming
    | TrailingComma(field: string)            // a field ends with ','
    | WrongFieldCount(count: nat)             // neither 6 nor 7 fields
    | InvalidField(position: nat, text: string) // a field outside the Quartz grammar of its position
    | DayFieldsConflict                       // not exactly one of day-of-month and day-of-week is '?'

  /** The fields of the expression: normalised, upper-cased, split at single spaces. */
  function Tokenize(expression: Option<string>): (r: Result<seq<string>, CronError>)
    ensures r.Failure? ==> r.error == NullExpression || r.error == EmptyExpression
    ensures r.Failure? <==> expression.None? || Normalise(expression.value) == []
  {
    if expression.None? then Failure(NullExpression)
    else
      var n := Normalise(expression.value);
      if n == [] then Failure(EmptyExpression)
      else Success(JavaSplit(ToUpperAscii(n), ' '))
  }

  /** Upper-case text free of characters up to U+0020, joined with single spaces, tokenizes to its pieces. */
  lemma TokenizeJoin(parts: seq<string>)
    requires |parts| >= 1
    requires forall i :: 0 <= i < |parts| ==> parts[i] != ""
    requires forall i, j :: 0 <= i < |parts| && 0 <= j < |parts[i]| ==> parts[i][j] > ' ' && !('a' <= parts[i][j] <= 'z')
    ensures Tokenize(Some(Join(parts, ' '))) == Success(parts)
  {
    var s := Join(parts, ' ');
    NormaliseJoin(parts);
    JoinEnds(parts, ' ');
    JoinAll(parts, ' ', (c: char) => UpperAscii(c) == c);
    assert ToUpperAscii(s) == s;
    JavaSplitJoin(parts, ' ');
  }

  // ---------------------------------------------------------------------------
  // Fields and their values
  // ---------------------------------------------------------------------------

  datatype FieldKind = Second | Minute | Hour | DayOfMonth | Month | DayOfWeek | Year

  /** The positions of the fields in a Quartz expression. */
  const FieldOrder: seq<FieldKind> := [Second, Minute, Hour, DayOfMonth, Month, DayOfWeek, Year]

  function MinValue(k: FieldKind): nat {
    match k
    case Second => 0
    case Minute => 0
    case Hour => 0
    case DayOfMonth => 1
    case Month => 1
    case DayOfWeek => 1
    case Year => 1970
  }

  function MaxValue(k: FieldKind): nat {
    match k
    case Second => 59
    case Minute => 59
    case Hour => 23
    case DayOfMonth => 31
    case Month => 12
    case DayOfWeek => 7
    case Year => 2099
  }

  predicate InRange(k: FieldKind, v: int) {
    MinValue(k) <= v <= MaxValue(k)
  }

  const MonthNames: seq<string> := ["JAN", "FEB", "MAR", "APR", "MAY", "JUN", "JUL", "AUG", "SEP", "OCT", "NOV", "DEC"]

  /** Quartz numbers the days of the week from SUN = 1 to SAT = 7. */
  const DayNames: seq<string> := ["SUN", "MON", "TUE", "WED", "THU", "FRI", "SAT"]

  /** The names a field accepts; name i stands for MinValue(k) + i. */
  function Names(k: FieldKind): (names: seq<string>)
    ensures names != [] ==> |names| == MaxValue(k) - MinValue(k) + 1
    ensures forall i :: 0 <= i < |names| ==> |names[i]| == 3 && 'A' <= names[i][0] <= 'Z'
  {
    match k
    case Month => MonthNames
    case DayOfWeek => DayNames
    case _ => []
  }

  /** An unsigned decimal numeral. */
  function ParseNumber(s: string): Option<nat> {
    if |s| >= 1 && AllDigits(s) then Some(DigitsValue(s)) else None
  }

  /** A value of field k: a numeral within the field's range, or one of its names. */
  function ParseValue(k: FieldKind, s: string): (r: Option<nat>)
    ensures r.Some? ==> InRange(k, r.value)
  {
    match ParseNumber(s)
    case Some(v) => if InRange(k, v) then Some(v) else None
    case None => if s in Names(k) then Some(MinValue(k) + IndexOf(Names(k), s)) else None
  }

  // ---------------------------------------------------------------------------
  // The Quartz grammar as a syntax tree
  // ---------------------------------------------------------------------------

  datatype Range =
    | Any                      // *
    | At(value: nat)           // v
    | Between(lo: nat, hi: nat) // lo-hi

  /** A range, with an increment when written range/step. */
  datatype Item = Item(range: Range, step: Option<nat>)

  datatype FieldExpr =
    | Items(items: seq<Item>)              // a comma-separated list
    | NoSpecificValue                      // ?  (day-of-month, day-of-week)
    | Last                                 // L  (day-of-month: last day; day-of-week: SAT)
    | LastDayOffset(offset: nat)           // L-n (day-of-month)
    | LastWeekday                          // LW (day-of-month)
    | NearestWeekday(day: nat)             // nW (day-of-month)
    | LastOfMonth(day: nat)                // nL (day-of-week)
    | NthOfMonth(day: nat, nth: nat)       // d#n (day-of-week)

  datatype Cron = Cron(fields: seq<FieldExpr>)

  predicate RangeOk(k: FieldKind, r: Range) {
    match r
    case Any => true
    case At(v) => InRange(k, v)
    case Between(lo, hi) => InRange(k, lo) && InRange(k, hi) && (k == Year ==> lo <= hi)
  }

  predicate ItemOk(k: FieldKind, it: Item) {
    RangeOk(k, it.range) && (it.step.Some? ==> 1 <= it.step.value <= MaxValue(k))
  }

  /** Which expressions each field admits. */
  predicate FieldOk(k: FieldKind, f: FieldExpr) {
    match f
    case Items(items) => |items| >= 1 && forall i :: 0 <= i < |items| ==> ItemOk(k, items[i])
    case NoSpecificValue => k == DayOfMonth || k == DayOfWeek
    case Last => k == DayOfMonth || k == DayOfWeek
    case LastDayOffset(n) => k == DayOfMonth && 1 <= n <= 30
    case LastWeekday => k == DayOfMonth
    case NearestWeekday(d) => k == DayOfMonth && InRange(DayOfMonth, d)
    case LastOfMonth(d) => k == DayOfWeek && InRange(DayOfWeek, d)
    case NthOfMonth(d, n) => k == DayOfWeek && InRange(DayOfWeek, d) && 1 <= n <= 5
  }

  /**
   * A valid Quartz schedule: 6 or 7 fields, each admitted at its position, and exactly one
   * of day-of-month and day-of-week left unspecified.
   */
  predicate WellFormed(c: Cron) {
    && (|c.fields| == 6 || |c.fields| == 7)
    && (forall i :: 0 <= i < |c.fields| ==> FieldOk(FieldOrder[i], c.fields[i]))
    && ((c.fields[3] == NoSpecificValue) != (c.fields[5] == NoSpecificValue))
  }

  // ---------------------------------------------------------------------------
  // Parsing
  // ---------------------------------------------------------------------------

  function ParseRange(k: FieldKind, s: string): (r: Option<Range>)
    ensures r.Some? ==> RangeOk(k, r.value)
  {
    if s == "*" then Some(Any)
    else if '-' in s then
      var i := IndexOf(s, '-');
      match (ParseValue(k, s[..i]), ParseValue(k, s[i + 1..]))
      case (Some(lo), Some(hi)) => if k != Year || lo <= hi then Some(Between(lo, hi)) else None
      case _ => None
    else
      match ParseValue(k, s)
      case Some(v) => Some(At(v))
      case None => None
  }

  function ParseItem(k: FieldKind, s: string): (r: Option<Item>)
    ensures r.Some? ==> ItemOk(k, r.value)
  {
    if '/' in s then
      var i := IndexOf(s, '/');
      match (ParseRange(k, s[..i]), ParseNumber(s[i + 1..]))
      case (Some(range), Some(step)) => if 1 <= step <= MaxValue(k) then Some(Item(range, Some(step))) else None
      case _ => None
    else
      match ParseRange(k, s)
      case Some(range) => Some(Item(range, None))
      case None => None
  }

  /** Every piece an item of field k, or nothing. */
  function ParseItemList(k: FieldKind, parts: seq<string>): (r: Option<seq<Item>>)
    ensures r.Some? <==> forall i :: 0 <= i < |parts| ==> ParseItem(k, parts[i]).Some?
    ensures r.Some? ==> |r.value| == |parts| && forall i :: 0 <= i < |parts| ==> r.value[i] == ParseItem(k, parts[i]).value
  {
    if parts == [] then Some([])
    else
      match (ParseItem(k, parts[0]), ParseItemList(k, parts[1..]))
      case (Some(it), Some(rest)) => Some([it] + rest)
      case _ => None
  }

  /** One field of Quartz syntax at the position of kind k. */
  function ParseField(k: FieldKind, s: string): (r: Option<FieldExpr>)
    ensures r.Some? ==> FieldOk(k, r.value)
  {
    if s == "?" then
      if k == DayOfMonth || k == DayOfWeek then Some(NoSpecificValue) else None
    else if s == "L" then
      if k == DayOfMonth || k == DayOfWeek then Some(Last) else None
    else if k == DayOfMonth && s == "LW" then Some(LastWeekday)
    else if k == DayOfMonth && |s| >= 2 && s[..2] == "L-" then
      match ParseNumber(s[2..])
      case Some(n) => if 1 <= n <= 30 then Some(LastDayOffset(n)) else None
      case None => None
    else if k == DayOfMonth && |s| >= 2 && s[|s| - 1] == 'W' then
      match ParseValue(DayOfMonth, s[..|s| - 1])
      case Some(d) => Some(NearestWeekday(d))
      case None => None
    else if k == DayOfWeek && |s| >= 2 && s[|s| - 1] == 'L' then
      match ParseValue(DayOfWeek, s[..|s| - 1])
      case Some(d) => Some(LastOfMonth(d))
      case None => None
    else if k == DayOfWeek && '#' in s then
      var i := IndexOf(s, '#');
      match (ParseValue(DayOfWeek, s[..i]), ParseNumber(s[i + 1..]))
      case (Some(d), Some(n)) => if 1 <= n <= 5 then Some(NthOfMonth(d, n)) else None
      case _ => None
    else
      match ParseItemList(k, Split(s, ','))
      case Some(items) => assert |items| >= 1; Some(Items(items))
      case None => None
  }

  /** No special form of Quartz applies to s at the position of kind k. */
  predicate PlainField(k: FieldKind, s: string) {
    && s != "?" && s != "L"
    && !(k == DayOfMonth && (s == "LW" || (|s| >= 2 && s[..2] == "L-") || (|s| >= 2 && s[|s| - 1] == 'W')))
    && !(k == DayOfWeek && ((|s| >= 2 && s[|s| - 1] == 'L') || '#' in s))
  }

  /** Without a special form, a field is a comma-separated list of items. */
  lemma ListField(k: FieldKind, s: string)
    requires PlainField(k, s)
    ensures ParseItemList(k, Split(s, ',')).Some? ==> ParseField(k, s) == Some(Items(ParseItemList(k, Split(s, ',')).value))
    ensures ParseItemList(k, Split(s, ',')).None? ==> ParseField(k, s).None?
  {
  }

  /** Each field parsed at its own position. */
  function ParsedFields(parts: seq<string>): (r: seq<Option<FieldExpr>>)
    requires |parts| <= |FieldOrder|
    ensures |r| == |parts| && forall j :: 0 <= j < |parts| ==> r[j] == ParseField(FieldOrder[j], parts[j])
  {
    seq(|parts|, j requires 0 <= j < |parts| => ParseField(FieldOrder[j], parts[j]))
  }

  /** The parsed fields from position i on, or the first position whose field did not parse. */
  function CollectFields(parsed: seq<Option<FieldExpr>>, parts: seq<string>, i: nat): (r: Result<seq<FieldExpr>, CronError>)
    requires |parsed| == |parts| && i <= |parts|
    ensures r.Success? <==> forall j :: i <= j < |parsed| ==> parsed[j].Some?
    ensures r.Success? ==> |r.value| == |parsed| - i && forall j :: i <= j < |parsed| ==> r.value[j - i] == parsed[j].value
    ensures r.Failure? ==> r.error.InvalidField? && i <= r.error.position < |parts| && parsed[r.error.position].None?
    decreases |parts| - i
  {
    if i == |parts| then Success([])
    else if parsed[i].None? then Failure(InvalidField(i, parts[i]))
    else
      match CollectFields(parsed, parts, i + 1)
      case Failure(e) => Failure(e)
      case Success(fs) => Success([parsed[i].value] + fs)
  }

  predicate EndsWithComma(s: string) {
    |s| > 0 && s[|s| - 1] == ','
  }

  /** The first field that ends with a comma, if any. */
  function CommaField(parts: seq<string>): (r: Option<string>)
    ensures r.None? <==> forall i :: 0 <= i < |parts| ==> !EndsWithComma(parts[i])
  {
    if parts == [] then None
    else if EndsWithComma(parts[0]) then Some(parts[0])
    else
      var r := CommaField(parts[1..]);
      assert forall i :: 1 <= i < |parts| ==> parts[i] == parts[1..][i - 1];
      r
  }

  /**
   * What parse does with the tokens: the trailing-comma check, the field count, each field
   * at its position, then the day-of-month/day-of-week constraint of validate().
   */
  function ParseFields(parts: seq<string>): (r: Result<Cron, CronError>)
    ensures r.Success? ==> WellFormed(r.value)
  {
    match CommaField(parts)
    case Some(field) => Failure(TrailingComma(field))
    case None =>
      if |parts| != 6 && |parts| != 7 then Failure(WrongFieldCount(|parts|))
      else
        var parsed := ParsedFields(parts);
        match CollectFields(parsed, parts, 0)
        case Failure(e) => Failure(e)
        case Success(fields) =>
          if (fields[3] == NoSpecificValue) == (fields[5] == NoSpecificValue) then Failure(DayFieldsConflict)
          else
            assert forall i :: 0 <= i < |fields| ==> FieldOk(FieldOrder[i], fields[i]) by {
              forall i | 0 <= i < |fields| ensures FieldOk(FieldOrder[i], fields[i]) {
                assert fields[i] == parsed[i].value;
              }
            }
            Success(Cron(fields))
  }

  /** parse(expression).validate(): tokenize, then parse the fields. A result is well formed. */
  function ParseCron(expression: Option<string>): (r: Result<Cron, CronError>)
    ensures r.Success? ==> WellFormed(r.value)
    ensures expression.None? ==> r == Failure(NullExpression)
  {
    match Tokenize(expression)
    case Failure(e) => Failure(e)
    case Success(parts) => ParseFields(parts)
  }

  /** The language the QUARTZ parser accepts. */
  predicate QuartzAccepts(expression: string) {
    ParseCron(Some(expression)).Success?
  }

  // ---------------------------------------------------------------------------
  // Rendering a schedule, and parsing it back
  // ---------------------------------------------------------------------------

  /** The characters of a rendered list of items. */
  predicate ItemChar(c: char) {
    IsDigit(c) || c == '*' || c == '-' || c == '/' || c == ','
  }

  /** The characters of a rendered field. */
  predicate FieldChar(c: char) {
    ItemChar(c) || c == '?' || c == 'L' || c == 'W' || c == '#'
  }

  function RenderRange(r: Range): (s: string)
    ensures |s| >= 1 && (IsDigit(s[0]) || s[0] == '*') && (IsDigit(s[|s| - 1]) || s[|s| - 1] == '*')
    ensures forall i :: 0 <= i < |s| ==> IsDigit(s[i]) || s[i] == '*' || s[i] == '-'
  {
    match r
    case Any => "*"
    case At(v) => NatToString(v)
    case Between(lo, hi) => NatToString(lo) + "-" + NatToString(hi)
  }

  function RenderItem(it: Item): (s: string)
    ensures |s| >= 1 && (IsDigit(s[0]) || s[0] == '*') && (IsDigit(s[|s| - 1]) || s[|s| - 1] == '*')
    ensures forall i :: 0 <= i < |s| ==> ItemChar(s[i]) && s[i] != ','
  {
    RenderRange(it.range) + (if it.step.Some? then "/" + NatToString(it.step.value) else "")
  }

  function RenderedItems(items: seq<Item>): (parts: seq<string>)
    ensures |parts| == |items| && forall i :: 0 <= i < |items| ==> parts[i] == RenderItem(items[i])
  {
    seq(|items|, i requires 0 <= i < |items| => RenderItem(items[i]))
  }

  /** The items joined with commas: it starts and ends with a digit or '*'. */
  function RenderItems(items: seq<Item>): (s: string)
    requires |items| >= 1
    ensures |s| >= 1 && (IsDigit(s[0]) || s[0] == '*') && (IsDigit(s[|s| - 1]) || s[|s| - 1] == '*')
    ensures forall i :: 0 <= i < |s| ==> ItemChar(s[i])
  {
    var parts := RenderedItems(items);
    JoinEnds(parts, ',');
    JoinAll(parts, ',', ItemChar);
    Join(parts, ',')
  }

  function RenderField(f: FieldExpr): (s: string)
    requires f.Items? ==> |f.items| >= 1
    ensures |s| >= 1 && !EndsWithComma(s)
    ensures forall i :: 0 <= i < |s| ==> FieldChar(s[i])
  {
    match f
    case Items(items) => RenderItems(items)
    case NoSpecificValue => "?"
    case Last => "L"
    case LastDayOffset(n) => "L-" + NatToString(n)
    case LastWeekday => "LW"
    case NearestWeekday(d) => NatToString(d) + "W"
    case LastOfMonth(d) => NatToString(d) + "L"
    case NthOfMonth(d, n) => NatToString(d) + "#" + NatToString(n)
  }

  function RenderedFields(c: Cron): (parts: seq<string>)
    requires WellFormed(c)
    ensures |parts| == |c.fields| && forall i :: 0 <= i < |parts| ==> parts[i] == RenderField(c.fields[i])
  {
    seq(|c.fields|, i requires 0 <= i < |c.fields| => RenderField(c.fields[i]))
  }

  /** The schedule written out in Quartz syntax: numerals, no names, single spaces. */
  function Render(c: Cron): string
    requires WellFormed(c)
  {
    Join(RenderedFields(c), ' ')
  }

  lemma NumeralFree(n: nat, c: char)
    requires !IsDigit(c)
    ensures c !in NatToString(n)
  {
  }

  lemma RangeRoundTrip(k: FieldKind, r: Range)
    requires RangeOk(k, r)
    ensures ParseRange(k, RenderRange(r)) == Some(r)
  {
    match r
    case Any =>
    case At(v) =>
      NumeralFree(v, '-');
    case Between(lo, hi) =>
      BetweenRoundTrip(k, lo, hi);
  }

  lemma BetweenRoundTrip(k: FieldKind, lo: nat, hi: nat)
    requires RangeOk(k, Between(lo, hi))
    ensures ParseRange(k, NatToString(lo) + "-" + NatToString(hi)) == Some(Between(lo, hi))
  {
    var a := NatToString(lo);
    var b := NatToString(hi);
    var s := a + "-" + b;
    NumeralFree(lo, '-');
    IndexOfAfter(a, '-', b);
    assert s != "*";
    assert s[..|a|] == a && s[|a| + 1..] == b;
    assert ParseValue(k, a) == Some(lo);
    assert ParseValue(k, b) == Some(hi);
  }

  lemma ItemRoundTrip(k: FieldKind, it: Item)
    requires ItemOk(k, it)
    ensures ParseItem(k, RenderItem(it)) == Some(it)
  {
    var a := RenderRange(it.range);
    RangeRoundTrip(k, it.range);
    assert '/' !in a;
    if it.step.Some? {
      var b := NatToString(it.step.value);
      var s := a + "/" + b;
      assert RenderItem(it) == s;
      IndexOfAfter(a, '/', b);
      StepRoundTrip(k, s, a, b, it);
    } else {
      assert RenderItem(it) == a;
    }
  }

  lemma StepRoundTrip(k: FieldKind, s: string, a: string, b: string, it: Item)
    requires s == a + "/" + b && IndexOf(s, '/') == |a|
    requires ParseRange(k, a) == Some(it.range)
    requires it.step.Some? && 1 <= it.step.value <= MaxValue(k) && b == NatToString(it.step.value)
    ensures ParseItem(k, s) == Some(it)
  {
    assert s[..|a|] == a && s[|a| + 1..] == b;
    assert ParseNumber(b) == Some(it.step.value);
  }

  lemma FieldRoundTrip(k: FieldKind, f: FieldExpr)
    requires FieldOk(k, f)
    ensures ParseField(k, RenderField(f)) == Some(f)
  {
    match f
    case Items(items) => ItemsRoundTrip(k, items);
    case NoSpecificValue =>
    case Last =>
    case LastDayOffset(n) => OffsetRoundTrip(n);
    case LastWeekday =>
    case NearestWeekday(d) => SuffixRoundTrip(DayOfMonth, d, 'W');
    case LastOfMonth(d) => SuffixRoundTrip(DayOfWeek, d, 'L');
    case NthOfMonth(d, n) => NthRoundTrip(d, n);
  }

  lemma ItemsRoundTrip(k: FieldKind, items: seq<Item>)
    requires FieldOk(k, Items(items))
    ensures ParseField(k, RenderItems(items)) == Some(Items(items))
  {
    var s := RenderItems(items);
    var parts := RenderedItems(items);
    ItemTextIsList(k, s);
    assert s == Join(parts, ',');
    SplitJoin(parts, ',');
    forall i | 0 <= i < |items| ensures ParseItem(k, parts[i]) == Some(items[i]) {
      ItemRoundTrip(k, items[i]);
    }
    assert ParseItemList(k, parts).value == items;
  }

  /** Text in the alphabet of item lists, starting and ending with a digit or '*', is parsed as a list. */
  lemma ItemTextIsList(k: FieldKind, s: string)
    requires |s| >= 1 && (IsDigit(s[0]) || s[0] == '*') && (IsDigit(s[|s| - 1]) || s[|s| - 1] == '*')
    requires forall i :: 0 <= i < |s| ==> ItemChar(s[i])
    ensures ParseItemList(k, Split(s, ',')).Some? ==> ParseField(k, s) == Some(Items(ParseItemList(k, Split(s, ',')).value))
  {
    assert s != "?" && s != "L" && s != "LW";
    assert !(|s| >= 2 && s[..2] == "L-");
    assert '#' !in s;
  }

  lemma OffsetRoundTrip(n: nat)
    requires 1 <= n <= 30
    ensures ParseField(DayOfMonth, "L-" + NatToString(n)) == Some(LastDayOffset(n))
  {
    var s := "L-" + NatToString(n);
    assert s != "?" && s != "L" && s != "LW";
    assert s[..2] == "L-" && s[2..] == NatToString(n);
  }

  lemma SuffixRoundTrip(k: FieldKind, d: nat, c: char)
    requires (k == DayOfMonth && c == 'W') || (k == DayOfWeek && c == 'L')
    requires InRange(k, d)
    ensures ParseField(k, NatToString(d) + [c]) == (if c == 'W' then Some(NearestWeekday(d)) else Some(LastOfMonth(d)))
  {
    var s := NatToString(d) + [c];
    assert s[0] == NatToString(d)[0];
    assert s != "?" && s != "L" && s != "LW";
    assert s[..|s| - 1] == NatToString(d);
    assert ParseValue(k, NatToString(d)) == Some(d);
  }

  lemma NthRoundTrip(d: nat, n: nat)
    requires InRange(DayOfWeek, d) && 1 <= n <= 5
    ensures ParseField(DayOfWeek, NatToString(d) + "#" + NatToString(n)) == Some(NthOfMonth(d, n))
  {
    var a := NatToString(d);
    var b := NatToString(n);
    var s := a + "#" + b;
    NumeralFree(d, '#');
    IndexOfAfter(a, '#', b);
    assert s[0] == a[0] && s[|s| - 1] == b[|b| - 1];
    assert s != "?" && s != "L";
    assert s[..|a|] == a && s[|a| + 1..] == b;
    assert ParseValue(DayOfWeek, a) == Some(d);
  }

  /** The rendered fields are what the tokenizer gives back. */
  lemma RenderTokens(c: Cron)
    requires WellFormed(c)
    ensures Tokenize(Some(Render(c))) == Success(RenderedFields(c))
  {
    var parts := RenderedFields(c);
    forall i, j | 0 <= i < |parts| && 0 <= j < |parts[i]|
      ensures parts[i][j] > ' ' && !('a' <= parts[i][j] <= 'z')
    {
      assert FieldChar(parts[i][j]);
    }
    TokenizeJoin(parts);
  }

  /** The rendered fields parse back to the schedule's fields. */
  lemma RenderFields(c: Cron)
    requires WellFormed(c)
    ensures ParseFields(RenderedFields(c)) == Success(c)
  {
    var parts := RenderedFields(c);
    forall j | 0 <= j < |parts| ensures ParseField(FieldOrder[j], parts[j]) == Some(c.fields[j]) {
      FieldRoundTrip(FieldOrder[j], c.fields[j]);
    }
    assert CommaField(parts).None?;
    var parsed := ParsedFields(parts);
    assert CollectFields(parsed, parts, 0).value == c.fields;
  }

  /** Rendering a well-formed schedule and parsing the text gives the schedule back. */
  lemma RenderRoundTrip(c: Cron)
    requires WellFormed(c)
    ensures ParseCron(Some(Render(c))) == Success(c)
  {
    RenderTokens(c);
    RenderFields(c);
  }

  /** A field as the tokenizer leaves it: non-empty, upper-case, free of spaces and not ending in ','. */
  predicate Token(p: string) {
    |p| >= 1 && !EndsWithComma(p) && forall j :: 0 <= j < |p| ==> p[j] > ' ' && !('a' <= p[j] <= 'z')
  }

  /**
   * Six or seven tokens separated by single spaces are parsed field by field: when each
   * token is a field at its position, the expression means the schedule of those fields if
   * exactly one day field is '?', and is refused for the day fields otherwise.
   */
  lemma ParsedFromFields(parts: seq<string>, fields: seq<FieldExpr>)
    requires (|parts| == 6 || |parts| == 7) && |fields| == |parts|
    requires forall i :: 0 <= i < |parts| ==> Token(parts[i])
    requires forall i :: 0 <= i < |parts| ==> ParseField(FieldOrder[i], parts[i]) == Some(fields[i])
    ensures ParseCron(Some(Join(parts, ' '))) ==
      if (fields[3] == NoSpecificValue) != (fields[5] == NoSpecificValue) then Success(Cron(fields))
      else Failure(DayFieldsConflict)
  {
    TokensJoin(parts);
    TokenizedParse(Join(parts, ' '), parts);
    TokensParse(parts, fields);
  }

  /** Once the expression tokenizes, parsing it is parsing its fields. */
  lemma TokenizedParse(expression: string, parts: seq<string>)
    requires Tokenize(Some(expression)) == Success(parts)
    ensures ParseCron(Some(expression)) == ParseFields(parts)
  {
  }

  /** One token that is no field of its position makes the whole expression invalid. */
  lemma RejectedField(parts: seq<string>, i: nat)
    requires (|parts| == 6 || |parts| == 7) && i < |parts|
    requires forall j :: 0 <= j < |parts| ==> Token(parts[j])
    requires ParseField(FieldOrder[i], parts[i]).None?
    ensures ParseCron(Some(Join(parts, ' '))).Failure?
  {
    var e := Join(parts, ' ');
    TokensJoin(parts);
    TokenizedParse(e, parts);
    TokensNoComma(parts);
    FieldsRejected(parts, i);
    assert ParseFields(parts).Failure?;
  }

  lemma TokensNoComma(parts: seq<string>)
    requires forall j :: 0 <= j < |parts| ==> Token(parts[j])
    ensures CommaField(parts).None?
  {
  }

  lemma FieldsRejected(parts: seq<string>, i: nat)
    requires (|parts| == 6 || |parts| == 7) && i < |parts|
    requires CommaField(parts).None?
    requires ParseField(FieldOrder[i], parts[i]).None?
    ensures ParseFields(parts).Failure?
  {
    var parsed := ParsedFields(parts);
    assert parsed[i].None?;
    var r := CollectFields(parsed, parts, 0);
    assert r.Failure?;
  }

  /** Tokens that are neither six nor seven: the field count is wrong. */
  lemma WrongCount(parts: seq<string>)
    requires |parts| >= 1 && |parts| != 6 && |parts| != 7
    requires forall i :: 0 <= i < |parts| ==> Token(parts[i])
    ensures ParseCron(Some(Join(parts, ' '))) == Failure(WrongFieldCount(|parts|))
  {
    TokensJoin(parts);
    TokenizedParse(Join(parts, ' '), parts);
    TokensNoComma(parts);
  }

  /** A single word, in either case and not ending in ',', is one field: the count is wrong. */
  lemma OneWord(s: string)
    requires |s| >= 1 && s[|s| - 1] != ',' && forall i :: 0 <= i < |s| ==> s[i] > ' '
    ensures ParseCron(Some(s)) == Failure(WrongFieldCount(1))
  {
    OneWordTokens(s);
    UpperNoComma(s);
    CountRejected([ToUpperAscii(s)]);
  }

  lemma UpperNoComma(s: string)
    requires |s| >= 1 && s[|s| - 1] != ','
    ensures !EndsWithComma(ToUpperAscii(s))
  {
    var u := ToUpperAscii(s);
    assert u[|u| - 1] == UpperAscii(s[|s| - 1]);
  }

  /** Neither six nor seven fields, none ending in ',': the count is wrong. */
  lemma CountRejected(parts: seq<string>)
    requires |parts| != 6 && |parts| != 7
    requires forall i :: 0 <= i < |parts| ==> !EndsWithComma(parts[i])
    ensures ParseFields(parts) == Failure(WrongFieldCount(|parts|))
  {
  }

  lemma OneWordTokens(s: string)
    requires |s| >= 1 && forall i :: 0 <= i < |s| ==> s[i] > ' '
    ensures Tokenize(Some(s)) == Success([ToUpperAscii(s)])
  {
    NormaliseWord(s);
    UpperNoSpace(s);
  }

  lemma NormaliseWord(s: string)
    requires |s| >= 1 && forall i :: 0 <= i < |s| ==> s[i] > ' '
    ensures Normalise(s) == s
  {
    assert Join([s], ' ') == s;
    NormaliseJoin([s]);
  }

  lemma UpperNoSpace(s: string)
    requires forall i :: 0 <= i < |s| ==> s[i] > ' '
    ensures ' ' !in ToUpperAscii(s)
  {
    var u := ToUpperAscii(s);
    forall i | 0 <= i < |u| ensures u[i] != ' ' {
      assert u[i] == UpperAscii(s[i]);
    }
  }

  lemma TokensJoin(parts: seq<string>)
    requires |parts| >= 1 && forall i :: 0 <= i < |parts| ==> Token(parts[i])
    ensures Tokenize(Some(Join(parts, ' '))) == Success(parts)
  {
    forall i, j | 0 <= i < |parts| && 0 <= j < |parts[i]|
      ensures parts[i][j] > ' ' && !('a' <= parts[i][j] <= 'z')
    {
      assert Token(parts[i]);
    }
    TokenizeJoin(parts);
  }

  lemma TokensParse(parts: seq<string>, fields: seq<FieldExpr>)
    requires (|parts| == 6 || |parts| == 7) && |fields| == |parts|
    requires forall i :: 0 <= i < |parts| ==> Token(parts[i])
    requires forall i :: 0 <= i < |parts| ==> ParseField(FieldOrder[i], parts[i]) == Some(fields[i])
    ensures ParseFields(parts) ==
      if (fields[3] == NoSpecificValue) != (fields[5] == NoSpecificValue) then Success(Cron(fields))
      else Failure(DayFieldsConflict)
  {
    assert CommaField(parts).None?;
    var parsed := ParsedFields(parts);
    var r := CollectFields(parsed, parts, 0);
    assert r.Success?;
    assert r.value == fields;
  }

  /**
   * The parser ignores extra whitespace: fields separated by any runs of \s characters, with
   * any runs before and after, are parsed exactly as the fields separated by single spaces.
   */
  lemma WhitespaceInsensitive(lead: string, parts: seq<string>, gaps: seq<string>, trail: string)
    requires |parts| >= 1 && |gaps| == |parts| - 1
    requires forall i :: 0 <= i < |parts| ==> |parts[i]| >= 1 && NoBlank(parts[i])
    requires forall i :: 0 <= i < |gaps| ==> |gaps[i]| >= 1 && SpaceRun(gaps[i])
    requires SpaceRun(lead) && SpaceRun(trail)
    ensures ParseCron(Some(lead + Spaced(parts, gaps) + trail)) == ParseCron(Some(Join(parts, ' ')))
  {
    NormaliseSpaced(lead, parts, gaps, trail);
    NormaliseJoin(parts);
  }

  /** Every accepted expression means a schedule, and that schedule's rendering is accepted as the same one. */
  lemma AcceptedHasCanonicalForm(expression: string)
    requires QuartzAccepts(expression)
    ensures WellFormed(ParseCron(Some(expression)).value)
    ensures ParseCron(Some(Render(ParseCron(Some(expression)).value))) == ParseCron(Some(expression))
  {
    RenderRoundTrip(ParseCron(Some(expression)).value);
  }

  // ---------------------------------------------------------------------------
  // Blank text is never a field, so never a cron expression
  // ---------------------------------------------------------------------------

  lemma BlankValue(k: FieldKind, s: string)
    requires IsBlank(s)
    ensures ParseValue(k, s).None?
  {
    if |s| >= 1 {
      assert !IsDigit(s[0]);
    }
  }

  lemma BlankItem(k: FieldKind, s: string)
    requires IsBlank(s)
    ensures ParseItem(k, s).None?
  {
    BlankValue(k, s);
  }

  lemma BlankField(k: FieldKind, s: string)
    requires IsBlank(s)
    ensures ParseField(k, s).None?
  {
    if |s| >= 1 {
      assert IsWhitespace(s[0]) && IsWhitespace(s[|s| - 1]);
    }
    var parts := Split(s, ',');
    assert IsBlank(parts[0]) by {
      forall j | 0 <= j < |parts[0]| ensures IsWhitespace(parts[0][j]) {
        assert parts[0][j] in s;
      }
    }
    BlankItem(k, parts[0]);
  }

  lemma NormaliseBlank(s: string)
    requires IsBlank(s)
    ensures IsBlank(Normalise(s))
  {
    var n := Normalise(s);
    forall j | 0 <= j < |n| ensures IsWhitespace(n[j]) {
      assert n[j] in n;
    }
  }

  lemma UpperBlank(s: string)
    requires IsBlank(s)
    ensures IsBlank(ToUpperAscii(s))
  {
  }

  /** Tokens whose first is blank never parse. */
  lemma BlankFirstField(parts: seq<string>)
    requires |parts| >= 1 && IsBlank(parts[0])
    ensures ParseFields(parts).Failure?
  {
    BlankField(Second, parts[0]);
    if |parts| == 6 || |parts| == 7 {
      assert ParsedFields(parts)[0].None?;
    }
  }

  /** Text of whitespace only is rejected, whatever the guard in front of the parser. */
  lemma BlankRejected(s: string)
    requires IsBlank(s)
    ensures !QuartzAccepts(s)
  {
    var n := Normalise(s);
    if n != [] {
      var u := ToUpperAscii(n);
      NormaliseBlank(s);
      UpperBlank(n);
      var parts := JavaSplit(u, ' ');
      assert Tokenize(Some(s)) == Success(parts);
      if |parts| >= 1 {
        var p := parts[0];
        assert IsBlank(p) by {
          forall j | 0 <= j < |p| ensures IsWhitespace(p[j]) {
            assert p[j] in u;
          }
        }
        BlankFirstField(parts);
      }
    }
  }
}
