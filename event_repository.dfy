/**
 * EventRepositoryImpl.findByFilters: the filter's criteria become zero or more query
 * clauses, ANDed, and the store returns the events that satisfy all of them.
 * The store is an in-memory sequence of events; mongoTemplate.find is a scan over it.
 */
module EventRepository {
  import opened Wrappers
  import opened Strings
  import opened Time
  import opened Events
  import opened Dto

  // ---------------------------------------------------------------------------
  // Query clauses and their meaning on one event
  // ---------------------------------------------------------------------------

  /** One Criteria added to the Query. */
  datatype Clause =
    | DaysOfWeekIn(weekday: string)          // where("daysOfWeek").in(weekday)
    | MonthsIn(months: seq<int>)             // where("months").in(list)
    | StartBetween(from: Instant, to: Instant) // where("start").gte(from).lte(to)
    | StartFrom(from: Instant)               // where("start").gte(from)
    | StartUntil(to: Instant)                // where("start").lte(to)
    | TagIs(tag: string)                     // where("tags").is(tag)
    | TitleMatches(text: string)             // where("title").regex(".*" + quote(text) + ".*", "i")
    | DateWindow(startFrom: Option<Instant>, endUntil: Option<Instant>) // and("start").gte(..).and("end").lte(..)

  /**
   * A clause on one event, as the document store evaluates it: `in` on an array field asks
   * for a common element, `is` on an array field for membership, the quoted regex with
   * flag "i" for a case-insensitive literal substring.
   */
  predicate Holds(c: Clause, e: Event) {
    match c
    case DaysOfWeekIn(w) => w in e.daysOfWeek
    case MonthsIn(ms) => exists m :: m in ms && m in e.months
    case StartBetween(from, to) => from <= e.start <= to
    case StartFrom(from) => from <= e.start
    case StartUntil(to) => e.start <= to
    case TagIs(t) => t in e.tags
    case TitleMatches(text) => ContainsIgnoreCase(e.title, text)
    case DateWindow(from, to) => (from.Some? ==> from.value <= e.start) && (to.Some? ==> e.end <= to.value)
  }

  /** The AND of the query's clauses; the empty query matches everything. */
  predicate Matches(query: seq<Clause>, e: Event) {
    forall i :: 0 <= i < |query| ==> Holds(query[i], e)
  }

  lemma MatchesAppend(query: seq<Clause>, c: Clause, e: Event)
    ensures Matches(query + [c], e) <==> Matches(query, e) && Holds(c, e)
  {
    if Matches(query, e) && Holds(c, e) {
      forall i | 0 <= i < |query + [c]|
        ensures Holds((query + [c])[i], e)
      {
        if i < |query| {
          assert (query + [c])[i] == query[i];
        }
      }
    }
    if Matches(query + [c], e) {
      assert (query + [c])[|query|] == c;
      forall i | 0 <= i < |query|
        ensures Holds(query[i], e)
      {
        assert (query + [c])[i] == query[i];
      }
    }
  }

  // ---------------------------------------------------------------------------
  // Scanning the store
  // ---------------------------------------------------------------------------

  /** The events of the store that keep selects, in store order. */
  function Filter(store: seq<Event>, keep: Event -> bool): (r: seq<Event>)
    ensures |r| <= |store|
    ensures forall e :: e in r <==> e in store && keep(e)
    ensures multiset(r) <= multiset(store)
  {
    if |store| == 0 then []
    else
      var init := store[..|store| - 1];
      var last := store[|store| - 1];
      assert store == init + [last];
      var rest := Filter(init, keep);
      if keep(last) then rest + [last] else rest
  }

  /** Two selections that agree on every stored event give the same result. */
  lemma {:induction false} FilterAgrees(store: seq<Event>, p: Event -> bool, q: Event -> bool)
    requires forall e :: e in store ==> p(e) == q(e)
    ensures Filter(store, p) == Filter(store, q)
    decreases |store|
  {
    if |store| > 0 {
      var init := store[..|store| - 1];
      assert forall e :: e in init ==> e in store;
      FilterAgrees(init, p, q);
    }
  }

  /** A stricter selection keeps a sub-multiset, never more. */
  lemma {:induction false} FilterNarrows(store: seq<Event>, p: Event -> bool, q: Event -> bool)
    requires forall e :: e in store && p(e) ==> q(e)
    ensures multiset(Filter(store, p)) <= multiset(Filter(store, q))
    ensures |Filter(store, p)| <= |Filter(store, q)|
    decreases |store|
  {
    if |store| > 0 {
      var init := store[..|store| - 1];
      assert forall e :: e in init ==> e in store;
      FilterNarrows(init, p, q);
    }
  }

  /** A selection that keeps every stored event returns the store itself. */
  lemma {:induction false} FilterAll(store: seq<Event>, p: Event -> bool)
    requires forall e :: e in store ==> p(e)
    ensures Filter(store, p) == store
    decreases |store|
  {
    if |store| > 0 {
      var init := store[..|store| - 1];
      var last := store[|store| - 1];
      assert store == init + [last];
      assert p(last);
      FilterAll(init, p);
    }
  }

  /** The events of the store that match the query. */
  function Select(store: seq<Event>, query: seq<Clause>): seq<Event> {
    Filter(store, (e: Event) => Matches(query, e))
  }

  /** mongoTemplate.find(query, Event.class) over the in-memory store. */
  method Find(store: seq<Event>, query: seq<Clause>) returns (found: seq<Event>)
    ensures found == Select(store, query)
  {
    found := [];
    var i := 0;
    while i < |store|
      invariant 0 <= i <= |store|
      invariant found == Select(store[..i], query)
    {
      assert store[..i + 1][..i] == store[..i];
      if Matches(query, store[i]) {
        found := found + [store[i]];
      }
      i := i + 1;
    }
    assert store[..|store|] == store;
  }

  // ---------------------------------------------------------------------------
  // The reference: what each criterion asks of an event
  // ---------------------------------------------------------------------------

  /** A weekday filter that is null or empty asks nothing; otherwise daysOfWeek holds the whole text. */
  predicate WeekdayOk(weekday: Option<string>, e: Event) {
    weekday.None? || weekday.value == "" || weekday.value in e.daysOfWeek
  }

  /** A month list that is null or empty asks nothing; otherwise months shares a value with it. */
  predicate MonthOk(month: Option<seq<int>>, e: Event) {
    month.None? || month.value == [] || exists m :: m in month.value && m in e.months
  }

  /** from and to bound start, inclusively, each when present. */
  predicate TimeWindowOk(from: Option<Instant>, to: Option<Instant>, e: Event) {
    (from.Some? ==> from.value <= e.start) && (to.Some? ==> e.start <= to.value)
  }

  /** A tag that is null or blank asks nothing; otherwise tags contains it exactly. */
  predicate TagOk(tag: Option<string>, e: Event) {
    tag.None? || IsBlank(tag.value) || tag.value in e.tags
  }

  /** Title text that is null or blank asks nothing; otherwise the title contains it, ASCII case ignored. */
  predicate TitleOk(text: Option<string>, e: Event) {
    text.None? || IsBlank(text.value) || ContainsIgnoreCase(e.title, text.value)
  }

  /**
   * dateFrom: start no earlier than that day's UTC midnight; dateTo: end no later than one
   * whole day after that day's UTC midnight, that instant included.
   */
  predicate DateWindowOk(dateFrom: Option<LocalDate>, dateTo: Option<LocalDate>, e: Event) {
    && (dateFrom.Some? ==> AtStartOfDayUtc(dateFrom.value) <= e.start)
    && (dateTo.Some? ==> e.end <= AtStartOfDayUtc(dateTo.value) + SecondsPerDay * NanosPerSecond)
  }

  /** Every criterion at once. */
  predicate Satisfies(c: Criteria, e: Event) {
    && WeekdayOk(c.weekday, e)
    && MonthOk(c.month, e)
    && TimeWindowOk(c.from, c.to, e)
    && TagOk(c.tag, e)
    && TitleOk(c.titleContains, e)
    && DateWindowOk(c.dateFrom, c.dateTo, e)
  }

  /** The stored events that satisfy the criteria, in store order. */
  function Where(store: seq<Event>, c: Criteria): seq<Event> {
    Filter(store, (e: Event) => Satisfies(c, e))
  }

  /** What findByFilters throws: LocalDate.plusDays(1) past the last representable date. */
  datatype QueryError = DateOutOfRange(date: LocalDate)

  // ---------------------------------------------------------------------------
  // findByFilters
  // ---------------------------------------------------------------------------

  // One lemma per addCriteria step: what the query gained, seen from one event.

  lemma WeekdayStep(q: seq<Clause>, q': seq<Clause>, weekday: Option<string>, e: Event)
    requires q' == if weekday.Some? && weekday.value != "" then q + [DaysOfWeekIn(weekday.value)] else q
    ensures Matches(q', e) <==> Matches(q, e) && WeekdayOk(weekday, e)
  {
    if q' != q {
      MatchesAppend(q, DaysOfWeekIn(weekday.value), e);
    }
  }

  lemma MonthStep(q: seq<Clause>, q': seq<Clause>, month: Option<seq<int>>, e: Event)
    requires q' == if month.Some? && month.value != [] then q + [MonthsIn(month.value)] else q
    ensures Matches(q', e) <==> Matches(q, e) && MonthOk(month, e)
  {
    if q' != q {
      MatchesAppend(q, MonthsIn(month.value), e);
    }
  }

  lemma TimeWindowStep(q: seq<Clause>, q': seq<Clause>, from: Option<Instant>, to: Option<Instant>, e: Event)
    requires q' == if from.Some? && to.Some? then q + [StartBetween(from.value, to.value)]
                   else if from.Some? then q + [StartFrom(from.value)]
                   else if to.Some? then q + [StartUntil(to.value)]
                   else q
    ensures Matches(q', e) <==> Matches(q, e) && TimeWindowOk(from, to, e)
  {
    if q' != q {
      MatchesAppend(q, q'[|q'| - 1], e);
      assert q' == q + [q'[|q'| - 1]];
    }
  }

  lemma TagStep(q: seq<Clause>, q': seq<Clause>, tag: Option<string>, e: Event)
    requires q' == if tag.Some? && !IsBlank(tag.value) then q + [TagIs(tag.value)] else q
    ensures Matches(q', e) <==> Matches(q, e) && TagOk(tag, e)
  {
    if q' != q {
      MatchesAppend(q, TagIs(tag.value), e);
    }
  }

  lemma TitleStep(q: seq<Clause>, q': seq<Clause>, text: Option<string>, e: Event)
    requires q' == if text.Some? && !IsBlank(text.value) then q + [TitleMatches(text.value)] else q
    ensures Matches(q', e) <==> Matches(q, e) && TitleOk(text, e)
  {
    if q' != q {
      MatchesAppend(q, TitleMatches(text.value), e);
    }
  }

  lemma DateStep(q: seq<Clause>, q': seq<Clause>, date: Option<Clause>, dateOk: bool, e: Event)
    requires q' == if date.Some? then q + [date.value] else q
    requires date.Some? ==> (Holds(date.value, e) <==> dateOk)
    requires date.None? ==> dateOk
    ensures Matches(q', e) <==> Matches(q, e) && dateOk
  {
    if date.Some? {
      MatchesAppend(q, date.value, e);
    }
  }

  /**
   * The date Criteria of findByFilters: start from the UTC midnight of dateFrom, end up to
   * the UTC midnight after dateTo, absent when neither date is given. It fails only when
   * dateTo has no next day.
   */
  method DateCriteria(filter: FilterDto) returns (r: Result<Option<Clause>, QueryError>)
    ensures r.Failure? <==> filter.dateTo == Some(Date(MaxYear, 12, 31))
    ensures r.Success? ==> (r.value.None? <==> filter.dateFrom.None? && filter.dateTo.None?)
    ensures r.Success? && r.value.Some? ==> forall e :: Holds(r.value.value, e) <==> DateWindowOk(filter.dateFrom, filter.dateTo, e)
    ensures r.Success? && r.value.None? ==> forall e :: DateWindowOk(filter.dateFrom, filter.dateTo, e)
  {
    var startFrom: Option<Instant> := None;
    var endUntil: Option<Instant> := None;
    var hasDateCriteria := false;
    if filter.dateFrom.Some? {
      startFrom := Some(AtStartOfDayUtc(filter.dateFrom.value));
      hasDateCriteria := true;
    }
    if filter.dateTo.Some? {
      var next := NextDay(filter.dateTo.value);
      if next.None? {
        return Failure(DateOutOfRange(filter.dateTo.value));
      }
      StartOfNextDay(filter.dateTo.value);
      endUntil := Some(AtStartOfDayUtc(next.value));
      hasDateCriteria := true;
    }
    if hasDateCriteria {
      return Success(Some(DateWindow(startFrom, endUntil)));
    }
    return Success(None);
  }

  /** The criteria findByFilters tests before the date ones: all but dateFrom and dateTo. */
  predicate SatisfiesBase(c: Criteria, e: Event) {
    && WeekdayOk(c.weekday, e)
    && MonthOk(c.month, e)
    && TimeWindowOk(c.from, c.to, e)
    && TagOk(c.tag, e)
    && TitleOk(c.titleContains, e)
  }

  /**
   * The first five addCriteria steps of findByFilters: one clause per present, non-empty
   * criterion, in the order the source adds them; the query means exactly those criteria.
   */
  method BaseQuery(filter: FilterDto) returns (query: seq<Clause>)
    ensures forall e :: Matches(query, e) <==> SatisfiesBase(filter.Snapshot(), e)
  {
    ghost var c := filter.Snapshot();
    query := [];

    if filter.weekday.Some? && filter.weekday.value != "" {
      query := query + [DaysOfWeekIn(filter.weekday.value)];
    }
    ghost var q1 := query;

    if filter.month.Some? && filter.month.value != [] {
      query := query + [MonthsIn(filter.month.value)];
    }
    ghost var q2 := query;

    if filter.from.Some? && filter.to.Some? {
      query := query + [StartBetween(filter.from.value, filter.to.value)];
    } else if filter.from.Some? {
      query := query + [StartFrom(filter.from.value)];
    } else if filter.to.Some? {
      query := query + [StartUntil(filter.to.value)];
    }
    ghost var q3 := query;

    if filter.tag.Some? && !IsBlank(filter.tag.value) {
      query := query + [TagIs(filter.tag.value)];
    }
    ghost var q4 := query;

    if filter.titleContains.Some? && !IsBlank(filter.titleContains.value) {
      query := query + [TitleMatches(filter.titleContains.value)];
    }

    forall e
      ensures Matches(query, e) <==> SatisfiesBase(c, e)
    {
      WeekdayStep([], q1, c.weekday, e);
      MonthStep(q1, q2, c.month, e);
      TimeWindowStep(q2, q3, c.from, c.to, e);
      TagStep(q3, q4, c.tag, e);
      TitleStep(q4, query, c.titleContains, e);
    }
  }

  /**
   * The Query findByFilters builds: the base clauses, then the date Criteria when one was
   * built. It fails only when dateTo is the last date LocalDate can hold, and otherwise the
   * query means exactly the criteria.
   */
  method ComposeQuery(filter: FilterDto) returns (r: Result<seq<Clause>, QueryError>)
    ensures r.Failure? <==> filter.dateTo == Some(Date(MaxYear, 12, 31))
    ensures r.Success? ==> forall e :: Matches(r.value, e) <==> Satisfies(filter.Snapshot(), e)
  {
    var query := BaseQuery(filter);
    ghost var base := query;
    var date := DateCriteria(filter);
    if date.Failure? {
      return Failure(date.error);
    }
    if date.value.Some? {
      query := query + [date.value.value];
    }
    forall e
      ensures Matches(query, e) <==> Satisfies(filter.Snapshot(), e)
    {
      DateStep(base, query, date.value, DateWindowOk(filter.dateFrom, filter.dateTo, e), e);
    }
    return Success(query);
  }

  /**
   * findByFilters: the composed query, then a scan. It fails only when dateTo is the last
   * date LocalDate can hold, and otherwise returns exactly the stored events that satisfy
   * every criterion, in store order.
   */
  method FindByFilters(filter: FilterDto, store: seq<Event>) returns (r: Result<seq<Event>, QueryError>)
    ensures r.Failure? <==> filter.dateTo == Some(Date(MaxYear, 12, 31))
    ensures r.Success? ==> r.value == Where(store, filter.Snapshot())
  {
    var composed := ComposeQuery(filter);
    if composed.Failure? {
      return Failure(composed.error);
    }
    var query := composed.value;
    var found := Find(store, query);
    ghost var c := filter.Snapshot();
    FilterAgrees(store, (e: Event) => Matches(query, e), (e: Event) => Satisfies(c, e));
    return Success(found);
  }

  // ---------------------------------------------------------------------------
  // Properties of the composed query
  // ---------------------------------------------------------------------------

  /** Criteria that ask nothing: every field null, empty or blank as the composer tests it. */
  predicate Unconstrained(c: Criteria) {
    && (c.weekday.None? || c.weekday.value == "")
    && (c.month.None? || c.month.value == [])
    && c.from.None? && c.to.None?
    && (c.tag.None? || IsBlank(c.tag.value))
    && (c.titleContains.None? || IsBlank(c.titleContains.value))
    && c.dateFrom.None? && c.dateTo.None?
  }

  /** With nothing asked, every stored event comes back, in store order. */
  lemma UnconstrainedReturnsStore(store: seq<Event>, c: Criteria)
    requires Unconstrained(c)
    ensures Where(store, c) == store
  {
    FilterAll(store, (e: Event) => Satisfies(c, e));
  }

  /** The result holds exactly the stored events that satisfy every criterion. */
  lemma WhereMembers(store: seq<Event>, c: Criteria, e: Event)
    ensures e in Where(store, c) <==> e in store && Satisfies(c, e)
  {
  }

  /** The result is empty, not an error, exactly when no stored event satisfies the criteria. */
  lemma EmptyIffNoMatch(store: seq<Event>, c: Criteria)
    ensures Where(store, c) == [] <==> forall e :: e in store ==> !Satisfies(c, e)
  {
    if Where(store, c) != [] {
      assert Where(store, c)[0] in Where(store, c);
    }
  }

  /** c2 sets every criterion c1 sets, to the same value, and possibly more. */
  predicate Extends(c2: Criteria, c1: Criteria) {
    && (c1.weekday.Some? ==> c2.weekday == c1.weekday)
    && (c1.month.Some? ==> c2.month == c1.month)
    && (c1.from.Some? ==> c2.from == c1.from)
    && (c1.to.Some? ==> c2.to == c1.to)
    && (c1.tag.Some? ==> c2.tag == c1.tag)
    && (c1.titleContains.Some? ==> c2.titleContains == c1.titleContains)
    && (c1.dateFrom.Some? ==> c2.dateFrom == c1.dateFrom)
    && (c1.dateTo.Some? ==> c2.dateTo == c1.dateTo)
  }

  /** Supplying extra criteria never enlarges the result. */
  lemma ExtraCriteriaNarrow(store: seq<Event>, c1: Criteria, c2: Criteria)
    requires Extends(c2, c1)
    ensures multiset(Where(store, c2)) <= multiset(Where(store, c1))
    ensures |Where(store, c2)| <= |Where(store, c1)|
  {
    FilterNarrows(store, (e: Event) => Satisfies(c2, e), (e: Event) => Satisfies(c1, e));
  }

  /** dateTo takes in the whole day: an end on or before the next midnight, that midnight included. */
  lemma DateToCoversDay(d: LocalDate, e: Event)
    requires NextDay(d).Some?
    ensures DateWindowOk(None, Some(d), e) <==> e.end <= AtStartOfDayUtc(NextDay(d).value)
    ensures e.end == AtStartOfDayUtc(NextDay(d).value) ==> DateWindowOk(None, Some(d), e)
  {
    StartOfNextDay(d);
  }

  /** The weekday text is one value: "MONDAY,TUESDAY" does not match an event on MONDAY and TUESDAY. */
  lemma WeekdayIsOneValue(e: Event)
    requires e.daysOfWeek == ["MONDAY", "TUESDAY"]
    ensures !WeekdayOk(Some("MONDAY,TUESDAY"), e)
    ensures WeekdayOk(Some("MONDAY"), e)
  {
    assert "MONDAY,TUESDAY" != "MONDAY" by {
      assert |"MONDAY,TUESDAY"| != |"MONDAY"|;
    }
    assert "MONDAY,TUESDAY" != "TUESDAY" by {
      assert |"MONDAY,TUESDAY"| != |"TUESDAY"|;
    }
  }

  /** The title filter ignores ASCII case: "meeting" is found in "Team Meeting". */
  lemma TitleIgnoresCase(e: Event)
    requires e.title == "Team Meeting"
    ensures TitleOk(Some("meeting"), e)
  {
    assert !IsWhitespace("meeting"[0]);
    assert e.title[5..12] == "Meeting";
    assert EqualsIgnoreCase("Meeting", "meeting");
    assert OccursAt(e.title, "meeting", 5);
  }

  /**
   * The month clause is a set intersection: a non-empty month list matches an event exactly
   * when the months the two have in common form a non-empty set, whatever their order or
   * repetitions, and the clause itself holds exactly then.
   */
  lemma MonthsShareOne(ms: seq<int>, e: Event)
    requires ms != []
    ensures MonthOk(Some(ms), e) <==> (set m | m in ms && m in e.months) != {}
    ensures Holds(MonthsIn(ms), e) <==> (set m | m in ms && m in e.months) != {}
  {
    var common := set m | m in ms && m in e.months;
    if MonthOk(Some(ms), e) {
      var m :| m in ms && m in e.months;
      assert m in common;
    } else {
      assert forall m :: m !in common;
      assert common == {};
    }
  }

  /** Quarterly months [1, 4, 7, 10] match the list [2, 4] through April, and not [2, 3]. */
  lemma MonthsQuarterly(e: Event)
    requires e.months == [1, 4, 7, 10]
    ensures MonthOk(Some([2, 4]), e)
    ensures !MonthOk(Some([2, 3]), e)
  {
    assert 4 in [2, 4] && 4 in e.months;
  }
}
