/**
 * EventController: the REST entry points that write events (create, update, batch create)
 * and the search entry point. Writes of single events pass the cron gate first; the event
 * service behind the controller is a collaborator whose calls are recorded in a ghost log,
 * so the contracts can say which calls were made, with which arguments, and what came back.
 */
module Controller {
  import opened Wrappers
  import opened Strings
  import opened CronParser
  import opened ValidCron
  import opened Events
  import opened Dto

  // ---------------------------------------------------------------------------
  // The cron gate
  // ---------------------------------------------------------------------------

  /** ResponseStatusException: the HTTP status and the reason text. */
  datatype HttpError = HttpError(status: nat, reason: string)

  const BadRequest: nat := 400

  /** The start of the reason validateCron gives. */
  const InvalidCronReason: string := "Ungültiges Cron-Pattern: "

  /** A possibly-null string as Java's string concatenation prints it: null is "null". */
  function JavaText(s: Option<string>): (t: string)
    ensures s.Some? ==> t == s.value
    ensures s.None? ==> t == "null"
  {
    if s.None? then "null" else s.value
  }

  /**
   * validateCron: parse(pattern).validate() under a catch-all. Every exception, the null
   * pattern's included, becomes 400 with the pattern in the reason.
   */
  function ValidateCron(pattern: Option<string>): (r: Outcome<HttpError>)
    ensures r.Pass? <==> IsValid(pattern)
    ensures r.Fail? ==> r.error.status == BadRequest && r.error.reason == InvalidCronReason + JavaText(pattern)
  {
    match ParseCron(pattern)
    case Success(_) => Pass
    case Failure(_) => Fail(HttpError(BadRequest, InvalidCronReason + JavaText(pattern)))
  }

  /** A null cron is refused, and the reason ends in "null". */
  lemma ValidateNull()
    ensures ValidateCron(None) == Fail(HttpError(400, "Ungültiges Cron-Pattern: null"))
  {
    assert InvalidCronReason + "null" == "Ungültiges Cron-Pattern: null";
  }

  /** The controller tests' valid expression "0 0 * * * ?" passes. */
  lemma ValidateHourly()
    ensures ValidateCron(Some("0 0 * * * ?")).Pass?
  {
    AcceptsHourly();
  }

  /** A single word not ending in ',' is one field, so it is refused with the word in the reason. */
  lemma ValidateOneWord(word: string)
    requires |word| >= 1 && word[|word| - 1] != ','
    requires forall i :: 0 <= i < |word| ==> word[i] > ' '
    ensures ValidateCron(Some(word)) == Fail(HttpError(BadRequest, InvalidCronReason + word))
  {
    OneWord(word);
  }

  /** The controller tests' invalid expression "invalid-cron" is refused. */
  lemma ValidateInvalidWord()
    ensures ValidateCron(Some("invalid-cron")).Fail?
  {
    ValidateOneWord("invalid-cron");
  }

  // ---------------------------------------------------------------------------
  // The collaborators
  // ---------------------------------------------------------------------------

  /** The request body of create and update: an event object the controller may change. */
  class EventBody {
    var event: Event

    constructor(event: Event)
      ensures this.event == event
    {
      this.event := event;
    }

    /** Event.setId. */
    method SetId(id: string)
      modifies this
      ensures event == old(event).(id := Some(id))
    {
      event := event.(id := Some(id));
    }
  }

  /** One call into the event service: its argument and what it returned. */
  datatype ServiceCall =
    | Created(event: Event, saved: Event)
    | Updated(event: Event, saved: Event)
    | SavedAll(events: seq<Event>, savedAll: seq<Event>)
    | Listed(filter: Criteria, found: seq<Event>)

  /**
   * The event service as the controller sees it. What it stores and returns is outside this
   * model: the contracts speak only of the call log, so any result is allowed.
   */
  class EventService {
    ghost var calls: seq<ServiceCall>

    constructor()
      ensures calls == []
    {
      calls := [];
    }

    method CreateEvent(event: Event) returns (saved: Event)
      modifies this
      ensures calls == old(calls) + [Created(event, saved)]
    {
      saved := event;
      calls := calls + [Created(event, saved)];
    }

    method UpdateEvent(event: Event) returns (saved: Event)
      modifies this
      ensures calls == old(calls) + [Updated(event, saved)]
    {
      saved := event;
      calls := calls + [Updated(event, saved)];
    }

    method SaveAll(events: seq<Event>) returns (saved: seq<Event>)
      modifies this
      ensures calls == old(calls) + [SavedAll(events, saved)]
    {
      saved := events;
      calls := calls + [SavedAll(events, saved)];
    }

    method ListEvents(filter: FilterDto) returns (found: seq<Event>)
      modifies this
      ensures calls == old(calls) + [Listed(filter.Snapshot(), found)]
    {
      found := [];
      calls := calls + [Listed(filter.Snapshot(), found)];
    }
  }

  /** Every single-event write the service has seen carried a valid cron. */
  ghost predicate GateHeld(calls: seq<ServiceCall>) {
    forall i :: 0 <= i < |calls| && (calls[i].Created? || calls[i].Updated?) ==> IsValid(calls[i].event.cron)
  }

  /** A call that is no single-event write, or one with a valid cron, keeps GateHeld. */
  lemma GateHeldAppend(calls: seq<ServiceCall>, call: ServiceCall)
    requires GateHeld(calls)
    requires (call.Created? || call.Updated?) ==> IsValid(call.event.cron)
    ensures GateHeld(calls + [call])
  {
    var all := calls + [call];
    forall i | 0 <= i < |all| && (all[i].Created? || all[i].Updated?)
      ensures IsValid(all[i].event.cron)
    {
      if i < |calls| {
        assert all[i] == calls[i];
      }
    }
  }

  // ---------------------------------------------------------------------------
  // The controller
  // ---------------------------------------------------------------------------

  class EventController {
    const service: EventService

    constructor(service: EventService)
      ensures this.service == service
    {
      this.service := service;
    }

    /**
     * create: the cron gate, then the service with the event as it came. A refused cron
     * means no service call; GateHeld survives either way.
     */
    method Create(body: EventBody) returns (r: Result<Event, HttpError>)
      modifies service
      ensures ValidateCron(body.event.cron).Fail? ==>
        r == Failure(ValidateCron(body.event.cron).error) && service.calls == old(service.calls)
      ensures ValidateCron(body.event.cron).Pass? ==>
        r.Success? && service.calls == old(service.calls) + [Created(body.event, r.value)]
      ensures GateHeld(old(service.calls)) ==> GateHeld(service.calls)
    {
      var gate := ValidateCron(body.event.cron);
      if gate.Fail? {
        return Failure(gate.error);
      }
      ghost var before := service.calls;
      var saved := service.CreateEvent(body.event);
      if GateHeld(before) {
        GateHeldAppend(before, Created(body.event, saved));
      }
      r := Success(saved);
    }

    /**
     * update: the cron gate first; only then is the path id set on the event and the event
     * handed to the service. A refused cron leaves the event's id as it was.
     */
    method Update(id: string, body: EventBody) returns (r: Result<Event, HttpError>)
      modifies body, service
      ensures ValidateCron(old(body.event).cron).Fail? ==>
        && r == Failure(ValidateCron(old(body.event).cron).error)
        && body.event == old(body.event) && service.calls == old(service.calls)
      ensures ValidateCron(old(body.event).cron).Pass? ==>
        && body.event == old(body.event).(id := Some(id))
        && r.Success? && service.calls == old(service.calls) + [Updated(body.event, r.value)]
      ensures GateHeld(old(service.calls)) ==> GateHeld(service.calls)
    {
      var gate := ValidateCron(body.event.cron);
      if gate.Fail? {
        return Failure(gate.error);
      }
      body.SetId(id);
      ghost var before := service.calls;
      var saved := service.UpdateEvent(body.event);
      if GateHeld(before) {
        GateHeldAppend(before, Updated(body.event, saved));
      }
      r := Success(saved);
    }

    /** createEvents (batch): the list goes to saveAll as it came, with no cron check. */
    method CreateEvents(events: seq<Event>) returns (saved: seq<Event>)
      modifies service
      ensures service.calls == old(service.calls) + [SavedAll(events, saved)]
      ensures GateHeld(old(service.calls)) ==> GateHeld(service.calls)
    {
      ghost var before := service.calls;
      saved := service.SaveAll(events);
      if GateHeld(before) {
        GateHeldAppend(before, SavedAll(events, saved));
      }
    }

    /**
     * listEvents (six parameters): a fresh FilterDto filled by one setter per parameter, in
     * the order weekday, month, from, to, tag, titleContains, then the service. setMonth is
     * the one setter that throws; then nothing after it runs and the service is not called.
     * dateFrom and dateTo are never set.
     */
    method ListEvents(weekday: Option<string>, month: Option<string>, from: Option<string>,
                      to: Option<string>, tag: Option<string>, titleContains: Option<string>)
      returns (r: Result<seq<Event>, MalformedFilter>)
      modifies service
      ensures MonthList(month).Failure? ==>
        r == Failure(MonthList(month).error) && service.calls == old(service.calls)
      ensures MonthList(month).Success? ==>
        && r.Success?
        && service.calls == old(service.calls)
             + [Listed(Criteria(weekday, Some(MonthList(month).value), InstantParam(from), InstantParam(to),
                               tag, titleContains, None, None), r.value)]
      ensures GateHeld(old(service.calls)) ==> GateHeld(service.calls)
    {
      var filter := new FilterDto();
      filter.SetWeekday(weekday);
      var monthOutcome := filter.SetMonth(month);
      if monthOutcome.Fail? {
        return Failure(monthOutcome.error);
      }
      var months := MonthList(month).value;
      filter.SetFrom(from);
      filter.SetTo(to);
      filter.SetTag(tag);
      filter.SetTitleContains(titleContains);
      assert filter.weekday == weekday && filter.month == Some(months);
      assert filter.from == InstantParam(from) && filter.to == InstantParam(to);
      assert filter.tag == tag && filter.titleContains == titleContains;
      assert filter.dateFrom.None? && filter.dateTo.None?;
      ghost var before := service.calls;
      var found := service.ListEvents(filter);
      if GateHeld(before) {
        GateHeldAppend(before, Listed(filter.Snapshot(), found));
      }
      r := Success(found);
    }
  }
}
