# Calendar API event search and cron gate, in Dafny

This project models the part of the calendar REST service (package
`com.calendarapi.lbprojektm165calendarapi`) that holds the repository's own logic:

- **`FilterDto`** turns the raw, possibly-null query parameters of `GET /api/events` into
  typed search criteria. Each setter is a method of the class `Dto.FilterDto`; it changes
  only its own field. The getters are modelled as the `Snapshot()` of all the fields. The
  parsers inside the setters are functions:
  - `MonthList` is the `split(",")`/`Integer.parseInt` stream;
  - `InstantParam` and `DateParam` wrap `Instant.parse` and `LocalDate.parse`.
- **`EventRepositoryImpl.findByFilters`** builds a Mongo query clause by clause and runs it.
  `EventRepository.FindByFilters` follows the same steps:
  - one `addCriteria` per present criterion;
  - the `dateCriteria` builder with its `hasDateCriteria` flag;
  - the `plusDays(1)` that throws after the last date;
  - `mongoTemplate.find`, modelled as a loop that filters an in-memory store.

  Each of these is proved against `Where`, a reference that states each criterion as a
  condition on one event.
- **`ValidCron.ValidCronValidator.isValid`** is `ValidCron.IsValid`: false for null and
  blank text, otherwise acceptance by the QUARTZ parser.
  - The Quartz grammar is the explicit predicate `CronParser.QuartzAccepts`.
  - It is built from a parser to a schedule AST (`CronParser.ParseCron`: collapse `\s+`,
    trim, upper-case, split at spaces, parse each field at its position, check day-of-month
    against day-of-week).
  - A renderer, with a proved round trip, shows that the grammar is the language of
    well-formed schedules.
- **`EventController`**: `validateCron`, `create`, `update`, `createEvents` and the
  six-parameter `listEvents`.
  - The event service is a collaborator whose calls are recorded in a ghost log.
  - The contracts say which service call each request makes.
  - They also say that every single-event write reaching the service carries a valid cron.

Supporting modules:

- `Strings` holds Java's `String` semantics as used here: `isBlank`, `split`, `parseInt`,
  `Integer.toString` and ASCII case.
- `Time` holds the proleptic Gregorian calendar, epoch days, `ISO_LOCAL_DATE` and
  `ISO_INSTANT` parsing. An `Instant` is an integer count of nanoseconds since the epoch,
  the precision of `java.time.Instant`.

Two behaviours of the code are worth stating, because a reader might expect otherwise:

- The weekday parameter is neither split nor upper-cased. It is matched as one whole string
  against `daysOfWeek` (FilterDto.java:43-45, EventRepositoryImpl.java:50-52).
- The `dateTo` bound uses `lte`, so an end exactly at the following midnight is included
  (EventRepositoryImpl.java:92-95).

## Model

| member | source | states |
|---|---|---|
| Dto.FilterDto.constructor | src/main/java/com/calendarapi/lbprojektm165calendarapi/dto/FilterDto.java:15-35 | a new DTO has every criterion absent |
| Dto.FilterDto.SetWeekday | src/main/java/com/calendarapi/lbprojektm165calendarapi/dto/FilterDto.java:43-45 | the weekday field becomes the argument unchanged (null stays null) and no other field changes |
| Dto.FilterDto.SetMonth | src/main/java/com/calendarapi/lbprojektm165calendarapi/dto/FilterDto.java:53-60 | the month field becomes the parsed month list, or the call fails with the offending token and leaves the field as it was |
| Dto.FilterDto.SetFrom | src/main/java/com/calendarapi/lbprojektm165calendarapi/dto/FilterDto.java:67-73 | never fails; the field is the parsed instant or absent |
| Dto.FilterDto.SetTo | src/main/java/com/calendarapi/lbprojektm165calendarapi/dto/FilterDto.java:80-86 | never fails; the field is the parsed instant or absent |
| Dto.FilterDto.SetTag | src/main/java/com/calendarapi/lbprojektm165calendarapi/dto/FilterDto.java:93-95 | the tag is stored verbatim, blank text included |
| Dto.FilterDto.SetTitleContains | src/main/java/com/calendarapi/lbprojektm165calendarapi/dto/FilterDto.java:101-103 | the title text is stored verbatim, blank text included |
| Dto.FilterDto.SetDateFrom | src/main/java/com/calendarapi/lbprojektm165calendarapi/dto/FilterDto.java:112-114 | null gives absent; other text must be a yyyy-MM-dd date, else the call fails and the field is unchanged |
| Dto.FilterDto.SetDateTo | src/main/java/com/calendarapi/lbprojektm165calendarapi/dto/FilterDto.java:123-125 | as SetDateFrom, for dateTo |
| Dto.Normalised | src/main/java/com/calendarapi/lbprojektm165calendarapi/dto/FilterDto.java:43-125 | the eight setters together succeed iff the month and both date texts parse; then weekday, tag and title are verbatim, from/to tolerant and month/dates parsed; a failure names the month token or the date text at fault |
| Dto.ApplySetters | src/main/java/com/calendarapi/lbprojektm165calendarapi/dto/FilterDto.java:43-125 | calling every setter leaves the DTO holding the normalised criteria whatever it held before; on the first strict failure it stops, the setters before it have written their fields and the rest keep their old values |
| Dto.NormaliseTwice | src/main/java/com/calendarapi/lbprojektm165calendarapi/dto/FilterDto.java:43-125 | filling one DTO twice from the same parameters gives identical criteria both times |
| Dto.ParseAll | src/main/java/com/calendarapi/lbprojektm165calendarapi/dto/FilterDto.java:56-59 | succeeds exactly when every token is a decimal int, then one value per token in order; otherwise fails naming a token that is not, never a partial list |
| Dto.InstantParam | src/main/java/com/calendarapi/lbprojektm165calendarapi/dto/FilterDto.java:69-71 | null gives absent; any other text gives exactly what Instant.parse reads from it, absent when it rejects the text (blank text included) |
| Dto.DateParam | src/main/java/com/calendarapi/lbprojektm165calendarapi/dto/FilterDto.java:113 | null gives absent; other text succeeds iff LocalDate.parse accepts it, with the date it reads, and otherwise fails naming the text |
| Dto.MonthListBlank | src/main/java/com/calendarapi/lbprojektm165calendarapi/dto/FilterDto.java:54-55 | null and blank month text give the empty list |
| Dto.MonthListTokens | src/main/java/com/calendarapi/lbprojektm165calendarapi/dto/FilterDto.java:56-59 | non-blank month text succeeds iff every comma token parses, and then holds one value per token in order, with no 1-12 range check |
| Dto.ParseAllNumerals | src/main/java/com/calendarapi/lbprojektm165calendarapi/dto/FilterDto.java:58 | parsing the decimal numerals of 32-bit ints gives the ints back |
| Dto.MonthListRoundTrip | src/main/java/com/calendarapi/lbprojektm165calendarapi/dto/FilterDto.java:53-60 | any non-empty list of 32-bit ints, written comma-separated, is read back as itself |
| Dto.MonthListTrailingComma | src/main/java/com/calendarapi/lbprojektm165calendarapi/dto/FilterDto.java:56 | "1,2," gives [1, 2]: the trailing empty token is dropped |
| Dto.MonthListOnlyComma | src/main/java/com/calendarapi/lbprojektm165calendarapi/dto/FilterDto.java:56 | "," gives the empty list |
| Dto.MonthListLetters | src/main/java/com/calendarapi/lbprojektm165calendarapi/dto/FilterDto.java:58 | "a,b" fails |
| Dto.MonthListEmptyToken | src/main/java/com/calendarapi/lbprojektm165calendarapi/dto/FilterDto.java:56-58 | "1,,2" fails on the empty inner token |
| Dto.MonthListUntrimmed | src/main/java/com/calendarapi/lbprojektm165calendarapi/dto/FilterDto.java:56-58 | " 2" fails: tokens are not trimmed |
| Dto.InstantParamAbsent | src/main/java/com/calendarapi/lbprojektm165calendarapi/dto/FilterDto.java:69-71 | null, blank or unparsable text leaves from/to absent |
| Dto.InstantParamUtc | src/main/java/com/calendarapi/lbprojektm165calendarapi/dto/FilterDto.java:69 | a well-formed yyyy-MM-ddTHH:mm:ssZ is stored as exactly that UTC instant |
| Dto.DateParamBlank | src/main/java/com/calendarapi/lbprojektm165calendarapi/dto/FilterDto.java:113 | present but blank date text is an error, not an absent date |
| Dto.DateParamRoundTrip | src/main/java/com/calendarapi/lbprojektm165calendarapi/dto/FilterDto.java:113 | every date printed as yyyy-MM-dd is read back as itself |
| Time.ParseFormatDate | src/main/java/com/calendarapi/lbprojektm165calendarapi/dto/FilterDto.java:124 | LocalDate.parse inverts ISO date printing, for every year of LocalDate's range |
| Time.BlankIsNoDate | src/main/java/com/calendarapi/lbprojektm165calendarapi/dto/FilterDto.java:124 | blank text never parses as a date |
| Time.BlankIsNoInstant | src/main/java/com/calendarapi/lbprojektm165calendarapi/dto/FilterDto.java:82 | blank text never parses as an instant |
| Time.ParseInstantUtc | src/main/java/com/calendarapi/lbprojektm165calendarapi/dto/FilterDto.java:82 | a UTC date-time text parses to the instant of that date and time of day |
| Time.NextDay | src/main/java/com/calendarapi/lbprojektm165calendarapi/repository/EventRepositoryImpl.java:93 | plusDays(1) fails exactly on the last representable date |
| Time.NextDayEpochDay | src/main/java/com/calendarapi/lbprojektm165calendarapi/repository/EventRepositoryImpl.java:93 | the day after a date is exactly one epoch day later |
| Time.StartOfNextDay | src/main/java/com/calendarapi/lbprojektm165calendarapi/repository/EventRepositoryImpl.java:93 | UTC midnight of the next day is one day of nanoseconds after this day's |
| Time.AtStartOfDayUtc | src/main/java/com/calendarapi/lbprojektm165calendarapi/repository/EventRepositoryImpl.java:87 | the UTC start of every LocalDate is inside Instant's range |
| EventRepository.MatchesAppend | src/main/java/com/calendarapi/lbprojektm165calendarapi/repository/EventRepositoryImpl.java:47-103 | adding a clause ANDs it with the query |
| EventRepository.Filter | src/main/java/com/calendarapi/lbprojektm165calendarapi/repository/EventRepositoryImpl.java:103 | the result holds exactly the stored events that are kept, and is a sub-multiset of the store |
| EventRepository.Find | src/main/java/com/calendarapi/lbprojektm165calendarapi/repository/EventRepositoryImpl.java:103 | the loop over the store returns the matching events in store order |
| EventRepository.WeekdayStep | src/main/java/com/calendarapi/lbprojektm165calendarapi/repository/EventRepositoryImpl.java:50-52 | the weekday clause, added only for non-null non-empty text, means daysOfWeek holds the whole text |
| EventRepository.MonthStep | src/main/java/com/calendarapi/lbprojektm165calendarapi/repository/EventRepositoryImpl.java:55-57 | the month clause, added only for a non-empty list, means months shares a value with it |
| EventRepository.TimeWindowStep | src/main/java/com/calendarapi/lbprojektm165calendarapi/repository/EventRepositoryImpl.java:59-66 | the three-way time window bounds start inclusively by each end present, and adds nothing when neither is |
| EventRepository.TagStep | src/main/java/com/calendarapi/lbprojektm165calendarapi/repository/EventRepositoryImpl.java:69-71 | a non-blank tag must be in tags exactly; null or blank adds nothing |
| EventRepository.TitleStep | src/main/java/com/calendarapi/lbprojektm165calendarapi/repository/EventRepositoryImpl.java:74-79 | non-blank title text must occur literally in the title, ASCII case ignored |
| EventRepository.DateCriteria | src/main/java/com/calendarapi/lbprojektm165calendarapi/repository/EventRepositoryImpl.java:82-96 | the date clause exists iff a date is set, means the date window, and fails exactly when dateTo is the last date |
| EventRepository.BaseQuery | src/main/java/com/calendarapi/lbprojektm165calendarapi/repository/EventRepositoryImpl.java:47-79 | the query built from the first five criteria means exactly those criteria |
| EventRepository.ComposeQuery | src/main/java/com/calendarapi/lbprojektm165calendarapi/repository/EventRepositoryImpl.java:47-101 | the whole query means exactly every criterion of the DTO, or fails on plusDays(1) |
| EventRepository.FindByFilters | src/main/java/com/calendarapi/lbprojektm165calendarapi/repository/EventRepositoryImpl.java:46-104 | the result is exactly the stored events satisfying every criterion, in store order, or the plusDays(1) failure |
| EventRepository.UnconstrainedReturnsStore | src/main/java/com/calendarapi/lbprojektm165calendarapi/repository/EventRepositoryImpl.java:47-103 | with every criterion absent or empty, the whole store comes back |
| EventRepository.WhereMembers | src/main/java/com/calendarapi/lbprojektm165calendarapi/repository/EventRepositoryImpl.java:47-103 | an event is in the result iff it is stored and satisfies every criterion |
| EventRepository.EmptyIffNoMatch | src/main/java/com/calendarapi/lbprojektm165calendarapi/repository/EventRepositoryImpl.java:103 | no match gives the empty list, and only then |
| EventRepository.ExtraCriteriaNarrow | src/main/java/com/calendarapi/lbprojektm165calendarapi/repository/EventRepositoryImpl.java:47-101 | supplying more criteria never enlarges the result |
| EventRepository.FilterNarrows | src/main/java/com/calendarapi/lbprojektm165calendarapi/repository/EventRepositoryImpl.java:103 | a stricter selection returns a sub-multiset |
| EventRepository.DateToCoversDay | src/main/java/com/calendarapi/lbprojektm165calendarapi/repository/EventRepositoryImpl.java:92-95 | dateTo admits ends up to and including the next day's UTC midnight |
| EventRepository.WeekdayIsOneValue | src/main/java/com/calendarapi/lbprojektm165calendarapi/repository/EventRepositoryImpl.java:51 | "MONDAY,TUESDAY" is one value: it does not match an event on MONDAY and TUESDAY |
| EventRepository.TitleIgnoresCase | src/main/java/com/calendarapi/lbprojektm165calendarapi/repository/EventRepositoryImpl.java:77 | "meeting" finds "Team Meeting" |
| EventRepository.MonthsShareOne | src/main/java/com/calendarapi/lbprojektm165calendarapi/repository/EventRepositoryImpl.java:55-57 | for every non-empty month list and event, the month criterion and its `in` clause hold iff the set of months the two share is non-empty |
| EventRepository.MonthsQuarterly | src/main/java/com/calendarapi/lbprojektm165calendarapi/repository/EventRepositoryImpl.java:56 | months [1, 4, 7, 10] match the list [2, 4] and not [2, 3] |
| CronParser.Normalise | src/main/java/com/calendarapi/lbprojektm165calendarapi/validation/ValidCron.java:92 | the text the parser works on has single spaces, no other whitespace, and no blank ends; it keeps every character above U+0020 and adds none but spaces |
| CronParser.NormaliseSpaced | src/main/java/com/calendarapi/lbprojektm165calendarapi/validation/ValidCron.java:92 | non-blank pieces separated by any runs of whitespace, with optional runs before and after, normalise to the pieces joined by single spaces |
| CronParser.NormaliseIdempotent | src/main/java/com/calendarapi/lbprojektm165calendarapi/validation/ValidCron.java:92 | normalising twice is normalising once |
| CronParser.Tokenize | src/main/java/com/calendarapi/lbprojektm165calendarapi/validation/ValidCron.java:92 | tokenizing fails exactly for null and for text with nothing left after trimming |
| CronParser.TokenizeJoin | src/main/java/com/calendarapi/lbprojektm165calendarapi/validation/ValidCron.java:92 | upper-case fields joined by single spaces tokenize back to those fields |
| CronParser.ParseField | src/main/java/com/calendarapi/lbprojektm165calendarapi/validation/ValidCron.java:72-74 | a parsed field is admitted by the Quartz grammar at its position |
| CronParser.ParseCron | src/main/java/com/calendarapi/lbprojektm165calendarapi/validation/ValidCron.java:92 | what parse and validate accept is a well-formed Quartz schedule; null is a failure |
| CronParser.RenderRoundTrip | src/main/java/com/calendarapi/lbprojektm165calendarapi/validation/ValidCron.java:72-74 | every well-formed schedule, written out, is parsed back as itself |
| CronParser.WhitespaceInsensitive | src/main/java/com/calendarapi/lbprojektm165calendarapi/validation/ValidCron.java:92 | fields separated by any runs of whitespace, with any runs around them, parse exactly as the fields separated by single spaces |
| CronParser.AcceptedHasCanonicalForm | src/main/java/com/calendarapi/lbprojektm165calendarapi/validation/ValidCron.java:92 | every accepted expression has a canonical text meaning the same schedule |
| CronParser.ParsedFromFields | src/main/java/com/calendarapi/lbprojektm165calendarapi/validation/ValidCron.java:92 | six or seven fields that each parse at their position parse as that schedule, if the day fields agree |
| CronParser.RejectedField | src/main/java/com/calendarapi/lbprojektm165calendarapi/validation/ValidCron.java:92-98 | one field outside its position's grammar makes the whole expression invalid |
| CronParser.WrongCount | src/main/java/com/calendarapi/lbprojektm165calendarapi/validation/ValidCron.java:92-98 | neither six nor seven fields is a field-count error |
| CronParser.OneWord | src/main/java/com/calendarapi/lbprojektm165calendarapi/validation/ValidCron.java:92-98 | a single word is one field and is rejected |
| CronParser.BlankRejected | src/main/java/com/calendarapi/lbprojektm165calendarapi/validation/ValidCron.java:86-89 | blank text is rejected by the parser too, so the guard changes no verdict |
| ValidCron.IsValid | src/main/java/com/calendarapi/lbprojektm165calendarapi/validation/ValidCron.java:84-105 | total; true exactly when the value is present and in the Quartz language |
| ValidCron.ValidIsSchedule | src/main/java/com/calendarapi/lbprojektm165calendarapi/validation/ValidCron.java:19-20 | a valid value denotes a well-formed schedule whose canonical text is valid |
| ValidCron.RenderedIsValid | src/main/java/com/calendarapi/lbprojektm165calendarapi/validation/ValidCron.java:19-20 | every well-formed schedule written out is valid |
| ValidCron.AcceptsDailyNoon | src/test/java/com/calendarapi/lbprojektm165calendarapi/validation/ValidCronTest.java:63-69 | "0 0 12 * * ?" is valid |
| ValidCron.AcceptsHourly | src/test/java/com/calendarapi/lbprojektm165calendarapi/controller/EventControllerTest.java:50 | "0 0 * * * ?" is valid |
| ValidCron.AcceptsFirstMonday | mongo-init.js:31 | "0 0 9 ? * MON#1" (first Monday) is valid |
| ValidCron.AcceptsWithYear | mongo-init.js:57 | "0 0 14 15 * ? *" with the optional year field is valid |
| ValidCron.AcceptsSunday | mongo-init.js:68 | "0 0 3 ? * SUN" is valid |
| ValidCron.RejectsTwoWords | src/test/java/com/calendarapi/lbprojektm165calendarapi/validation/ValidCronTest.java:76-82 | "INVALID CRON" is invalid |
| ValidCron.RejectsOneWord | src/test/java/com/calendarapi/lbprojektm165calendarapi/controller/EventControllerTest.java:88 | "invalid-cron" is invalid |
| ValidCron.RejectsNull | src/test/java/com/calendarapi/lbprojektm165calendarapi/validation/ValidCronTest.java:89-95 | null is invalid |
| ValidCron.RejectsBothDays | src/main/java/com/calendarapi/lbprojektm165calendarapi/validation/ValidCron.java:92 | both day fields specified is invalid |
| ValidCron.RejectsHour24 | src/main/java/com/calendarapi/lbprojektm165calendarapi/validation/ValidCron.java:92 | an hour of 24 is invalid |
| Controller.JavaText | src/main/java/com/calendarapi/lbprojektm165calendarapi/controller/EventController.java:89 | a null pattern prints as "null", any other as itself |
| Controller.ValidateCron | src/main/java/com/calendarapi/lbprojektm165calendarapi/controller/EventController.java:83-92 | passes iff the pattern is valid, else 400 with "Ungültiges Cron-Pattern: " and the pattern |
| Controller.ValidateNull | src/main/java/com/calendarapi/lbprojektm165calendarapi/controller/EventController.java:83-92 | a null cron is 400 with reason ending "null" |
| Controller.ValidateHourly | src/test/java/com/calendarapi/lbprojektm165calendarapi/controller/EventControllerTest.java:65 | "0 0 * * * ?" passes the gate |
| Controller.ValidateOneWord | src/main/java/com/calendarapi/lbprojektm165calendarapi/controller/EventController.java:87-90 | any single word is refused with 400 and the word in the reason |
| Controller.ValidateInvalidWord | src/test/java/com/calendarapi/lbprojektm165calendarapi/controller/EventControllerTest.java:86-105 | "invalid-cron" is refused |
| Controller.EventBody.SetId | src/main/java/com/calendarapi/lbprojektm165calendarapi/controller/EventController.java:44 | only the id of the body's event changes |
| Controller.GateHeldAppend | src/main/java/com/calendarapi/lbprojektm165calendarapi/controller/EventController.java:35-46 | a call that is no single-event write, or one with a valid cron, keeps the gate invariant |
| Controller.EventController.constructor | src/main/java/com/calendarapi/lbprojektm165calendarapi/controller/EventController.java:29-33 | the controller uses the given service |
| Controller.EventController.Create | src/main/java/com/calendarapi/lbprojektm165calendarapi/controller/EventController.java:35-39 | an invalid cron gives the 400 and no service call; otherwise the event goes unchanged to createEvent and its result is returned; the gate invariant is kept |
| Controller.EventController.Update | src/main/java/com/calendarapi/lbprojektm165calendarapi/controller/EventController.java:41-46 | an invalid cron gives the 400, leaves the id untouched and calls nothing; otherwise the path id is set, then updateEvent gets the event and its result is returned |
| Controller.EventController.CreateEvents | src/main/java/com/calendarapi/lbprojektm165calendarapi/controller/EventController.java:95-98 | the list goes unchanged to saveAll, with no cron check, and its result is returned |
| Controller.EventController.ListEvents | src/main/java/com/calendarapi/lbprojektm165calendarapi/controller/EventController.java:99-116 | a bad month text fails before the service is called; otherwise the service gets criteria holding each parameter as its setter stores it, with dateFrom and dateTo absent |

## Left out

- MongoDB is not modelled: `mongoTemplate.find` filters an in-memory sequence, and the
  millisecond precision Mongo stores instants at is not modelled.
- A time window and a `dateFrom` both constrain `start`. The model ANDs them, which is
  what the query means. Whether Spring Data accepts two criteria on the same key is
  library behaviour outside this model.
- The title regex `".*" + Pattern.quote(text) + ".*"` with flag `i` is modelled as a literal
  substring test with ASCII case ignored. Unicode case folding is left out.
- `Integer.parseInt` accepts ASCII digits only here. Java also accepts other Unicode
  decimal digits.
- The `\s` class of the cron tokenizer is ASCII whitespace. Upper-casing affects only ASCII
  letters.
- cron-utils' parser is not part of this model. `CronParser.QuartzAccepts` is the Quartz
  grammar the model assumes for its QUARTZ definition, reconstructed from the Quartz
  `CronExpression` format. Composite expressions (several crons joined by `|`) are not in it.
  These choices of the assumed grammar may differ from cron-utils:
  - `?`, `L`, `LW`, `L-n`, `nW`, `nL` and `d#n` are accepted only as a whole field, never
    inside a comma list, so `1,L` and `MON#1,FRI#3` are rejected;
  - `L-n` admits offsets 1 to 30, and `d#n` admits n from 1 to 5;
  - a step `/n` admits 1 up to the field's maximum value;
  - a range whose start is above its end (`22-2`) is accepted as a wrap-around in every
    field except the year, whose range must not decrease;
  - the year field admits 1970 to 2099.
- Next-fire-time computation is not modelled; the repository never uses it.
- The event service's own behaviour (storage, id assignment) is
  not modelled. Its results are unconstrained, and only the call log is specified.
- The five-parameter `listEvents` overload (EventController.java:48-63), which clashes with the six-parameter one on the same
  mapping, is not modelled.
- `hello`, `getById` and `delete` of the controller pass straight through to the service
  and are not modelled.
- The HTTP layer is not modelled: annotations, request binding, exception mappers and
  logging.
  - A thrown `ResponseStatusException` is a `Failure(HttpError)` result.
  - A thrown `NumberFormatException` or `DateTimeParseException` is a `Failure` result.
- `EventService.listEvents` calls `findByFilters` with five arguments, which
  `EventRepositoryCustom` does not declare. This wiring between service and repository is
  not modelled: the controller's contract ends at the service call.
- Seed data loading (`DataInitializer`, `mongo-init.js`) is not modelled. Its cron strings
  serve as sample expressions.
