/** The stored event, reduced to the fields the filter and the write gate look at. */
module Events {
  import opened Wrappers
  import opened Time

  /**
   * An event document. `start` and `end` are instants (end is not required to follow start),
   * `tags`, `daysOfWeek` and `months` are the arrays the filter queries, `cron` is the
   * recurrence pattern the controller validates, and `id` is set by update.
   */
  datatype Event = Event(
    id: Option<string>,
    title: string,
    description: Option<string>,
    start: Instant,
    end: Instant,
    cron: Option<string>,
    tags: seq<string>,
    daysOfWeek: seq<string>,
    dayOfMonth: Option<int>,
    months: seq<int>)
}
