/** event/cursor.rs: the log event cursor, which has no exhaustion flag. */
module EventCursor {
  import opened Wrappers
  import opened Paging
  import EventModel

  /** The query fields of `FilterLogEventsRequest` this model keeps; its `next_token` is the request's
      token. */
  datatype FilterLogEventsQuery = FilterLogEventsQuery(logGroupName: string, filterPattern: Option<string>)

  type FilterLogEventsRequest = Request<FilterLogEventsQuery>

  type CwlEventCursor = TokenCursor<FilterLogEventsQuery>

  type CwlEventCursorError = CursorError<EventModel.ParseLogEventError>

  /** `cwl_events_from`. */
  function CwlEventsFrom(events: Option<seq<EventModel.FilteredLogEvent>>)
    : Result<seq<EventModel.CwlEvent>, EventModel.ParseLogEventError>
  {
    ParseAll(events, EventModel.TryFrom)
  }

  /** An absent list is an empty page; a present list parses exactly when each event does, in order,
      and otherwise fails with the first failing event's error. */
  lemma CwlEventsFromSpec(events: Option<seq<EventModel.FilteredLogEvent>>)
    ensures events.None? ==> CwlEventsFrom(events) == Ok([])
    ensures events.Some? ==>
              (CwlEventsFrom(events).Ok? <==> forall i :: 0 <= i < |events.value| ==> EventModel.TryFrom(events.value[i]).Ok?)
    ensures events.Some? && CwlEventsFrom(events).Ok? ==>
              |CwlEventsFrom(events).value| == |events.value|
              && forall i :: 0 <= i < |events.value| ==>
                   EventModel.TryFrom(events.value[i]) == Ok(CwlEventsFrom(events).value[i])
    ensures events.Some? && CwlEventsFrom(events).Err? ==>
              exists i :: 0 <= i < |events.value| && EventModel.TryFrom(events.value[i]) == Err(CwlEventsFrom(events).error)
                          && forall j :: 0 <= j < i ==> EventModel.TryFrom(events.value[j]).Ok?
  {
    if events.Some? {
      ParseEachSpec(events.value, EventModel.TryFrom);
    }
  }

  /** `Display for CwlEventCursorError`. */
  function ErrorText(e: CwlEventCursorError): string {
    match e
    case Parse(_) => "parse error"
    case Transport(_) => "rusoto error"
  }

  /** `RusotoCwlEventCursor::new`. */
  function New(request: FilterLogEventsRequest): CwlEventCursor {
    NewToken(request)
  }

  /** `RusotoCwlEventCursor::next`, with the service's `filter_log_events` as `remote`. */
  function Next(c: CwlEventCursor, remote: FilterLogEventsRequest -> Reply<EventModel.FilteredLogEvent>)
    : TokenStep<FilterLogEventsQuery, EventModel.CwlEvent, EventModel.ParseLogEventError>
  {
    NextToken(c, remote, EventModel.TryFrom)
  }

  /** `RusotoCwlEventCursor::refresh`. */
  function RefreshEvents(c: CwlEventCursor, remote: FilterLogEventsRequest -> Reply<EventModel.FilteredLogEvent>)
    : Fetch<FilterLogEventsQuery, EventModel.CwlEvent, EventModel.ParseLogEventError>
  {
    Refresh(c.request, remote, EventModel.TryFrom)
  }
}
