/** event/model.rs: a log event as the service reports it, and its validated form `CwlEvent`. */
module EventModel {
  import opened Wrappers
  import opened Ints
  import opened Mapper
  import opened Ordering
  import Store

  /** `EventId`: the service's event identifier. */
  datatype EventId = EventId(text: string)

  /** `From<String> for EventId`. */
  function EventIdFromString(s: string): EventId {
    EventId(s)
  }

  /** `From<&str> for EventId`. */
  function EventIdFromStr(s: string): EventId {
    EventId(s)
  }

  /** Both conversions wrap the given text unchanged, so they agree, and distinct texts give distinct ids. */
  lemma EventIdConversions(s: string, t: string)
    ensures EventIdFromString(s) == EventIdFromStr(s) && EventIdFromString(s).text == s
    ensures EventIdFromStr(s) == EventIdFromStr(t) <==> s == t
  {
  }

  /** The service's `FilteredLogEvent` record. */
  datatype FilteredLogEvent = FilteredLogEvent(
    eventId: Option<string>,
    ingestionTime: Option<I64>,
    logStreamName: Option<string>,
    message: Option<string>,
    timestamp: Option<I64>)

  /** A validated log event. Its identity is its event id. */
  datatype CwlEvent = CwlEvent(
    eventId: EventId,
    ingestionTime: Timestamp,
    streamName: string,
    message: string,
    eventTime: Timestamp)

  datatype ParseLogEventError = MissingField(missing: MissingFieldError)

  /** `CwlEvent::try_from(FilteredLogEvent)`: every field is required, checked in the order event_id,
      ingestion_time, log_stream_name, message, timestamp. */
  function TryFrom(e: FilteredLogEvent): Result<CwlEvent, ParseLogEventError> {
    var eventId :- MapStringField(e.eventId, "event_id", EventIdFromString).MapFailure(m => MissingField(m));
    var ingestionTime :- MapUnixEpochMillis(e.ingestionTime, "ingestion_time").MapFailure(m => MissingField(m));
    var streamName :- MapField(e.logStreamName, "log_stream_name").MapFailure(m => MissingField(m));
    var message :- MapField(e.message, "message").MapFailure(m => MissingField(m));
    var eventTime :- MapUnixEpochMillis(e.timestamp, "timestamp").MapFailure(m => MissingField(m));
    Ok(CwlEvent(eventId, ingestionTime, streamName, message, eventTime))
  }

  /** Which fields are present, in the order the conversion checks them. */
  function Required(e: FilteredLogEvent): seq<(string, bool)> {
    [("event_id", e.eventId.Some?), ("ingestion_time", e.ingestionTime.Some?),
     ("log_stream_name", e.logStreamName.Some?), ("message", e.message.Some?), ("timestamp", e.timestamp.Some?)]
  }

  /** The conversion fails exactly when a field is absent, reporting the first absent one; on success it
      copies every field. */
  lemma TryFromSpec(e: FilteredLogEvent)
    ensures TryFrom(e).Err? <==> FirstMissing(Required(e)).Some?
    ensures TryFrom(e).Err? ==> TryFrom(e).error == MissingField(MissingFieldError(FirstMissing(Required(e)).value))
    ensures TryFrom(e).Ok? ==>
              var r := TryFrom(e).value;
              && e.eventId == Some(r.eventId.text)
              && e.ingestionTime.Some? && r.ingestionTime.millis == e.ingestionTime.value as int
              && e.logStreamName == Some(r.streamName)
              && e.message == Some(r.message)
              && e.timestamp.Some? && r.eventTime.millis == e.timestamp.value as int
  {
    var q := Required(e);
    var q1 := q[1..];
    var q2 := q1[1..];
    var q3 := q2[1..];
    var q4 := q3[1..];
    assert q4 == [q[4]] && q4[1..] == [];
    assert FirstMissing(q) == (if !q[0].1 then Some(q[0].0) else FirstMissing(q1));
    assert FirstMissing(q1) == (if !q[1].1 then Some(q[1].0) else FirstMissing(q2));
    assert FirstMissing(q2) == (if !q[2].1 then Some(q[2].0) else FirstMissing(q3));
    assert FirstMissing(q3) == (if !q[3].1 then Some(q[3].0) else FirstMissing(q4));
    assert FirstMissing(q4) == (if !q[4].1 then Some(q[4].0) else None);
  }

  /** The success case of the conversion's tests. */
  lemma TryFromExample()
    ensures TryFrom(FilteredLogEvent(Some("EVENT-ID"), Some(1604316153000), Some("STREAM-NAME"), Some("MESSAGE"),
                                     Some(1604316153111)))
         == Ok(CwlEvent(EventId("EVENT-ID"), Timestamp(1604316153000), "STREAM-NAME", "MESSAGE",
                        Timestamp(1604316153111)))
  {
  }

  /** `Ord for CwlEvent`: events compare by event id alone. */
  function EventOrder(): Store.Order<CwlEvent, string> {
    Store.Order((e: CwlEvent) => e.eventId.text, StrLt)
  }

  /** The event-id order is a strict total order, as `Ord` requires. */
  lemma EventOrderLawful()
    ensures Store.Lawful(EventOrder())
  {
    StrLtStrictTotal();
  }
}
