/** stream/model.rs: a log stream as the service reports it, and its validated form `CwlStream`. */
module StreamModel {
  import opened Wrappers
  import opened Ints
  import opened Mapper
  import opened Ordering
  import Store

  /** The fields of the service's `LogStream` record that the conversion reads. */
  datatype LogStream = LogStream(
    arn: Option<string>,
    creationTime: Option<I64>,
    logStreamName: Option<string>,
    firstEventTimestamp: Option<I64>,
    lastEventTimestamp: Option<I64>,
    lastIngestionTime: Option<I64>)

  /** A validated log stream. Its identity is its ARN. */
  datatype CwlStream = CwlStream(
    arn: string,
    creationTime: Timestamp,
    streamName: string,
    firstEventTime: Timestamp,
    lastEventTime: Timestamp,
    lastIngestionTime: Timestamp)

  datatype ParseLogStreamError = MissingField(missing: MissingFieldError)

  /** `CwlStream::try_from(LogStream)`: every field is required, checked in declaration order. */
  function TryFrom(s: LogStream): Result<CwlStream, ParseLogStreamError> {
    var arn :- MapStringField(s.arn, "arn", (t: string) => t).MapFailure(e => MissingField(e));
    var creationTime :- MapUnixEpochMillis(s.creationTime, "creation_time").MapFailure(e => MissingField(e));
    var streamName :- MapField(s.logStreamName, "log_stream_name").MapFailure(e => MissingField(e));
    var firstEventTime :-
      MapUnixEpochMillis(s.firstEventTimestamp, "first_event_timestamp").MapFailure(e => MissingField(e));
    var lastEventTime :-
      MapUnixEpochMillis(s.lastEventTimestamp, "last_event_timestamp").MapFailure(e => MissingField(e));
    var lastIngestionTime :-
      MapUnixEpochMillis(s.lastIngestionTime, "last_ingestion_time").MapFailure(e => MissingField(e));
    Ok(CwlStream(arn, creationTime, streamName, firstEventTime, lastEventTime, lastIngestionTime))
  }

  /** Which fields are present, in the order the conversion checks them. */
  function Required(s: LogStream): seq<(string, bool)> {
    [("arn", s.arn.Some?), ("creation_time", s.creationTime.Some?),
     ("log_stream_name", s.logStreamName.Some?), ("first_event_timestamp", s.firstEventTimestamp.Some?),
     ("last_event_timestamp", s.lastEventTimestamp.Some?), ("last_ingestion_time", s.lastIngestionTime.Some?)]
  }

  /** The conversion fails exactly when a field is absent, reporting the first absent one; on success it
      copies every field, each timestamp being its millisecond count. */
  lemma TryFromSpec(s: LogStream)
    ensures TryFrom(s).Err? <==> FirstMissing(Required(s)).Some?
    ensures TryFrom(s).Err? ==> TryFrom(s).error == MissingField(MissingFieldError(FirstMissing(Required(s)).value))
    ensures TryFrom(s).Ok? ==>
              var r := TryFrom(s).value;
              && s.arn == Some(r.arn)
              && s.creationTime.Some? && r.creationTime.millis == s.creationTime.value as int
              && s.logStreamName == Some(r.streamName)
              && s.firstEventTimestamp.Some? && r.firstEventTime.millis == s.firstEventTimestamp.value as int
              && s.lastEventTimestamp.Some? && r.lastEventTime.millis == s.lastEventTimestamp.value as int
              && s.lastIngestionTime.Some? && r.lastIngestionTime.millis == s.lastIngestionTime.value as int
  {
    var q := Required(s);
    var q1 := q[1..];
    var q2 := q1[1..];
    var q3 := q2[1..];
    var q4 := q3[1..];
    var q5 := q4[1..];
    assert q5 == [q[5]] && q5[1..] == [];
    assert FirstMissing(q) == (if !q[0].1 then Some(q[0].0) else FirstMissing(q1));
    assert FirstMissing(q1) == (if !q[1].1 then Some(q[1].0) else FirstMissing(q2));
    assert FirstMissing(q2) == (if !q[2].1 then Some(q[2].0) else FirstMissing(q3));
    assert FirstMissing(q3) == (if !q[3].1 then Some(q[3].0) else FirstMissing(q4));
    assert FirstMissing(q4) == (if !q[4].1 then Some(q[4].0) else FirstMissing(q5));
    assert FirstMissing(q5) == (if !q[5].1 then Some(q[5].0) else None);
  }

  /** The success case of the conversion's tests. */
  lemma TryFromExample()
    ensures TryFrom(LogStream(Some("arn:aws:logs:ap-northeast-1:000000000000:log-group:LOG-GROUP:log-stream:LOG-STREAM"),
                              Some(1604316153000), Some("LOG-STREAM"), Some(1604316153001), Some(1604316153002),
                              Some(1604316153003)))
         == Ok(CwlStream("arn:aws:logs:ap-northeast-1:000000000000:log-group:LOG-GROUP:log-stream:LOG-STREAM",
                         Timestamp(1604316153000), "LOG-STREAM", Timestamp(1604316153001),
                         Timestamp(1604316153002), Timestamp(1604316153003)))
  {
  }

  /** `Ord for CwlStream`: streams compare by ARN alone. */
  function StreamOrder(): Store.Order<CwlStream, string> {
    Store.Order((s: CwlStream) => s.arn, StrLt)
  }

  /** The ARN order is a strict total order, as `Ord` requires. */
  lemma StreamOrderLawful()
    ensures Store.Lawful(StreamOrder())
  {
    StrLtStrictTotal();
  }
}
