/** stream/cursor.rs: the log stream listing cursor, over the generic paging model. */
module StreamCursor {
  import opened Wrappers
  import opened Paging
  import StreamModel

  /** The query fields of `DescribeLogStreamsRequest` this model keeps; its `next_token` is the request's
      token. */
  datatype DescribeLogStreamsQuery = DescribeLogStreamsQuery(logGroupName: string, logStreamNamePrefix: Option<string>)

  type DescribeLogStreamsRequest = Request<DescribeLogStreamsQuery>

  type CwlStreamCursor = PagedCursor<DescribeLogStreamsQuery>

  type CwlStreamCursorError = CursorError<StreamModel.ParseLogStreamError>

  /** `cwl_streams_from`. */
  function CwlStreamsFrom(logStreams: Option<seq<StreamModel.LogStream>>)
    : Result<seq<StreamModel.CwlStream>, StreamModel.ParseLogStreamError>
  {
    ParseAll(logStreams, StreamModel.TryFrom)
  }

  /** An absent list is an empty page; a present list parses exactly when each stream does, in order,
      and otherwise fails with the first failing stream's error. */
  lemma CwlStreamsFromSpec(logStreams: Option<seq<StreamModel.LogStream>>)
    ensures logStreams.None? ==> CwlStreamsFrom(logStreams) == Ok([])
    ensures logStreams.Some? ==>
              (CwlStreamsFrom(logStreams).Ok? <==>
                 forall i :: 0 <= i < |logStreams.value| ==> StreamModel.TryFrom(logStreams.value[i]).Ok?)
    ensures logStreams.Some? && CwlStreamsFrom(logStreams).Ok? ==>
              |CwlStreamsFrom(logStreams).value| == |logStreams.value|
              && forall i :: 0 <= i < |logStreams.value| ==>
                   StreamModel.TryFrom(logStreams.value[i]) == Ok(CwlStreamsFrom(logStreams).value[i])
    ensures logStreams.Some? && CwlStreamsFrom(logStreams).Err? ==>
              exists i :: 0 <= i < |logStreams.value| && StreamModel.TryFrom(logStreams.value[i]) == Err(CwlStreamsFrom(logStreams).error)
                          && forall j :: 0 <= j < i ==> StreamModel.TryFrom(logStreams.value[j]).Ok?
  {
    if logStreams.Some? {
      ParseEachSpec(logStreams.value, StreamModel.TryFrom);
    }
  }

  /** `Display for CwlStreamCursorError`: the transport cause is not included. */
  function ErrorText(e: CwlStreamCursorError): string {
    match e
    case Parse(_) => "parse error"
    case Transport(_) => "rusoto error"
  }

  /** `RusotoCwlStreamCursor::new`. */
  function New(request: DescribeLogStreamsRequest): CwlStreamCursor {
    NewPaged(request)
  }

  /** `RusotoCwlStreamCursor::next`, with the service's `describe_log_streams` as `remote`. */
  function Next(c: CwlStreamCursor, remote: DescribeLogStreamsRequest -> Reply<StreamModel.LogStream>)
    : Step<DescribeLogStreamsQuery, StreamModel.CwlStream, StreamModel.ParseLogStreamError>
  {
    NextPaged(c, remote, StreamModel.TryFrom)
  }

  /** `RusotoCwlStreamCursor::refresh`. */
  function RefreshStreams(c: CwlStreamCursor, remote: DescribeLogStreamsRequest -> Reply<StreamModel.LogStream>)
    : Fetch<DescribeLogStreamsQuery, StreamModel.CwlStream, StreamModel.ParseLogStreamError>
  {
    Refresh(c.request, remote, StreamModel.TryFrom)
  }
}
