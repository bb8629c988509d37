/** group/cursor.rs: the log group listing cursor, over the generic paging model. */
module GroupCursor {
  import opened Wrappers
  import opened Ints
  import opened Paging
  import GroupModel

  /** The query fields of `DescribeLogGroupsRequest`; its `next_token` is the request's token. */
  datatype DescribeLogGroupsQuery = DescribeLogGroupsQuery(limit: Option<I64>, logGroupNamePrefix: Option<string>)

  type DescribeLogGroupsRequest = Request<DescribeLogGroupsQuery>

  type CwlGroupCursor = PagedCursor<DescribeLogGroupsQuery>

  type CwlGroupCursorError = CursorError<GroupModel.ParseLogGroupError>

  /** `DescribeLogGroupsRequest::default()`: every field unset. */
  function DefaultRequest(): DescribeLogGroupsRequest {
    Request(DescribeLogGroupsQuery(None, None), None)
  }

  /** `cwl_groups_from`. */
  function CwlGroupsFrom(logGroups: Option<seq<GroupModel.LogGroup>>): Result<seq<GroupModel.CwlGroup>, GroupModel.ParseLogGroupError> {
    ParseAll(logGroups, GroupModel.TryFrom)
  }

  /** An absent list is an empty page, and a present list parses exactly when each of its groups does,
      into those groups in order; otherwise the error is that of the first group that fails. */
  lemma CwlGroupsFromSpec(logGroups: Option<seq<GroupModel.LogGroup>>)
    ensures logGroups.None? ==> CwlGroupsFrom(logGroups) == Ok([])
    ensures logGroups.Some? ==>
              (CwlGroupsFrom(logGroups).Ok? <==> forall i :: 0 <= i < |logGroups.value| ==> GroupModel.TryFrom(logGroups.value[i]).Ok?)
    ensures logGroups.Some? && CwlGroupsFrom(logGroups).Ok? ==>
              |CwlGroupsFrom(logGroups).value| == |logGroups.value|
              && forall i :: 0 <= i < |logGroups.value| ==>
                   GroupModel.TryFrom(logGroups.value[i]) == Ok(CwlGroupsFrom(logGroups).value[i])
    ensures logGroups.Some? && CwlGroupsFrom(logGroups).Err? ==>
              exists i :: 0 <= i < |logGroups.value| && GroupModel.TryFrom(logGroups.value[i]) == Err(CwlGroupsFrom(logGroups).error)
                          && forall j :: 0 <= j < i ==> GroupModel.TryFrom(logGroups.value[j]).Ok?
  {
    if logGroups.Some? {
      ParseEachSpec(logGroups.value, GroupModel.TryFrom);
    }
  }

  /** `Display for CwlGroupCursorError`. */
  function ErrorText(e: CwlGroupCursorError): string {
    match e
    case Parse(_) => "parse error"
    case Transport(cause) => "rusoto error. cause:" + cause
  }

  /** Transport failures keep their cause in the message, and are never mistaken for a parse failure. */
  lemma ErrorTextSpec(e: CwlGroupCursorError)
    ensures e.Parse? <==> ErrorText(e) == "parse error"
    ensures e.Transport? ==> ErrorText(e)[|"rusoto error. cause:"|..] == e.cause
  {
    if e.Transport? {
      assert ErrorText(e)[..5] == "rusot";
    }
  }

  /** `RusotoCwlGroupCursor::new`. */
  function New(request: DescribeLogGroupsRequest): CwlGroupCursor {
    NewPaged(request)
  }

  /** `RusotoCwlGroupCursor::next`, with the service's `describe_log_groups` as `remote`. */
  function Next(c: CwlGroupCursor, remote: DescribeLogGroupsRequest -> Reply<GroupModel.LogGroup>)
    : Step<DescribeLogGroupsQuery, GroupModel.CwlGroup, GroupModel.ParseLogGroupError>
  {
    NextPaged(c, remote, GroupModel.TryFrom)
  }

  /** `RusotoCwlGroupCursor::refresh`. */
  function RefreshGroups(c: CwlGroupCursor, remote: DescribeLogGroupsRequest -> Reply<GroupModel.LogGroup>)
    : Fetch<DescribeLogGroupsQuery, GroupModel.CwlGroup, GroupModel.ParseLogGroupError>
  {
    Refresh(c.request, remote, GroupModel.TryFrom)
  }
}
