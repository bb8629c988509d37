/** The pagination cursors of group/cursor.rs, stream/cursor.rs and event/cursor.rs, over an abstract
    remote listing call. The two group and stream cursors keep an exhaustion flag; the event cursor does not. */
module Paging {
  import opened Wrappers

  /** A listing request: the query fields and the continuation token sent with them. */
  datatype Request<Q> = Request(query: Q, nextToken: Option<string>)

  /** A listing response: the raw records (possibly absent) and the continuation token, if more remain. */
  datatype Response<R> = Response(items: Option<seq<R>>, nextToken: Option<string>)

  /** What the remote call returns for one request: a response, or a transport failure with its message. */
  datatype Reply<R> = Answered(response: Response<R>) | Failed(cause: string)

  /** The cursor error: a record of the page failed to parse, or the call itself failed. */
  datatype CursorError<P> = Parse(source: P) | Transport(cause: string)

  /** `cwl_*_from`: an absent record list is an empty page; otherwise every record is converted and the
      first failure fails the whole page, as `collect::<Result<Vec<_>, _>>()` does. */
  function ParseAll<R, T, P>(items: Option<seq<R>>, parse: R -> Result<T, P>): Result<seq<T>, P> {
    match items
    case None => Ok([])
    case Some(rs) => ParseEach(rs, parse)
  }

  function ParseEach<R, T, P>(rs: seq<R>, parse: R -> Result<T, P>): Result<seq<T>, P>
    decreases |rs|
  {
    if |rs| == 0 then Ok([])
    else
      var t :- parse(rs[0]);
      var ts :- ParseEach(rs[1..], parse);
      Ok([t] + ts)
  }

  /** A page parses exactly when every record does, in which case it holds each record's conversion in
      order; otherwise the error is that of the first record that fails. */
  lemma {:induction false} ParseEachSpec<R, T, P>(rs: seq<R>, parse: R -> Result<T, P>)
    ensures ParseEach(rs, parse).Ok? <==> forall i :: 0 <= i < |rs| ==> parse(rs[i]).Ok?
    ensures ParseEach(rs, parse).Ok? ==>
              |ParseEach(rs, parse).value| == |rs|
              && forall i :: 0 <= i < |rs| ==> ParseEach(rs, parse).value[i] == parse(rs[i]).value
    ensures ParseEach(rs, parse).Err? ==>
              exists i :: 0 <= i < |rs| && parse(rs[i]) == Err(ParseEach(rs, parse).error)
                          && forall j :: 0 <= j < i ==> parse(rs[j]).Ok?
    decreases |rs|
  {
    if |rs| > 0 {
      ParseEachSpec(rs[1..], parse);
      assert forall i :: 1 <= i < |rs| ==> rs[i] == rs[1..][i - 1];
      if parse(rs[0]).Ok? && ParseEach(rs[1..], parse).Err? {
        var i :| 0 <= i < |rs[1..]| && parse(rs[1..][i]) == Err(ParseEach(rs[1..], parse).error)
                 && forall j :: 0 <= j < i ==> parse(rs[1..][j]).Ok?;
        assert parse(rs[i + 1]) == Err(ParseEach(rs, parse).error);
        assert forall j :: 0 <= j < i + 1 ==> parse(rs[j]).Ok?;
      }
      if parse(rs[0]).Err? {
        assert parse(rs[0]) == Err(ParseEach(rs, parse).error);
      }
    }
  }

  // Group and stream cursors.

  /** `RusotoCwlGroupCursor` / `RusotoCwlStreamCursor`: the last request, the saved token, and whether
      another page may follow. */
  datatype PagedCursor<Q> = PagedCursor(request: Request<Q>, nextToken: Option<string>, hasNext: bool)

  /** One call of `next`: the cursor after it, its result, and the request it sent, if any. */
  datatype Step<Q, T, P> = Step(cursor: PagedCursor<Q>, result: Result<Option<seq<T>>, CursorError<P>>,
                                sent: Option<Request<Q>>)

  /** One call of `refresh`: its result and the request it sent. */
  datatype Fetch<Q, T, P> = Fetch(result: Result<Option<seq<T>>, CursorError<P>>, sent: Request<Q>)

  /** `new`: no saved token, and a first page to fetch. */
  function NewPaged<Q>(request: Request<Q>): PagedCursor<Q> {
    PagedCursor(request, None, true)
  }

  /** `next`. When a page may follow, the saved token is moved into the request (leaving none saved) and
      the request sent; on an answer the flag and saved token are taken from the response before the
      page is parsed. Otherwise nothing is sent and the result is `Ok(None)`. */
  function NextPaged<Q, R, T, P>(c: PagedCursor<Q>, remote: Request<Q> -> Reply<R>, parse: R -> Result<T, P>)
    : Step<Q, T, P>
  {
    if !c.hasNext then Step(c, Ok(None), None)
    else
      var request := c.request.(nextToken := c.nextToken);
      var taken := c.(request := request, nextToken := None);
      match remote(request)
      case Failed(cause) => Step(taken, Err(Transport(cause)), Some(request))
      case Answered(res) =>
        var updated := taken.(hasNext := res.nextToken.Some?, nextToken := res.nextToken);
        match ParseAll(res.items, parse)
        case Err(e) => Step(updated, Err(Parse(e)), Some(request))
        case Ok(page) => Step(updated, Ok(Some(page)), Some(request))
  }

  /** `refresh`: the stored request is sent again and its page parsed; the cursor is not changed. */
  function Refresh<Q, R, T, P>(request: Request<Q>, remote: Request<Q> -> Reply<R>, parse: R -> Result<T, P>)
    : Fetch<Q, T, P>
  {
    match remote(request)
    case Failed(cause) => Fetch(Err(Transport(cause)), request)
    case Answered(res) =>
      match ParseAll(res.items, parse)
      case Err(e) => Fetch(Err(Parse(e)), request)
      case Ok(page) => Fetch(Ok(Some(page)), request)
  }

  /** A new cursor has no saved token and will fetch; its first `next` sends the request with no token. */
  lemma NewPagedFetchesFirstPage<Q, R, T, P>(request: Request<Q>, remote: Request<Q> -> Reply<R>,
                                              parse: R -> Result<T, P>)
    ensures NewPaged(request).nextToken.None? && NewPaged(request).hasNext
    ensures NextPaged(NewPaged(request), remote, parse).sent == Some(request.(nextToken := None))
  {
  }

  /** What one `next` does, by case: an exhausted cursor sends nothing and answers `Ok(None)` unchanged;
      otherwise it sends the stored request carrying the saved token; a transport failure leaves no saved
      token and the flag set; an answer sets the flag and token from the response whether or not its page
      parses. */
  lemma NextPagedSpec<Q, R, T, P>(c: PagedCursor<Q>, remote: Request<Q> -> Reply<R>, parse: R -> Result<T, P>)
    ensures !c.hasNext ==> NextPaged(c, remote, parse) == Step(c, Ok(None), None)
    ensures c.hasNext ==>
              var sent := c.request.(nextToken := c.nextToken);
              var s := NextPaged(c, remote, parse);
              && s.sent == Some(sent)
              && s.cursor.request == sent
              && (remote(sent).Failed? ==>
                    s.cursor.nextToken.None? && s.cursor.hasNext && s.result == Err(Transport(remote(sent).cause)))
              && (remote(sent).Answered? ==>
                    var res := remote(sent).response;
                    && s.cursor.hasNext == res.nextToken.Some?
                    && s.cursor.nextToken == res.nextToken
                    && (s.result.Ok? <==> ParseAll(res.items, parse).Ok?)
                    && (s.result.Ok? ==> s.result.value == Some(ParseAll(res.items, parse).value))
                    && (s.result.Err? ==> s.result.error == Parse(ParseAll(res.items, parse).error)))
  {
  }

  /** After a transport failure the token has been consumed, so the next call starts again from the first
      page: it sends the request with no token. */
  lemma TransportErrorRestarts<Q, R, T, P>(c: PagedCursor<Q>, remote: Request<Q> -> Reply<R>,
                                            remote2: Request<Q> -> Reply<R>, parse: R -> Result<T, P>)
    requires c.hasNext && remote(c.request.(nextToken := c.nextToken)).Failed?
    ensures NextPaged(NextPaged(c, remote, parse).cursor, remote2, parse).sent
         == Some(c.request.(nextToken := None))
  {
  }

  /** A page that fails to parse is still consumed: the next call continues after it, with the token of the
      failed page's response. */
  lemma ParseErrorSkipsPage<Q, R, T, P>(c: PagedCursor<Q>, remote: Request<Q> -> Reply<R>,
                                         remote2: Request<Q> -> Reply<R>, parse: R -> Result<T, P>)
    requires c.hasNext
    requires remote(c.request.(nextToken := c.nextToken)).Answered?
    requires remote(c.request.(nextToken := c.nextToken)).response.nextToken.Some?
    requires NextPaged(c, remote, parse).result.Err?
    ensures NextPaged(NextPaged(c, remote, parse).cursor, remote2, parse).sent
         == Some(c.request.(nextToken := remote(c.request.(nextToken := c.nextToken)).response.nextToken))
  {
  }

  /** `next` applied once per remote in `remotes`: the final cursor and each call's result. */
  function RunPaged<Q, R, T, P>(c: PagedCursor<Q>, remotes: seq<Request<Q> -> Reply<R>>, parse: R -> Result<T, P>)
    : (r: (PagedCursor<Q>, seq<Result<Option<seq<T>>, CursorError<P>>>))
    ensures |r.1| == |remotes|
    decreases |remotes|
  {
    if |remotes| == 0 then (c, [])
    else
      var s := NextPaged(c, remotes[0], parse);
      var rest := RunPaged(s.cursor, remotes[1..], parse);
      (rest.0, [s.result] + rest.1)
  }

  /** Exhaustion is permanent: once a page without a token has been received, every later `next`, whatever
      the service would answer, is `Ok(None)` and leaves the cursor as it is. */
  lemma {:induction false} ExhaustedStaysExhausted<Q, R, T, P>(c: PagedCursor<Q>, remotes: seq<Request<Q> -> Reply<R>>,
                                                              parse: R -> Result<T, P>)
    requires !c.hasNext
    ensures RunPaged(c, remotes, parse).0 == c
    ensures forall i :: 0 <= i < |remotes| ==> RunPaged(c, remotes, parse).1[i] == Ok(None)
    decreases |remotes|
  {
    if |remotes| > 0 {
      ExhaustedStaysExhausted(c, remotes[1..], parse);
      var rest := RunPaged(c, remotes[1..], parse);
      assert RunPaged(c, remotes, parse).1 == [Ok(None)] + rest.1;
    }
  }

  /** A tokenless answer exhausts the cursor, so the calls after it are all `Ok(None)`. */
  lemma TokenlessPageExhausts<Q, R, T, P>(c: PagedCursor<Q>, remote: Request<Q> -> Reply<R>,
                                           later: seq<Request<Q> -> Reply<R>>, parse: R -> Result<T, P>)
    requires c.hasNext
    requires remote(c.request.(nextToken := c.nextToken)).Answered?
    requires remote(c.request.(nextToken := c.nextToken)).response.nextToken.None?
    ensures forall i :: 0 <= i < |later| ==> RunPaged(NextPaged(c, remote, parse).cursor, later, parse).1[i] == Ok(None)
  {
    ExhaustedStaysExhausted(NextPaged(c, remote, parse).cursor, later, parse);
  }

  /** `refresh` re-sends the request the last `next` sent, and answers a page even on an exhausted cursor. */
  lemma RefreshResendsLastRequest<Q, R, T, P>(c: PagedCursor<Q>, remote: Request<Q> -> Reply<R>,
                                               again: Request<Q> -> Reply<R>, parse: R -> Result<T, P>)
    requires NextPaged(c, remote, parse).sent.Some?
    ensures Refresh(NextPaged(c, remote, parse).cursor.request, again, parse).sent == NextPaged(c, remote, parse).sent.value
    ensures again(NextPaged(c, remote, parse).sent.value).Answered?
            && ParseAll(again(NextPaged(c, remote, parse).sent.value).response.items, parse).Ok? ==>
              Refresh(NextPaged(c, remote, parse).cursor.request, again, parse).result.Ok?
              && Refresh(NextPaged(c, remote, parse).cursor.request, again, parse).result.value.Some?
  {
  }

  // Event cursor.

  /** `RusotoCwlEventCursor`: the last request and the saved token; there is no exhaustion flag. */
  datatype TokenCursor<Q> = TokenCursor(request: Request<Q>, nextToken: Option<string>)

  datatype TokenStep<Q, T, P> = TokenStep(cursor: TokenCursor<Q>, result: Result<Option<seq<T>>, CursorError<P>>,
                                          sent: Request<Q>)

  /** `RusotoCwlEventCursor::new`. */
  function NewToken<Q>(request: Request<Q>): TokenCursor<Q> {
    TokenCursor(request, None)
  }

  /** `RusotoCwlEventCursor::next`: always sends the stored request with the saved token moved into it; on
      an answer the saved token becomes the response's, before the page is parsed. */
  function NextToken<Q, R, T, P>(c: TokenCursor<Q>, remote: Request<Q> -> Reply<R>, parse: R -> Result<T, P>)
    : TokenStep<Q, T, P>
  {
    var request := c.request.(nextToken := c.nextToken);
    var taken := TokenCursor(request, None);
    match remote(request)
    case Failed(cause) => TokenStep(taken, Err(Transport(cause)), request)
    case Answered(res) =>
      var updated := taken.(nextToken := res.nextToken);
      match ParseAll(res.items, parse)
      case Err(e) => TokenStep(updated, Err(Parse(e)), request)
      case Ok(page) => TokenStep(updated, Ok(Some(page)), request)
  }

  /** Every `next` sends a request carrying the saved token; afterwards the saved token is the response's
      (possibly none, so the following call starts over from the first page), or none after a transport
      failure; a page that fails to parse has still moved the token on. */
  lemma NextTokenSpec<Q, R, T, P>(c: TokenCursor<Q>, remote: Request<Q> -> Reply<R>, parse: R -> Result<T, P>)
    ensures NextToken(c, remote, parse).sent == c.request.(nextToken := c.nextToken)
    ensures NextToken(c, remote, parse).cursor.request == c.request.(nextToken := c.nextToken)
    ensures remote(c.request.(nextToken := c.nextToken)).Failed? ==>
              NextToken(c, remote, parse).cursor.nextToken.None?
              && NextToken(c, remote, parse).result == Err(Transport(remote(c.request.(nextToken := c.nextToken)).cause))
    ensures remote(c.request.(nextToken := c.nextToken)).Answered? ==>
              var res := remote(c.request.(nextToken := c.nextToken)).response;
              && NextToken(c, remote, parse).cursor.nextToken == res.nextToken
              && (NextToken(c, remote, parse).result.Ok? <==> ParseAll(res.items, parse).Ok?)
              && (NextToken(c, remote, parse).result.Ok? ==>
                    NextToken(c, remote, parse).result.value == Some(ParseAll(res.items, parse).value))
  {
  }

  /** After a tokenless answer the following `next` starts over, sending the request with no token. */
  lemma TokenlessAnswerRestarts<Q, R, T, P>(c: TokenCursor<Q>, remote: Request<Q> -> Reply<R>,
                                             remote2: Request<Q> -> Reply<R>, parse: R -> Result<T, P>)
    requires remote(c.request.(nextToken := c.nextToken)).Answered?
    requires remote(c.request.(nextToken := c.nextToken)).response.nextToken.None?
    ensures NextToken(NextToken(c, remote, parse).cursor, remote2, parse).sent == c.request.(nextToken := None)
  {
  }
}
