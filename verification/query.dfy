/** `Query` of query.rs: a non-empty search word entered in the header. */
module Query {
  import opened Wrappers

  datatype Query = Query(word: string)

  /** `query_from`: the empty text is no query; any other text is a query on exactly that text. */
  function QueryFrom(s: string): (r: Option<Query>)
    ensures r.None? <==> |s| == 0
    ensures r.Some? ==> r.value.word == s
  {
    if |s| == 0 then None else Some(Query(s))
  }

  /** `Query::word`. */
  function Word(q: Query): string {
    q.word
  }

  /** `Into<String> for Query`. */
  function IntoString(q: Query): string {
    q.word
  }

  /** Building a query from non-empty text and converting it back gives the text, and no query built by
      `QueryFrom` has an empty word. */
  lemma QueryRoundTrip(s: string)
    ensures QueryFrom(s).Some? ==> IntoString(QueryFrom(s).value) == s && Word(QueryFrom(s).value) == s
    ensures QueryFrom(s).Some? ==> |Word(QueryFrom(s).value)| > 0
  {
  }

  /** A query is determined by its word: distinct texts give distinct queries. */
  lemma QueryFromInjective(a: string, b: string)
    requires QueryFrom(a) == QueryFrom(b)
    ensures a == b
  {
  }
}
