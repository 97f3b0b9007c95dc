/**
 * The API's request and response records and their field constraints:
 * which payloads are accepted, and the defaults filled in for omitted fields.
 */
module Schemas {
  import opened Wrappers
  import Json

  datatype SearchRequest = SearchRequest(query: string, topK: int, filter: Option<Json.Metadata>)
  datatype SearchResult = SearchResult(id: int, content: string, score: real, metadata: Json.Metadata)
  datatype SearchResponse = SearchResponse(results: seq<SearchResult>, query: string, total: int)
  datatype IngestRequest = IngestRequest(content: string, metadata: Json.Metadata)
  datatype IngestResponse = IngestResponse(id: int, message: string)

  /** A request body as received; `None` marks an omitted (or null, for `filter`) field. */
  datatype SearchPayload = SearchPayload(query: Option<string>, topK: Option<int>, filter: Option<Json.Metadata>)
  datatype IngestPayload = IngestPayload(content: Option<string>, metadata: Option<Json.Metadata>)

  /** One violated field constraint; all of them are reported together. */
  datatype FieldError =
    | Missing(field: string)
    | TooShort(field: string, minLength: nat)
    | TooSmall(field: string, minimum: int)
    | TooLarge(field: string, maximum: int)

  const DefaultTopK: int := 5
  const MinTopK: int := 1
  const MaxTopK: int := 100

  /** The constraints on a search request: a query of at least one character and `top_k` in 1..100. */
  predicate ValidSearchRequest(r: SearchRequest) {
    |r.query| >= 1 && MinTopK <= r.topK <= MaxTopK
  }

  /** The constraint on an ingest request: content of at least one character. */
  predicate ValidIngestRequest(r: IngestRequest) {
    |r.content| >= 1
  }

  /** The constraint violations of a search payload, field by field. */
  function SearchPayloadErrors(p: SearchPayload): seq<FieldError> {
    (match p.query
     case None => [Missing("query")]
     case Some(q) => if |q| < 1 then [TooShort("query", 1)] else [])
    + (var k := p.topK.GetOr(DefaultTopK);
       if k < MinTopK then [TooSmall("top_k", MinTopK)]
       else if k > MaxTopK then [TooLarge("top_k", MaxTopK)]
       else [])
  }

  /**
   * Validation of a search payload: accepted exactly when the query is
   * present and non-empty and `top_k` (5 when omitted) lies in 1..100; the
   * accepted request keeps the given fields and defaults the rest.
   */
  function ParseSearchRequest(p: SearchPayload): (r: Result<SearchRequest, seq<FieldError>>)
    ensures r.Success? <==> p.query.Some? && |p.query.value| >= 1 && 1 <= p.topK.GetOr(5) <= 100
    ensures r.Success? ==> ValidSearchRequest(r.value)
    ensures r.Success? ==> r.value.query == p.query.value && r.value.filter == p.filter
    ensures r.Success? ==> r.value.topK == (if p.topK.Some? then p.topK.value else 5)
    ensures r.Failure? ==> r.error != []
  {
    var errors := SearchPayloadErrors(p);
    if errors != [] then Failure(errors)
    else Success(SearchRequest(p.query.value, p.topK.GetOr(DefaultTopK), p.filter))
  }

  /**
   * Validation of an ingest payload: accepted exactly when the content is
   * present and non-empty; omitted metadata becomes the empty mapping.
   */
  function ParseIngestRequest(p: IngestPayload): (r: Result<IngestRequest, seq<FieldError>>)
    ensures r.Success? <==> p.content.Some? && |p.content.value| >= 1
    ensures r.Success? ==> ValidIngestRequest(r.value) && r.value.content == p.content.value
    ensures r.Success? ==> r.value.metadata == (if p.metadata.Some? then p.metadata.value else map[])
    ensures r.Failure? ==> r.error != []
  {
    match p.content
    case None => Failure([Missing("content")])
    case Some(c) =>
      if |c| < 1 then Failure([TooShort("content", 1)])
      else Success(IngestRequest(c, p.metadata.GetOr(map[])))
  }

  /** A search result built with its metadata omitted gets the empty mapping. */
  function NewSearchResult(id: int, content: string, score: real, metadata: Option<Json.Metadata>): (r: SearchResult)
    ensures r.id == id && r.content == content && r.score == score
    ensures metadata.None? ==> r.metadata == map[]
    ensures metadata.Some? ==> r.metadata == metadata.value
  {
    SearchResult(id, content, score, metadata.GetOr(map[]))
  }

  /** An empty query is rejected, with or without a valid `top_k`. */
  lemma EmptyQueryRejected(topK: Option<int>, filter: Option<Json.Metadata>)
    ensures ParseSearchRequest(SearchPayload(Some(""), topK, filter)).Failure?
    ensures TooShort("query", 1) in ParseSearchRequest(SearchPayload(Some(""), topK, filter)).error
  {
  }

  /** `top_k` of 0 is rejected; omitting it gives 5. */
  lemma TopKBounds(query: string)
    requires |query| >= 1
    ensures ParseSearchRequest(SearchPayload(Some(query), Some(0), None)).Failure?
    ensures ParseSearchRequest(SearchPayload(Some(query), Some(101), None)).Failure?
    ensures ParseSearchRequest(SearchPayload(Some(query), Some(100), None)).Success?
    ensures ParseSearchRequest(SearchPayload(Some(query), None, None)) == Success(SearchRequest(query, 5, None))
  {
  }
}
