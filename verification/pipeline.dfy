/**
 * The page and the API together: the request the page sends is one the API
 * accepts, and the response the API assembles, as the page reads it, is
 * summarised as all of its results out of a total equal to their number.
 */
module Pipeline {
  import opened Wrappers
  import Text
  import Schemas
  import SearchTypes
  import Endpoints
  import Home
  import ResultView

  /** The API's search result as the page decodes it: every score is a finite number and metadata is present. */
  function ToClientResult(r: Schemas.SearchResult): SearchTypes.SearchResult {
    SearchTypes.SearchResult(r.id, r.content, SearchTypes.Score(r.score, true), Some(r.metadata))
  }

  /** The API's search response as the page decodes it; `total` is always present. */
  function ToClientResponse(r: Schemas.SearchResponse): (c: SearchTypes.SearchResponse)
    ensures |c.results| == |r.results| && c.query == r.query && c.total == Some(r.total)
    ensures forall j | 0 <= j < |c.results| :: c.results[j] == ToClientResult(r.results[j])
  {
    SearchTypes.SearchResponse(seq(|r.results|, j requires 0 <= j < |r.results| => ToClientResult(r.results[j])),
                               r.query, Some(r.total))
  }

  /**
   * What the page makes of the API's response: the total it shows is the
   * API's `total`, and each result keeps its id and content, shows its
   * score, and offers its metadata exactly when the API sent some.
   */
  lemma ClientViewOfResponse(r: Schemas.SearchResponse)
    ensures Home.ResponseTotal(ToClientResponse(r)) == r.total
    ensures |ToClientResponse(r).results| == |r.results|
    ensures forall j | 0 <= j < |r.results| ::
      var c := ToClientResponse(r).results[j];
      && c.id == r.results[j].id && c.content == r.results[j].content
      && ResultView.FormattedScore(c.score) == Some(r.results[j].score)
      && (ResultView.HasMetadata(c.metadata) <==> r.results[j].metadata != map[])
  {
    forall j | 0 <= j < |r.results|
      ensures ResultView.HasMetadata(ToClientResponse(r).results[j].metadata) <==> r.results[j].metadata != map[]
    {
      var m := r.results[j].metadata;
      if m != map[] {
        var key :| key in m;
      }
    }
  }

  /** The payload the API receives for the page's request body. */
  function Payload(body: Home.RequestBody): Schemas.SearchPayload {
    Schemas.SearchPayload(Some(body.query), Some(body.topK), None)
  }

  /**
   * Whenever the page sends a request, the API's validation accepts it,
   * keeping the trimmed query and asking for 10 results.
   */
  lemma PageRequestsAreValid(s: Home.PageState)
    ensures var (_, request) := Home.Begin(s);
      request.Some? ==>
        Schemas.ParseSearchRequest(Payload(request.value))
          == Success(Schemas.SearchRequest(Text.Trim(s.query), Home.RequestTopK, None))
  {
  }

  /**
   * A search that reaches the API and comes back: the page shows no matches
   * when the API found none, and otherwise all of the returned results out
   * of a total equal to their number; the empty state appears exactly when
   * there are no results.
   */
  lemma RoundTripSummary(s: Home.PageState, scores: seq<real>, docIds: seq<int>, documents: seq<Endpoints.Document>, now: Home.Timestamp)
    requires !Text.AllWhitespace(s.query)
    ensures var api := Endpoints.AssembledResponse(Text.Trim(s.query), scores, docIds, documents);
      var t := Home.Complete(Home.Begin(s).0, Home.Ok(ToClientResponse(api)), now);
      var n := |api.results|;
      && Home.SummaryText(t) == (if n == 0 then Home.NoMatches else Home.Showing(n, n, n == 1))
      && (Home.ShowEmptyState(t) <==> n == 0)
  {
    var api := Endpoints.AssembledResponse(Text.Trim(s.query), scores, docIds, documents);
    Endpoints.ResponseCountsResults(Text.Trim(s.query), scores, docIds, documents);
    var response := ToClientResponse(api);
    assert Home.ResponseTotal(response) == |api.results| == |response.results|;
    Home.SearchThenSuccessSummary(s, response, now);
  }
}
