/** The records the browser receives from the search API. */
module SearchTypes {
  import opened Wrappers
  import Json

  /**
   * A JavaScript number used as a relevance score: its value when finite,
   * and whether it is finite at all (`NaN` and the infinities are not).
   */
  datatype Score = Score(value: real, isFinite: bool)

  /**
   * One ranked result. The declared metadata type is a record, but the view
   * guards against a missing one with `?? {}`, so `None` stands for
   * `null`/`undefined` arriving at run time.
   */
  datatype SearchResult = SearchResult(id: int, content: string, score: Score, metadata: Option<Json.Metadata>)

  /** A search response; `total` is optional. */
  datatype SearchResponse = SearchResponse(results: seq<SearchResult>, query: string, total: Option<int>)
}
