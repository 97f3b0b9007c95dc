/**
 * The search page controller: the page's eight pieces of state, the search
 * and reset handlers that update them, and the values derived from them
 * (summary line, empty state, whether reset is offered, placeholder).
 */
module Home {
  import opened Wrappers
  import opened Text
  import opened SearchTypes

  /** The rotating input placeholders. */
  const PlaceholderQueries: seq<string> := [
    "Summaries about climate risk in 2024 reports",
    "Customer feedback mentioning onboarding issues",
    "Research insights on generative AI breakthroughs",
    "Key takeaways from quarterly financial filings"
  ]

  /** The `top_k` every request asks for. */
  const RequestTopK: int := 10

  const MissingQueryMessage: string := "لطفاً عبارت جست‌وجو را وارد کنید."
  const FallbackMessage: string := "در حین دریافت نتایج خطایی رخ داد."
  const SearchFailedPrefix: string := "Search failed: "

  /** A clock reading, supplied by the caller in place of `new Date()`. */
  type Timestamp = int

  /** The JSON body of the search request. */
  datatype RequestBody = RequestBody(query: string, topK: int)

  /**
   * How the request ended: a parsed response, a response whose status was
   * not ok, or a thrown value (`Some(message)` for an `Error`, `None` for
   * anything else).
   */
  datatype Outcome =
    | Ok(response: SearchResponse)
    | HttpNotOk(statusText: string)
    | Thrown(message: Option<string>)

  /** A snapshot of the page's state. */
  datatype PageState = PageState(
    query: string,
    results: seq<SearchResult>,
    loading: bool,
    error: Option<string>,
    searchPerformed: bool,
    totalResults: Option<int>,
    lastUpdated: Option<Timestamp>,
    placeholderIndex: nat)

  function Initial(): PageState {
    PageState("", [], false, None, false, None, None, 0)
  }

  /** JavaScript truthiness of the error: set and not the empty string. */
  predicate Truthy(error: Option<string>) {
    error.Some? && error.value != ""
  }

  /**
   * Results, total and timestamp move together: a total is known exactly
   * when a completion time is, results exist only alongside a total, and the
   * placeholder index is in range.
   */
  predicate Consistent(s: PageState) {
    && (s.totalResults.Some? <==> s.lastUpdated.Some?)
    && (s.totalResults.None? ==> s.results == [])
    && s.placeholderIndex < |PlaceholderQueries|
  }

  // ---------------------------------------------------------------------------
  // Transitions (specifications of the handlers)
  // ---------------------------------------------------------------------------

  /** The input's change handler. */
  function UpdateQuery(s: PageState, text: string): PageState {
    s.(query := text)
  }

  /**
   * The synchronous part of `handleSearch`: a blank query only records the
   * missing-query error and builds no request; otherwise the page starts
   * loading, clears the error, marks a search as performed and builds the
   * request with the trimmed query.
   */
  function Begin(s: PageState): (r: (PageState, Option<RequestBody>))
    ensures r.1.Some? ==> r.1.value == RequestBody(Trim(s.query), RequestTopK) && r.0.loading && r.0.searchPerformed
    ensures r.1.None? ==> Trim(s.query) == [] && Truthy(r.0.error)
  {
    if Trim(s.query) == [] then
      (s.(error := Some(MissingQueryMessage)), None)
    else
      (s.(loading := true, error := None, searchPerformed := true),
       Some(RequestBody(Trim(s.query), RequestTopK)))
  }

  /** The message stored for a failed request. */
  function FailureMessage(outcome: Outcome): string
    requires !outcome.Ok?
  {
    match outcome
    case HttpNotOk(statusText) => SearchFailedPrefix + statusText
    case Thrown(Some(message)) => message
    case Thrown(None) => FallbackMessage
  }

  /** The total shown for a response: its `total` when it is a number, else the result count. */
  function ResponseTotal(response: SearchResponse): int {
    match response.total
    case Some(t) => t
    case None => |response.results|
  }

  /** The asynchronous part of `handleSearch`, once the request has ended at time `now`. */
  function Complete(s: PageState, outcome: Outcome, now: Timestamp): (r: PageState)
    ensures !r.loading
    ensures r.totalResults.Some? <==> outcome.Ok?
    ensures r.lastUpdated.Some? <==> outcome.Ok?
    ensures !outcome.Ok? ==> r.results == [] && r.error.Some?
    ensures r.query == s.query && r.searchPerformed == s.searchPerformed && r.placeholderIndex == s.placeholderIndex
  {
    match outcome
    case Ok(response) =>
      s.(results := response.results, totalResults := Some(ResponseTotal(response)),
         lastUpdated := Some(now), loading := false)
    case _ =>
      s.(error := Some(FailureMessage(outcome)), results := [], totalResults := None,
         lastUpdated := None, loading := false)
  }

  /** `handleReset` */
  function Reset(s: PageState): (r: PageState)
    ensures Trim(r.query) == [] && r.results == [] && !Truthy(r.error) && !r.searchPerformed
    ensures r.loading == s.loading && r.placeholderIndex == s.placeholderIndex
  {
    s.(query := "", results := [], error := None, searchPerformed := false,
       totalResults := None, lastUpdated := None)
  }

  /** The placeholder timer's step: the next index, wrapping to 0 after the last. */
  function NextPlaceholder(i: nat): (r: nat)
    ensures r < |PlaceholderQueries|
    ensures i < |PlaceholderQueries| ==> r == (i + 1) % |PlaceholderQueries|
  {
    if i + 1 >= |PlaceholderQueries| then 0 else i + 1
  }

  function Tick(s: PageState): PageState {
    s.(placeholderIndex := NextPlaceholder(s.placeholderIndex))
  }

  // ---------------------------------------------------------------------------
  // Derived values
  // ---------------------------------------------------------------------------

  /** The summary line's cases; `Showing` uses the singular noun when `singular`. */
  datatype Summary =
    | NotSearched
    | Searching
    | Failed
    | NoMatches
    | Showing(shown: nat, total: int, singular: bool)

  /** `totalResults ?? results.length` */
  function EffectiveTotal(s: PageState): int {
    s.totalResults.GetOr(|s.results|)
  }

  /**
   * `summaryText`, chosen by priority: not searched, then loading, then an
   * error, then a zero total, else "showing |results| of total".
   */
  function SummaryText(s: PageState): (r: Summary)
    ensures r == NotSearched <==> !s.searchPerformed
    ensures r == Searching <==> s.searchPerformed && s.loading
    ensures r == Failed <==> s.searchPerformed && !s.loading && Truthy(s.error)
    ensures r == NoMatches <==> s.searchPerformed && !s.loading && !Truthy(s.error) && EffectiveTotal(s) == 0
    ensures r.Showing? ==> r.shown == |s.results| && r.total == EffectiveTotal(s) && r.total != 0
    ensures r.Showing? ==> (r.singular <==> r.total == 1)
  {
    if !s.searchPerformed then NotSearched
    else if s.loading then Searching
    else if Truthy(s.error) then Failed
    else
      var total := EffectiveTotal(s);
      if total == 0 then NoMatches
      else Showing(|s.results|, total, total == 1)
  }

  /** `showEmptyState` */
  function ShowEmptyState(s: PageState): (r: bool)
    ensures r ==> SummaryText(s) == NoMatches || SummaryText(s) == Showing(0, EffectiveTotal(s), EffectiveTotal(s) == 1)
    ensures r ==> s.results == []
  {
    s.searchPerformed && !s.loading && |s.results| == 0 && !Truthy(s.error)
  }

  /** `canReset` */
  function CanReset(s: PageState): (r: bool)
    ensures r ==> Reset(s) != s
    ensures !r ==> SummaryText(Reset(s)) == SummaryText(s) == NotSearched
  {
    |Trim(s.query)| > 0 || |s.results| > 0 || Truthy(s.error) || s.searchPerformed
  }

  /** The reset button is enabled when there is something to reset and nothing is loading. */
  function ResetEnabled(s: PageState): (r: bool)
    ensures r ==> !s.loading && Reset(s) != s
  {
    CanReset(s) && !s.loading
  }

  /** The placeholder currently shown in the input. */
  function Placeholder(s: PageState): (r: string)
    requires s.placeholderIndex < |PlaceholderQueries|
    ensures r in PlaceholderQueries
  {
    PlaceholderQueries[s.placeholderIndex]
  }

  // ---------------------------------------------------------------------------
  // Properties
  // ---------------------------------------------------------------------------

  /** A blank query sets the missing-query error, sends nothing and changes nothing else. */
  lemma BlankQueryOnlySetsError(s: PageState)
    requires AllWhitespace(s.query)
    ensures Begin(s).1 == None
    ensures Begin(s).0.error == Some(MissingQueryMessage) && Truthy(Begin(s).0.error)
    ensures Begin(s).0.(error := s.error) == s
  {
  }

  /**
   * A non-blank query starts loading with no error, marks a search as
   * performed and sends the trimmed query with `top_k` 10; results, total,
   * timestamp and query are untouched until the request ends.
   */
  lemma NonBlankQueryStartsRequest(s: PageState)
    requires !AllWhitespace(s.query)
    ensures Begin(s).1 == Some(RequestBody(Trim(s.query), 10))
    ensures Begin(s).1.value.query != [] && NoWhitespaceAtEnds(Begin(s).1.value.query)
    ensures var t := Begin(s).0;
      t.loading && t.error == None && t.searchPerformed
      && t.results == s.results && t.totalResults == s.totalResults
      && t.lastUpdated == s.lastUpdated && t.query == s.query
      && SummaryText(t) == Searching
  {
  }

  predicate NoWhitespaceAtEnds(q: string) {
    q == [] || (!IsWhitespace(q[0]) && !IsWhitespace(q[|q| - 1]))
  }

  /**
   * On success the results are the response's, in order; the total is the
   * response's `total`, or the number of results when it has none; the
   * completion time is recorded and loading stops. The error is left as
   * the begin step set it.
   */
  lemma SuccessStoresResponse(s: PageState, response: SearchResponse, now: Timestamp)
    ensures var t := Complete(s, Ok(response), now);
      && t.results == response.results
      && (response.total.None? ==> t.totalResults == Some(|response.results|))
      && (response.total.Some? ==> t.totalResults == response.total)
      && t.lastUpdated == Some(now)
      && !t.loading && t.error == s.error
  {
  }

  /**
   * Any failure stores its message (the status text after "Search failed: ",
   * the thrown error's message, or the fallback), clears results, total and
   * timestamp, and stops loading.
   */
  lemma FailureClearsResults(s: PageState, outcome: Outcome, now: Timestamp)
    requires !outcome.Ok?
    ensures var t := Complete(s, outcome, now);
      && t.results == [] && t.totalResults == None && t.lastUpdated == None && !t.loading
      && (outcome.HttpNotOk? ==> t.error == Some(SearchFailedPrefix + outcome.statusText) && Truthy(t.error))
      && (outcome.Thrown? && outcome.message.Some? ==> t.error == outcome.message)
      && (outcome.Thrown? && outcome.message.None? ==> t.error == Some(FallbackMessage))
  {
  }

  /** Every handler keeps results, total and timestamp consistent. */
  lemma TransitionsPreserveConsistent(s: PageState, text: string, outcome: Outcome, now: Timestamp)
    requires Consistent(s)
    ensures Consistent(Initial())
    ensures Consistent(UpdateQuery(s, text))
    ensures Consistent(Begin(s).0)
    ensures Consistent(Complete(s, outcome, now))
    ensures Consistent(Reset(s))
    ensures Consistent(Tick(s))
  {
    BeginKeepsConsistent(s);
    CompleteKeepsConsistent(s, outcome, now);
  }

  lemma BeginKeepsConsistent(s: PageState)
    requires Consistent(s)
    ensures Consistent(Begin(s).0)
  {
    var b := Begin(s).0;
    assert b.totalResults == s.totalResults && b.lastUpdated == s.lastUpdated && b.results == s.results;
  }

  lemma CompleteKeepsConsistent(s: PageState, outcome: Outcome, now: Timestamp)
    requires Consistent(s)
    ensures Consistent(Complete(s, outcome, now))
  {
    var c := Complete(s, outcome, now);
    if outcome.Ok? {
      assert c.totalResults.Some? && c.lastUpdated.Some?;
    } else {
      assert c.totalResults == None && c.lastUpdated == None && c.results == [];
    }
  }

  /** Resetting clears everything but loading and the placeholder, and doing it twice is doing it once. */
  lemma ResetProperties(s: PageState)
    ensures var t := Reset(s);
      && t.query == "" && t.results == [] && t.error == None && !t.searchPerformed
      && t.totalResults == None && t.lastUpdated == None
      && t.loading == s.loading && t.placeholderIndex == s.placeholderIndex
      && Reset(t) == t
      && !CanReset(t)
      && SummaryText(t) == NotSearched
  {
  }

  /** The empty state is shown exactly when the summary reports no matches, when the total agrees with the results. */
  lemma EmptyStateMatchesSummary(s: PageState)
    requires s.totalResults.None? || s.totalResults == Some(|s.results|)
    ensures ShowEmptyState(s) <==> SummaryText(s) == NoMatches
  {
  }

  /**
   * A full successful search of a non-blank query leaves no error and loading
   * off, and the summary reports the response: no matches for a zero total,
   * otherwise all results shown out of the total.
   */
  lemma SearchThenSuccessSummary(s: PageState, response: SearchResponse, now: Timestamp)
    requires !AllWhitespace(s.query)
    ensures var t := Complete(Begin(s).0, Ok(response), now);
      && t.error == None && !t.loading && t.searchPerformed
      && SummaryText(t) == (if ResponseTotal(response) == 0 then NoMatches
                            else Showing(|response.results|, ResponseTotal(response), ResponseTotal(response) == 1))
      && (ShowEmptyState(t) <==> response.results == [])
  {
  }

  /** Each tick shows the next placeholder in the list, and four ticks come back to the same one. */
  lemma PlaceholderCycles(s: PageState)
    requires s.placeholderIndex < |PlaceholderQueries|
    ensures Placeholder(Tick(s)) == PlaceholderQueries[(s.placeholderIndex + 1) % |PlaceholderQueries|]
    ensures Tick(Tick(Tick(Tick(s)))) == s
  {
  }

  /**
   * Once a request has been sent, the page is loading and the reset button
   * is disabled, so the response cannot land after a reset made with it.
   */
  lemma NoResetWhileRequestInFlight(s: PageState)
    ensures Begin(s).1.Some? ==> Begin(s).0.loading && !ResetEnabled(Begin(s).0)
  {
  }

  // ---------------------------------------------------------------------------
  // The page component
  // ---------------------------------------------------------------------------

  /** The page's state hooks and handlers. */
  class SearchPage {
    var query: string
    var results: seq<SearchResult>
    var loading: bool
    var error: Option<string>
    var searchPerformed: bool
    var totalResults: Option<int>
    var lastUpdated: Option<Timestamp>
    var placeholderIndex: nat

    function State(): PageState
      reads this
    {
      PageState(query, results, loading, error, searchPerformed, totalResults, lastUpdated, placeholderIndex)
    }

    predicate Valid()
      reads this
    {
      Consistent(State())
    }

    constructor ()
      ensures State() == Initial() && Valid()
    {
      query := "";
      results := [];
      loading := false;
      error := None;
      searchPerformed := false;
      totalResults := None;
      lastUpdated := None;
      placeholderIndex := 0;
    }

    /** The input's `onChange`. */
    method SetQuery(text: string)
      requires Valid()
      modifies this
      ensures Valid() && State() == UpdateQuery(old(State()), text)
    {
      query := text;
    }

    /** Validation and the updates made before the request is sent; returns the request, if any. */
    method BeginSearch() returns (request: Option<RequestBody>)
      requires Valid()
      modifies this
      ensures Valid() && State() == Begin(old(State())).0 && request == Begin(old(State())).1
    {
      var trimmed := Trim(query);
      if trimmed == [] {
        error := Some(MissingQueryMessage);
        request := None;
      } else {
        loading := true;
        error := None;
        searchPerformed := true;
        request := Some(RequestBody(trimmed, RequestTopK));
      }
    }

    /** The updates made when the request ends, in the `try`, `catch` and `finally` blocks. */
    method CompleteSearch(outcome: Outcome, now: Timestamp)
      requires Valid()
      modifies this
      ensures Valid() && State() == Complete(old(State()), outcome, now)
    {
      match outcome {
        case Ok(response) =>
          results := response.results;
          totalResults := Some(if response.total.Some? then response.total.value else |response.results|);
          lastUpdated := Some(now);
        case _ =>
          error := Some(FailureMessage(outcome));
          results := [];
          totalResults := None;
          lastUpdated := None;
      }
      loading := false;
    }

    /**
     * `handleSearch` with the request's fate given as `outcome`: a blank
     * query stops after validation; otherwise the request is sent and its
     * outcome applied.
     */
    method HandleSearch(outcome: Outcome, now: Timestamp) returns (request: Option<RequestBody>)
      requires Valid()
      modifies this
      ensures Valid()
      ensures request == Begin(old(State())).1
      ensures request.None? ==> State() == Begin(old(State())).0
      ensures request.Some? ==> State() == Complete(Begin(old(State())).0, outcome, now)
    {
      request := BeginSearch();
      if request.Some? {
        CompleteSearch(outcome, now);
      }
    }

    /** `handleReset` */
    method HandleReset()
      requires Valid()
      modifies this
      ensures Valid() && State() == Reset(old(State()))
    {
      query := "";
      results := [];
      error := None;
      searchPerformed := false;
      totalResults := None;
      lastUpdated := None;
    }

    /** One firing of the placeholder interval. */
    method TickPlaceholder()
      requires Valid()
      modifies this
      ensures Valid() && State() == Tick(old(State()))
      ensures Placeholder(State()) == PlaceholderQueries[(old(placeholderIndex) + 1) % |PlaceholderQueries|]
    {
      placeholderIndex := if placeholderIndex + 1 >= |PlaceholderQueries| then 0 else placeholderIndex + 1;
    }
  }
}
