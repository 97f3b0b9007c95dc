# DeepSearch search core, modelled in Dafny

DeepSearch is a semantic document search service with a React front end.
This project models the core of both halves and proves properties of the model.

**Front end (`deep-search-ui`).** The model covers:

- the search page controller: its eight pieces of state, the search and reset
  handlers that update them, the summary line, the empty state, whether reset
  is offered, and the rotating placeholder;
- the result card: query highlighting, the score badge, and the metadata
  disclosure.

**API (`app`).** The model covers:

- the search endpoint's assembly of ranked results from the index's ids and
  scores and the fetched documents;
- the single-document endpoint;
- the request and response schemas with their field constraints;
- the vector index manager's id bookkeeping, meaning the list that maps index
  positions to document ids.

Modules, one per file:

- `Wrappers`: `Option` and `Result`.
- `Json`: JSON values and metadata mappings.
- `Text`: JavaScript white space, `trim`, `split(/\s+/)`, ASCII lower-casing, and the query tokens.
- `SearchTypes`: the records the browser receives.
- `ResultView`: `Result.tsx`.
- `Home`: `Home.tsx`, as pure transitions plus the `SearchPage` class whose methods are proved against them.
- `Schemas`: `schemas.py`.
- `Endpoints`: `endpoints.py`.
- `FaissIndex`: `faiss_index.py`, with the `IndexManager` class.
- `Pipeline`: how page and API fit together.

Inputs that come from outside the core are parameters:

- the outcome of the `fetch` call;
- the clock reading;
- the raw row the vector index returns for a query;
- the documents the database returns;
- the vector count and id list read from disk.

Two behaviours worth noting:

- **The error on success.** A successful response does not clear the error; it was already cleared when the search began (deep-search-ui/src/pages/Home.tsx:71). `Home.SuccessStoresResponse` states this.
- **Reset while loading.** `handleReset` itself does not look at `loading`, but the reset button is disabled while a request is in flight (deep-search-ui/src/pages/Home.tsx:252). Once a request has been sent, the page has `loading` set and the reset button is disabled, so no reset can be made through the page while that request is in flight (`Home.NoResetWhileRequestInFlight`).

## Model

| member | source | states |
|---|---|---|
| Text.Trim | deep-search-ui/src/components/Result.tsx:15 | the trimmed query is empty exactly when the query is all white space, has no white space at either end, and keeps every non-white-space character of the query |
| Text.TrimStripsOnlyEnds | deep-search-ui/src/components/Result.tsx:15 | the trimmed query is a contiguous slice of the query with only white space cut off before and after it |
| Text.SplitWhitespace | deep-search-ui/src/components/Result.tsx:22 | splitting on runs of white space gives at least one piece and no piece contains white space |
| Text.SplitWhitespaceFirstPiece | deep-search-ui/src/components/Result.tsx:22 | the first piece is non-empty when the input starts with a non-white-space character |
| Text.SplitWhitespaceLastPiece | deep-search-ui/src/components/Result.tsx:22 | the last piece is non-empty when the input ends with a non-white-space character |
| Text.SplitWhitespaceInnerPieces | deep-search-ui/src/components/Result.tsx:22 | every piece between the first and the last is non-empty, so each separator is a maximal run of white space |
| Text.SplitWhitespaceRoundTrip | deep-search-ui/src/components/Result.tsx:22 | the input is its pieces joined by non-empty runs of white space, one between each two neighbouring pieces |
| Text.SplitWhitespaceCovers | deep-search-ui/src/components/Result.tsx:22 | joined together, the pieces are exactly the non-white-space characters of the input |
| Text.TrimEachUnpadded | deep-search-ui/src/components/Result.tsx:23 | trimming each piece leaves pieces without white space unchanged |
| Text.DropEmpty | deep-search-ui/src/components/Result.tsx:24 | `filter(Boolean)` keeps exactly the non-empty pieces: each kept piece is non-empty and taken from the input, every non-empty input piece is kept, and input without empty pieces is returned unchanged |
| Text.DropEmptyAppend | deep-search-ui/src/components/Result.tsx:24 | filtering distributes over concatenation, so the kept pieces stay in their input order |
| Text.DropEmptyConcat | deep-search-ui/src/components/Result.tsx:24 | dropping the empty pieces does not change the joined text |
| Text.Tokens | deep-search-ui/src/components/Result.tsx:21-24 | no token is empty and no token contains white space |
| Text.TokensCoverQuery | deep-search-ui/src/components/Result.tsx:21-24 | the tokens joined together are exactly the non-white-space characters of the query |
| Text.TokensEmptyIffBlank | deep-search-ui/src/components/Result.tsx:17-28 | there are no tokens exactly when the trimmed query is empty, so the second early return is reached only with a blank query |
| Text.TokensAreSplitPieces | deep-search-ui/src/components/Result.tsx:21-24 | for a non-blank query the tokens are exactly the pieces of the trimmed query split on white space |
| Text.TokensRoundTrip | deep-search-ui/src/components/Result.tsx:21-24 | a blank query has no tokens; otherwise the trimmed query is its tokens joined by non-empty runs of white space |
| ResultView.EscapeRegExp | deep-search-ui/src/components/Result.tsx:11-12 | escaping adds exactly one backslash per special character, so the length is the input's length plus the number of special characters |
| ResultView.EscapeRegExpRoundTrip | deep-search-ui/src/components/Result.tsx:11-12 | dropping the inserted backslashes gives back the input |
| ResultView.EscapeRegExpIdentityIffPlain | deep-search-ui/src/components/Result.tsx:11-12 | escaping leaves a string unchanged exactly when it has no special character |
| ResultView.FirstMatchFrom | deep-search-ui/src/components/Result.tsx:30 | the alternation takes the first token, in query order, that occurs case-insensitively at the position, and none when no token occurs there |
| ResultView.SplitFrom | deep-search-ui/src/components/Result.tsx:30 | splitting with a capturing pattern always gives an odd number of parts, plain text around each match |
| ResultView.SplitFromIsHighlightSplit | deep-search-ui/src/components/Result.tsx:30-31 | the split of the content from any scan position is a highlight split of the rest: joined it gives the content back, the part count is odd, even parts contain no match, odd parts are matches |
| ResultView.HighlightMatches | deep-search-ui/src/components/Result.tsx:14-44 | a blank query leaves the content unchanged; otherwise the parts join to the content, their number is odd, and even parts are plain; each odd part is in the content's own casing and equals case-insensitively the first token, in query order, that matches at its position |
| ResultView.HighlightSplitsIffQueryNotBlank | deep-search-ui/src/components/Result.tsx:17-31 | the content is split into parts exactly when the query is not blank |
| ResultView.Clamp01 | deep-search-ui/src/components/Result.tsx:61 | the clamped score lies in [0, 1]; a score inside [0, 1] is kept, one below becomes 0 and one above becomes 1 |
| ResultView.Round | deep-search-ui/src/components/Result.tsx:62 | `Math.round` gives the integer within one half below and strictly less than one half above its argument |
| ResultView.ScorePercentage | deep-search-ui/src/components/Result.tsx:59-63 | the percentage is in 0..100; it is 0 for a non-finite score or a score of at most 0, and 100 for a score of at least 1; otherwise it is the integer nearest to 100 times the score, halves rounded up |
| ResultView.ScorePercentageMonotonic | deep-search-ui/src/components/Result.tsx:59-63 | a higher finite score never shows a lower percentage |
| ResultView.FormattedScore | deep-search-ui/src/components/Result.tsx:65-71 | a formatted score is present exactly when the score is finite, and then shows the score itself |
| ResultView.HasMetadata | deep-search-ui/src/components/Result.tsx:49-52 | the metadata panel exists exactly when metadata is present and has at least one key |
| ResultView.VisibleEntries | deep-search-ui/src/components/Result.tsx:135-136 | entries are listed exactly when the panel is open and there is metadata with a key; every listed entry is a metadata entry with its value, and the open panel lists every key |
| ResultView.MetadataDisclosure.constructor | deep-search-ui/src/components/Result.tsx:47 | a card starts with its metadata collapsed |
| ResultView.MetadataDisclosure.Toggle | deep-search-ui/src/components/Result.tsx:113 | each click flips whether the metadata is shown |
| Home.NextPlaceholder | deep-search-ui/src/pages/Home.tsx:53-57 | the placeholder index steps by one modulo 4 and stays below 4 |
| Home.PlaceholderCycles | deep-search-ui/src/pages/Home.tsx:53-62 | one tick shows the next of the four placeholders, wrapping around, and four ticks come back to the same placeholder |
| Home.SummaryText | deep-search-ui/src/pages/Home.tsx:142-163 | the summary is chosen by priority: not searched, then searching, then failed (error truthy), then no matches (total 0), else all results shown out of `totalResults ?? results.length`; both directions of each case hold, and the singular noun is used exactly when the total is 1 |
| Home.Begin | deep-search-ui/src/pages/Home.tsx:65-83 | a request is sent only for a non-blank query, carrying the trimmed query and `top_k` 10, with loading and the performed flag set; without a request the query is blank and the error is set |
| Home.Complete | deep-search-ui/src/pages/Home.tsx:84-109 | when the request ends loading stops; a total and a completion time are recorded exactly on success; a failure clears the results and sets the error; query, performed flag and placeholder are kept |
| Home.Reset | deep-search-ui/src/pages/Home.tsx:116-123 | reset leaves a blank query, no results, no error and no search performed, keeping loading and the placeholder |
| Home.ShowEmptyState | deep-search-ui/src/pages/Home.tsx:165-166 | the empty state shows only with no results, and then the summary reports no matches or zero results shown |
| Home.CanReset | deep-search-ui/src/pages/Home.tsx:125-129 | when `canReset` holds, reset changes the state; when it does not, the page is still in its not-searched summary before and after a reset |
| Home.ResetEnabled | deep-search-ui/src/pages/Home.tsx:252 | the reset button is enabled only when nothing is loading and a reset would change the state |
| Home.Placeholder | deep-search-ui/src/pages/Home.tsx:62 | the shown placeholder is one of the four fixed placeholder queries |
| Home.NoResetWhileRequestInFlight | deep-search-ui/src/pages/Home.tsx:70-72 | once a request is sent the page is loading and the reset button is disabled |
| Home.BlankQueryOnlySetsError | deep-search-ui/src/pages/Home.tsx:65-68 | a blank query sets the missing-query message, sends no request and changes nothing else |
| Home.NonBlankQueryStartsRequest | deep-search-ui/src/pages/Home.tsx:70-83 | a non-blank query starts loading, clears the error, marks a search as performed and sends the trimmed query with `top_k` 10; results, total, timestamp and query are untouched until the request ends |
| Home.SuccessStoresResponse | deep-search-ui/src/pages/Home.tsx:90-96 | on success the results are the response's in order, the total is the response's `total` or else the number of results, the completion time is recorded, loading stops and the error is left as it was |
| Home.FailureClearsResults | deep-search-ui/src/pages/Home.tsx:86-108 | on failure the error is "Search failed: " plus the status text, the thrown error's message, or the fallback message; results, total and timestamp are cleared and loading stops |
| Home.TransitionsPreserveConsistent | deep-search-ui/src/pages/Home.tsx:92-105 | every handler keeps results, total and timestamp moving together, with the placeholder index in range |
| Home.ResetProperties | deep-search-ui/src/pages/Home.tsx:116-123 | reset clears query, results, error, performed flag, total and timestamp, keeps loading and the placeholder, is idempotent, and leaves nothing to reset |
| Home.EmptyStateMatchesSummary | deep-search-ui/src/pages/Home.tsx:165-166 | when the total agrees with the results, the empty state shows exactly when the summary reports no matches |
| Home.SearchThenSuccessSummary | deep-search-ui/src/pages/Home.tsx:64-109 | a successful search of a non-blank query ends with no error and loading off; the summary reports the response's total, and the empty state shows exactly when there are no results |
| Home.SearchPage.constructor | deep-search-ui/src/pages/Home.tsx:39-46 | the page starts in the initial state, which is consistent |
| Home.SearchPage.SetQuery | deep-search-ui/src/pages/Home.tsx:213 | typing replaces the query and nothing else |
| Home.SearchPage.BeginSearch | deep-search-ui/src/pages/Home.tsx:65-72 | the fields and the request after validation are those of the begin transition |
| Home.SearchPage.CompleteSearch | deep-search-ui/src/pages/Home.tsx:74-108 | the fields after the request ends are those of the completion transition for its outcome |
| Home.SearchPage.HandleSearch | deep-search-ui/src/pages/Home.tsx:64-109 | a blank query stops after validation; otherwise the request is built and its outcome applied, and the state stays consistent |
| Home.SearchPage.HandleReset | deep-search-ui/src/pages/Home.tsx:116-123 | the fields after reset are those of the reset transition |
| Home.SearchPage.TickPlaceholder | deep-search-ui/src/pages/Home.tsx:53-62 | one interval firing advances the placeholder index as the placeholder step does, so the input shows the next placeholder in the list |
| Schemas.ParseSearchRequest | app/api/v1/schemas.py:9-14 | a search payload is accepted exactly when the query is present with at least one character and `top_k` (5 when omitted) is in 1..100; the accepted request keeps the given fields, the filter is absent unless given, and a rejection lists at least one violation |
| Schemas.ParseIngestRequest | app/api/v1/schemas.py:34-38 | an ingest payload is accepted exactly when its content has at least one character; omitted metadata becomes the empty mapping |
| Schemas.NewSearchResult | app/api/v1/schemas.py:17-23 | a result keeps its id, content and score, and omitted metadata becomes the empty mapping |
| Schemas.EmptyQueryRejected | tests/test_search.py:86-97 | an empty query is rejected as too short |
| Schemas.TopKBounds | app/api/v1/schemas.py:13 | `top_k` 0 and 101 are rejected, 100 is accepted, and omitting it gives 5 |
| Endpoints.DocMap | app/api/v1/endpoints.py:53 | the mapping's keys are exactly the fetched ids, and each maps to a fetched document with that id |
| Endpoints.DocMapLastWins | app/api/v1/endpoints.py:53 | when documents share an id, the mapping keeps the last one |
| Endpoints.Assembled | app/api/v1/endpoints.py:55-67 | at most one result per ranked pair, and exactly one per pair when every ranked id was fetched |
| Endpoints.AssembledResponse | app/api/v1/endpoints.py:46-73 | the response echoes the query, its total is its number of results, no ids give no results, and when every ranked id was fetched the total is min(\|doc_ids\|, \|scores\|) |
| Endpoints.AssembledFollowsRanking | app/api/v1/endpoints.py:55-67 | the j-th result comes from the j-th ranked position whose id was fetched, with that position's score, so results follow the index's order and number at most min(\|doc_ids\|, \|scores\|) |
| Endpoints.ResponseCountsResults | app/api/v1/endpoints.py:55-73 | the response echoes the query, and its total equals the number of results, which is at most min(\|doc_ids\|, \|scores\|) |
| Endpoints.ResultsComeFromRankedFetchedDocuments | app/api/v1/endpoints.py:53-66 | every result's id is among the ranked ids, and its id, content and metadata are those of a fetched document |
| Endpoints.NoIdsGiveEmptyResponse | app/api/v1/endpoints.py:46-47 | no ids from the index give no results, total 0 and the query echoed |
| Endpoints.SameDocMap | app/api/v1/endpoints.py:53 | two fetches with the same documents, the second with distinct ids, build the same id-to-document mapping |
| Endpoints.FetchOrderIrrelevant | app/api/v1/endpoints.py:50-67 | two fetches of the same documents, in any order, give the same response when the ids of the second are distinct |
| Endpoints.Search | app/api/v1/endpoints.py:39-76 | a failure of the index search or of the document fetch becomes status 500 with detail "Search failed: " plus the message; no ids give the empty response; otherwise the loop builds the assembled response |
| Endpoints.FindDocument | app/api/v1/endpoints.py:119 | the first document with the id, present exactly when some document has it |
| Endpoints.GetDocument | app/api/v1/endpoints.py:119-129 | 404 "Document not found" exactly when no document has the id; otherwise that document with score 1.0 and its metadata or the empty mapping |
| FaissIndex.PyIndex | app/services/faiss_index.py:96 | a list subscript succeeds exactly for -len..len-1, counting negative subscripts from the back |
| FaissIndex.Passing | app/services/faiss_index.py:96 | the positions kept by the guard `idx < len(self.doc_ids)` are below the bound and come from the row; a row whose positions all pass is kept whole |
| FaissIndex.PassingKeepsEvery | app/services/faiss_index.py:96 | every row position that passes the guard is kept |
| FaissIndex.PassingAppend | app/services/faiss_index.py:96 | the guard works position by position, so filtering distributes over concatenation and keeps row order |
| FaissIndex.LookupIds | app/services/faiss_index.py:96 | as written: the only way the lookup fails is Python's `IndexError` for a list subscript |
| FaissIndex.LookupIdsFailsIff | app/services/faiss_index.py:96 | as written: the lookup fails exactly when some row position is below -len(doc_ids) |
| FaissIndex.LookupIdsFollowsPassing | app/services/faiss_index.py:96 | as written: a successful lookup has one id per position passing the guard `idx < len(self.doc_ids)`, each the list subscripted by that position, so every id returned is a stored id |
| FaissIndex.LookupIdsInRange | app/services/faiss_index.py:96 | as intended: every id returned is a stored id; on a row of stored positions it is exactly the ids at those positions, in row order |
| FaissIndex.LookupAgreesOnNonNegativeRows | app/services/faiss_index.py:96 | without negative positions, the code as written and the intended lookup give the same ids |
| FaissIndex.PaddingRepeatsLastId | app/services/faiss_index.py:96 | as written, a padding position -1 yields the last stored id; the intended lookup skips it |
| FaissIndex.EmptyIndexSearchFails | app/services/faiss_index.py:93-96 | as written, the all-padding row of an empty index raises `IndexError`; the intended lookup returns no ids |
| FaissIndex.PaddedRowAsWritten | app/services/faiss_index.py:96 | as written, ids [7, 8, 9] and row [2, 0, 1, -1, -1] give [9, 7, 8, 9, 9] |
| FaissIndex.PaddedRowIntended | app/services/faiss_index.py:96 | the intended lookup gives [9, 7, 8] for the same row |
| FaissIndex.InRangeIgnoresPadding | app/services/faiss_index.py:96 | the intended lookup ignores any padding at the end of a row |
| FaissIndex.TruncateScores | app/services/faiss_index.py:97 | the scores kept are the first n of the row, or all of them when there are fewer |
| FaissIndex.IndexManager.constructor | app/services/faiss_index.py:17-22 | a new manager has no index and no ids |
| FaissIndex.IndexManager.LoadOrCreate | app/services/faiss_index.py:24-47 | loading takes the stored vector count and the stored ids if the ids file exists, else keeps the ids already held; creating gives an empty index with no ids |
| FaissIndex.IndexManager.AddVectors | app/services/faiss_index.py:61-73 | the ids are appended to the end of the list, with earlier ids unchanged and the vector count growing by the vectors added; alignment of ids and vectors is preserved when the counts match; without an index nothing changes |
| FaissIndex.IndexManager.Search | app/services/faiss_index.py:75-99 | without an index the search fails; otherwise it returns the stored ids of the row, in row order, and a prefix of the score row of the same length when the row and score row are of equal length; it reads the manager and changes nothing |
| FaissIndex.CreateThenAdd | app/services/faiss_index.py:41-72 | after creating an index and adding ids, each added id is found again at its position |
| Pipeline.ClientViewOfResponse | deep-search-ui/src/types/search.ts:1-12 | the page shows the API's `total`; each result keeps its id and content, shows its score, and offers a metadata panel exactly when the API sent metadata with a key |
| Pipeline.PageRequestsAreValid | deep-search-ui/src/pages/Home.tsx:80-83 | every request the page sends passes the API's validation, with the trimmed query and `top_k` 10 |
| Pipeline.RoundTripSummary | app/api/v1/endpoints.py:69-73 | after a search that reaches the API, the page shows no matches or all n results out of n, and the empty state exactly when there are none |

## Left out

- Network, `fetch`, `response.json()` and `async`. The outcome of the request is an input to `Home.SearchPage.HandleSearch`, which applies it at once. Overlapping submissions and their race are not modelled.
- Rendering is not modelled: JSX, CSS classes, animation delays, the search tips, and `tailwind.config.js`.
- Home.CanReset: only one direction is stated. The converse does not hold: reset also changes a state where `canReset` is false, for example a query of only white space, or an error that is the empty string; reset clears both.
- Timing is not modelled. The five-second `setInterval` is one `TickPlaceholder` call per firing. The `PLACEHOLDER_QUERIES.length <= 1` guard is not modelled: it is false for the four fixed entries.
- `Intl.DateTimeFormat` formatting of the completion time is not modelled; the clock reading is an integer parameter.
- ResultView.FormattedScore: models only whether the formatted score is present and the value it shows, not `toFixed(3)`'s decimal rendering.
- ResultView.ScorePercentage: real arithmetic with `Math.round` as floor(x + 0.5); IEEE double rounding is not modelled.
- ResultView.HighlightMatches: matching ignores ASCII case only; Unicode case folding of the `i` flag is not modelled. Tokens are matched as literal text, which is what `escapeRegExp` makes them. The model also does not capture the `Fragment` keys.
- White space is the fixed JavaScript `\s` set; Unicode category lookups are not modelled.
- Home.SearchPage.HandleSearch: JavaScript totals that are numbers but not integers are not modelled (`total` is an optional integer).
- Embedding the query (`app/core/embeddings.py`) and document ingestion (`app/services/ingest.py`, the `/ingest` endpoint) are foreign calls and database writes. They are not part of this model.
- The vector index itself is not modelled. `normalize_L2`, `IndexFlatIP`, `read_index`/`write_index`, `np.save`/`np.load` and `save_index` are foreign calls and file I/O. A search's raw `(scores, positions)` row is an input, and the index is represented by its vector count.
- FaissIndex.IndexManager.Search: uses the intended id lookup. The code as written is `FaissIndex.LookupIds`, which differs on padding (see Findings).
- The database, engine and session (`app/models/document.py`), settings (`app/core/config.py`) and application wiring (`app/main.py`) are not modelled.
- Endpoints.Search: the documents are records whose metadata field is read as `doc_metadata`, as the endpoints do. The table column is named `metadata`; that mismatch is not modelled.
- Endpoints.Search: the `id IN doc_ids` query is an input list of documents, in any order. Pydantic's response validation and `float(score)` are identities over reals.
- The font download script (`deep-search-ui/scripts/download-vazirmatn.mjs`) is file I/O and hashing; it is not part of this model.

## Findings

| source | as written | input that shows it | evidently intended | confidence | as-written member | corrected member |
|---|---|---|---|---|---|---|
| app/services/faiss_index.py:96 | every raw position with `idx < len(self.doc_ids)` is kept, including the -1 the index uses as padding when it holds fewer vectors than `top_k`, and is used as a Python subscript | ids [7, 8, 9] with row [2, 0, 1, -1, -1] give [9, 7, 8, 9, 9], repeating the last document; an empty index answers with only -1, and `doc_ids[-1]` raises `IndexError`, so the search endpoint answers 500 | keep only positions with `0 <= idx < len(self.doc_ids)`: [9, 7, 8], and no ids for an empty index | high, not executed | FaissIndex.LookupIds | FaissIndex.LookupIdsInRange |
