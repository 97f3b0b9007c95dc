/**
 * The search and document endpoints: turning the index's ranked ids and
 * scores plus the documents fetched for them into the response, and looking
 * up a single document.
 */
module Endpoints {
  import opened Wrappers
  import Json
  import opened Schemas

  /** A stored document as the endpoints read it; `None` metadata stands for a missing value. */
  datatype Document = Document(id: int, content: string, docMetadata: Option<Json.Metadata>)

  /** An error turned into an HTTP status and detail message. */
  datatype HttpError = HttpError(status: int, detail: string)

  const SearchFailedPrefix: string := "Search failed: "
  const DocumentNotFound: string := "Document not found"

  /** `doc.doc_metadata or {}` */
  function MetadataOrEmpty(metadata: Option<Json.Metadata>): Json.Metadata {
    metadata.GetOr(map[])
  }

  /** The result built for a document and its score. */
  function ToResult(doc: Document, score: real): SearchResult {
    SearchResult(doc.id, doc.content, score, MetadataOrEmpty(doc.docMetadata))
  }

  predicate HasId(documents: seq<Document>, id: int) {
    exists i | 0 <= i < |documents| :: documents[i].id == id
  }

  function Ids(documents: seq<Document>): set<int> {
    set d | d in documents :: d.id
  }

  /**
   * `{doc.id: doc for doc in documents}`: the keys are exactly the fetched
   * ids and each maps to a fetched document with that id.
   */
  function DocMap(documents: seq<Document>): (m: map<int, Document>)
    ensures m.Keys == Ids(documents)
    ensures forall id | id in m :: m[id].id == id && m[id] in documents
  {
    if documents == [] then map[]
    else
      var init := documents[..|documents| - 1];
      var last := documents[|documents| - 1];
      assert documents == init + [last];
      assert Ids(documents) == Ids(init) + {last.id};
      DocMap(init)[last.id := last]
  }

  /** A later document with the same id replaces an earlier one: the key maps to the last. */
  lemma {:induction false} DocMapLastWins(documents: seq<Document>, i: nat)
    requires i < |documents|
    requires forall j | i < j < |documents| :: documents[j].id != documents[i].id
    ensures documents[i].id in DocMap(documents) && DocMap(documents)[documents[i].id] == documents[i]
  {
    if i < |documents| - 1 {
      var init := documents[..|documents| - 1];
      assert init[i] == documents[i];
      DocMapLastWins(init, i);
    }
  }

  /**
   * The results built from the first `n` pairs of `zip(doc_ids, scores)`:
   * each pair whose id was fetched contributes one result, in pair order.
   */
  function Assembled(docIds: seq<int>, scores: seq<real>, docMap: map<int, Document>, n: nat): (r: seq<SearchResult>)
    requires n <= |docIds| && n <= |scores|
    ensures |r| <= n
    ensures (forall i | 0 <= i < n :: docIds[i] in docMap) ==> |r| == n
  {
    if n == 0 then []
    else
      Assembled(docIds, scores, docMap, n - 1)
      + (if docIds[n - 1] in docMap then [ToResult(docMap[docIds[n - 1]], scores[n - 1])] else [])
  }

  function Min(a: nat, b: nat): nat {
    if a <= b then a else b
  }

  /** The response the search endpoint builds from the ranked ids and scores and the fetched documents. */
  function AssembledResponse(query: string, scores: seq<real>, docIds: seq<int>, documents: seq<Document>): (r: SearchResponse)
    ensures r.query == query && r.total == |r.results|
    ensures docIds == [] ==> r.results == []
    ensures (forall i | 0 <= i < |docIds| :: docIds[i] in DocMap(documents).Keys) ==> r.total == Min(|docIds|, |scores|)
  {
    if docIds == [] then SearchResponse([], query, 0)
    else
      var results := Assembled(docIds, scores, DocMap(documents), Min(|docIds|, |scores|));
      SearchResponse(results, query, |results|)
  }

  /** The ranked positions among the first `n` whose id was fetched, in increasing order. */
  function Surviving(docIds: seq<int>, keys: set<int>, n: nat): (r: seq<nat>)
    requires n <= |docIds|
    ensures forall j | 0 <= j < |r| :: r[j] < n && docIds[r[j]] in keys
    ensures forall j, k | 0 <= j < k < |r| :: r[j] < r[k]
    ensures forall i | 0 <= i < n && docIds[i] in keys :: i in r
  {
    if n == 0 then []
    else Surviving(docIds, keys, n - 1) + (if docIds[n - 1] in keys then [n - 1] else [])
  }

  /**
   * The results follow the ranked order: the j-th result is built from the
   * j-th surviving position, with that position's id and its score (the
   * score zipped with it), whatever order the documents were fetched in.
   */
  lemma {:induction false} AssembledFollowsRanking(docIds: seq<int>, scores: seq<real>, docMap: map<int, Document>, n: nat)
    requires n <= |docIds| && n <= |scores|
    ensures var r := Assembled(docIds, scores, docMap, n);
      var p := Surviving(docIds, docMap.Keys, n);
      && |r| == |p| <= n
      && forall j | 0 <= j < |r| :: r[j] == ToResult(docMap[docIds[p[j]]], scores[p[j]])
  {
    if n > 0 {
      AssembledFollowsRanking(docIds, scores, docMap, n - 1);
    }
  }

  /** The response echoes the query, and its total is the number of results, at most one per ranked pair. */
  lemma ResponseCountsResults(query: string, scores: seq<real>, docIds: seq<int>, documents: seq<Document>)
    ensures var resp := AssembledResponse(query, scores, docIds, documents);
      && resp.query == query
      && resp.total == |resp.results| <= Min(|docIds|, |scores|)
  {
    if docIds != [] {
      AssembledFollowsRanking(docIds, scores, DocMap(documents), Min(|docIds|, |scores|));
    }
  }

  /**
   * Every result comes from an id the index ranked and a document that was
   * fetched; its id, content and metadata are that document's.
   */
  lemma ResultsComeFromRankedFetchedDocuments(query: string, scores: seq<real>, docIds: seq<int>, documents: seq<Document>)
    ensures var resp := AssembledResponse(query, scores, docIds, documents);
      forall j | 0 <= j < |resp.results| ::
        && resp.results[j].id in docIds
        && exists d | d in documents :: d.id == resp.results[j].id && resp.results[j] == ToResult(d, resp.results[j].score)
  {
    var resp := AssembledResponse(query, scores, docIds, documents);
    if docIds != [] {
      var m := DocMap(documents);
      var n := Min(|docIds|, |scores|);
      AssembledFollowsRanking(docIds, scores, m, n);
      var p := Surviving(docIds, m.Keys, n);
      forall j | 0 <= j < |resp.results|
        ensures resp.results[j].id in docIds
        ensures exists d | d in documents :: d.id == resp.results[j].id && resp.results[j] == ToResult(d, resp.results[j].score)
      {
        var d := m[docIds[p[j]]];
        assert resp.results[j] == ToResult(d, scores[p[j]]);
      }
    }
  }

  /** When the index returns no ids, the response is empty with total 0 and echoes the query. */
  lemma NoIdsGiveEmptyResponse(query: string, scores: seq<real>, documents: seq<Document>)
    ensures AssembledResponse(query, scores, [], documents) == SearchResponse([], query, 0)
  {
  }

  predicate UniqueIds(documents: seq<Document>) {
    forall i, j | 0 <= i < j < |documents| :: documents[i].id != documents[j].id
  }

  /** Among documents with distinct ids, a document is determined by its id. */
  lemma UniqueIdDetermines(documents: seq<Document>, d1: Document, d2: Document)
    requires UniqueIds(documents)
    requires d1 in documents && d2 in documents && d1.id == d2.id
    ensures d1 == d2
  {
    var i :| 0 <= i < |documents| && documents[i] == d1;
    var k :| 0 <= k < |documents| && documents[k] == d2;
    assert i == k;
  }

  /** Two fetches of the same documents with distinct ids give the same mapping. */
  lemma SameDocMap(docs1: seq<Document>, docs2: seq<Document>)
    requires UniqueIds(docs2)
    requires forall d :: d in docs1 <==> d in docs2
    ensures DocMap(docs1) == DocMap(docs2)
  {
    var m1, m2 := DocMap(docs1), DocMap(docs2);
    assert Ids(docs1) == Ids(docs2);
    forall id | id in m1 ensures m1[id] == m2[id] {
      UniqueIdDetermines(docs2, m1[id], m2[id]);
    }
  }

  /**
   * The order the database returns documents in does not matter: two
   * fetches of the same documents, with distinct ids, give the same response.
   */
  lemma FetchOrderIrrelevant(query: string, scores: seq<real>, docIds: seq<int>, docs1: seq<Document>, docs2: seq<Document>)
    requires UniqueIds(docs2)
    requires forall d :: d in docs1 <==> d in docs2
    ensures AssembledResponse(query, scores, docIds, docs1) == AssembledResponse(query, scores, docIds, docs2)
  {
    SameDocMap(docs1, docs2);
  }

  /**
   * The search endpoint after validation and embedding. `hits` is what the
   * index returned, `(scores, doc_ids)`, or the message of the exception
   * raised while embedding the query or searching; `documents` is what the
   * database returned for those ids, or the message of its exception.
   */
  method Search(request: SearchRequest, hits: Result<(seq<real>, seq<int>), string>, documents: Result<seq<Document>, string>)
    returns (r: Result<SearchResponse, HttpError>)
    ensures hits.Failure? ==> r == Failure(HttpError(500, SearchFailedPrefix + hits.error))
    ensures hits.Success? && hits.value.1 == [] ==> r == Success(SearchResponse([], request.query, 0))
    ensures hits.Success? && hits.value.1 != [] && documents.Failure? ==>
              r == Failure(HttpError(500, SearchFailedPrefix + documents.error))
    ensures hits.Success? && documents.Success? ==>
              r == Success(AssembledResponse(request.query, hits.value.0, hits.value.1, documents.value))
  {
    if hits.Failure? {
      return Failure(HttpError(500, SearchFailedPrefix + hits.error));
    }
    var (scores, docIds) := hits.value;
    if docIds == [] {
      return Success(SearchResponse([], request.query, 0));
    }
    if documents.Failure? {
      return Failure(HttpError(500, SearchFailedPrefix + documents.error));
    }
    var docMap := DocMap(documents.value);
    var results: seq<SearchResult> := [];
    var i := 0;
    var n := Min(|docIds|, |scores|);
    while i < n
      invariant 0 <= i <= n
      invariant results == Assembled(docIds, scores, docMap, i)
    {
      var docId, score := docIds[i], scores[i];
      if docId in docMap {
        var doc := docMap[docId];
        results := results + [SearchResult(doc.id, doc.content, score, MetadataOrEmpty(doc.docMetadata))];
      }
      i := i + 1;
    }
    r := Success(SearchResponse(results, request.query, |results|));
  }

  /** The first stored document with the given id, if any (`.first()` of the id filter). */
  function FindDocument(documents: seq<Document>, id: int): (r: Option<Document>)
    ensures r.None? <==> !HasId(documents, id)
    ensures r.Some? ==> r.value.id == id && exists i | 0 <= i < |documents| ::
              documents[i] == r.value && forall j | 0 <= j < i :: documents[j].id != id
  {
    if documents == [] then None
    else if documents[0].id == id then
      Some(documents[0])
    else
      var r := FindDocument(documents[1..], id);
      assert HasId(documents, id) <==> HasId(documents[1..], id) by {
        if HasId(documents, id) {
          var i :| 0 <= i < |documents| && documents[i].id == id;
          assert documents[1..][i - 1] == documents[i];
        }
      }
      if r.Some? then
        var i :| 0 <= i < |documents[1..]| && documents[1..][i] == r.value && forall j | 0 <= j < i :: documents[1..][j].id != id;
        assert documents[i + 1] == r.value;
        assert forall j | 0 <= j < i + 1 :: documents[j].id != id by {
          forall j | 0 <= j < i + 1 ensures documents[j].id != id {
            if j > 0 { assert documents[j] == documents[1..][j - 1]; }
          }
        }
        r
      else r
  }

  /**
   * `get_document`: 404 "Document not found" exactly when no document has
   * the id; otherwise that document as a result with score 1.0.
   */
  function GetDocument(documentId: int, documents: seq<Document>): (r: Result<SearchResult, HttpError>)
    ensures r.Failure? <==> !HasId(documents, documentId)
    ensures r.Failure? ==> r.error == HttpError(404, DocumentNotFound)
    ensures r.Success? ==> r.value.id == documentId && r.value.score == 1.0
    ensures r.Success? ==> exists d | d in documents :: d.id == documentId && r.value == ToResult(d, 1.0)
  {
    match FindDocument(documents, documentId)
    case None => Failure(HttpError(404, DocumentNotFound))
    case Some(doc) => Success(SearchResult(doc.id, doc.content, 1.0, MetadataOrEmpty(doc.docMetadata)))
  }
}
