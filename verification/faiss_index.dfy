/**
 * The id bookkeeping of the vector index manager: the list that maps each
 * vector's position in the index to the id of the document it was built
 * from, how loading, creating and adding vectors change it, and how a raw
 * row of index positions returned by a nearest-neighbour search is turned
 * into document ids and scores.
 *
 * The index itself is an oracle: only the number of vectors it holds is
 * kept, and a search hands back its raw `(scores, positions)` row. The index
 * pads a row with position -1 when it holds fewer vectors than were asked for.
 */
module FaissIndex {
  import opened Wrappers

  /** The message of Python's `IndexError` for a list subscript out of range. */
  const IndexOutOfRange: string := "list index out of range"
  /** The message of the `AttributeError` raised when searching before any index was loaded or created. */
  const NoIndex: string := "'NoneType' object has no attribute 'search'"

  /** The position the index uses to pad a row that has fewer hits than asked for. */
  const Padding: int := -1

  /**
   * Python's `xs[i]` on a list: a non-negative `i` counts from the front, a
   * negative one from the back; anything else raises `IndexError` (`None`).
   */
  function PyIndex(xs: seq<int>, i: int): (r: Option<int>)
    ensures r.Some? <==> -|xs| <= i < |xs|
    ensures 0 <= i < |xs| ==> r == Some(xs[i])
    ensures -|xs| <= i < 0 ==> r == Some(xs[|xs| + i])
  {
    if 0 <= i < |xs| then Some(xs[i])
    else if -|xs| <= i < 0 then Some(xs[|xs| + i])
    else None
  }

  /** The raw positions that pass the guard `idx < len(doc_ids)`, in row order. */
  function Passing(row: seq<int>, n: nat): (r: seq<int>)
    ensures |r| <= |row|
    ensures forall j | 0 <= j < |r| :: r[j] < n && r[j] in row
    ensures (forall k | 0 <= k < |row| :: row[k] < n) ==> r == row
  {
    if row == [] then []
    else
      var rest := Passing(row[1..], n);
      assert forall k | 1 <= k < |row| :: row[k] == row[1..][k - 1];
      (if row[0] < n then [row[0]] else []) + rest
  }

  /** No position that passes the guard is dropped. */
  lemma {:induction false} PassingKeepsEvery(row: seq<int>, n: nat)
    ensures forall k | 0 <= k < |row| && row[k] < n :: row[k] in Passing(row, n)
  {
    if row != [] {
      PassingKeepsEvery(row[1..], n);
      forall k | 0 <= k < |row| && row[k] < n
        ensures row[k] in Passing(row, n)
      {
        if k > 0 {
          assert row[k] == row[1..][k - 1];
        }
      }
    }
  }

  /** The filter works position by position, so it distributes over concatenation and keeps order. */
  lemma {:induction false} PassingAppend(a: seq<int>, b: seq<int>, n: nat)
    ensures Passing(a + b, n) == Passing(a, n) + Passing(b, n)
  {
    if a == [] {
      assert a + b == b;
    } else {
      assert (a + b)[1..] == a[1..] + b;
      PassingAppend(a[1..], b, n);
    }
  }

  /**
   * The id lookup AS WRITTEN: every raw position below the number of stored
   * ids is used as a Python subscript, so a negative position (the index's
   * padding) picks an id from the back of the list, and raises `IndexError`
   * when it reaches past the front.
   */
  function LookupIds(docIds: seq<int>, row: seq<int>): (r: Result<seq<int>, string>)
    ensures r.Failure? ==> r.error == IndexOutOfRange
  {
    if row == [] then Success([])
    else
      var rest := LookupIds(docIds, row[1..]);
      if row[0] < |docIds| then
        match PyIndex(docIds, row[0])
        case None => Failure(IndexOutOfRange)
        case Some(id) =>
          if rest.Failure? then rest else Success([id] + rest.value)
      else rest
  }

  /** Some raw position reaches past the front of a list of `n` ids, even with negative indexing. */
  predicate ReachesPastFront(row: seq<int>, n: nat) {
    exists k | 0 <= k < |row| :: row[k] < -(n as int)
  }

  /** As written, the lookup fails exactly when some position reaches past the front of the id list. */
  lemma {:induction false} LookupIdsFailsIff(docIds: seq<int>, row: seq<int>)
    ensures LookupIds(docIds, row).Failure? <==> ReachesPastFront(row, |docIds|)
  {
    if row != [] {
      LookupIdsFailsIff(docIds, row[1..]);
      if ReachesPastFront(row, |docIds|) {
        var k :| 0 <= k < |row| && row[k] < -|docIds|;
        if k > 0 { assert row[1..][k - 1] == row[k]; }
      }
      if ReachesPastFront(row[1..], |docIds|) {
        var k :| 0 <= k < |row[1..]| && row[1..][k] < -|docIds|;
        assert row[k + 1] == row[1..][k];
      }
    }
  }

  /**
   * As written, a successful lookup yields one id per position that passes
   * the guard, each the Python subscript of the id list at that position.
   */
  lemma {:induction false} LookupIdsFollowsPassing(docIds: seq<int>, row: seq<int>)
    ensures FollowsPassing(docIds, row)
  {
    if row != [] {
      LookupIdsFollowsPassing(docIds, row[1..]);
      FollowsPassingStep(docIds, row);
    }
  }

  predicate FollowsPassing(docIds: seq<int>, row: seq<int>) {
    var r := LookupIds(docIds, row);
    r.Success? ==> var kept := Passing(row, |docIds|);
      && |r.value| == |kept|
      && (forall j | 0 <= j < |r.value| :: PyIndex(docIds, kept[j]) == Some(r.value[j]))
      && (forall j | 0 <= j < |r.value| :: r.value[j] in docIds)
  }

  lemma {:induction false} FollowsPassingStep(docIds: seq<int>, row: seq<int>)
    requires row != [] && FollowsPassing(docIds, row[1..])
    ensures FollowsPassing(docIds, row)
  {
    var r := LookupIds(docIds, row);
    var rest := LookupIds(docIds, row[1..]);
    var kept := Passing(row, |docIds|);
    var keptRest := Passing(row[1..], |docIds|);
    if r.Success? {
      if row[0] < |docIds| {
        var id := PyIndex(docIds, row[0]).value;
        assert rest.Success? && r.value == [id] + rest.value;
        assert kept == [row[0]] + keptRest;
        forall j | 0 <= j < |r.value|
          ensures PyIndex(docIds, kept[j]) == Some(r.value[j]) && r.value[j] in docIds
        {
          if j > 0 {
            assert r.value[j] == rest.value[j - 1] && kept[j] == keptRest[j - 1];
          }
        }
      } else {
        assert r == rest && kept == keptRest;
      }
    }
  }

  /**
   * The id lookup as evidently intended: only positions that name a stored
   * vector, `0 <= idx < len(doc_ids)`, contribute an id; padding is skipped.
   */
  function LookupIdsInRange(docIds: seq<int>, row: seq<int>): (r: seq<int>)
    ensures |r| <= |row|
    ensures forall j | 0 <= j < |r| :: r[j] in docIds
    ensures (forall k | 0 <= k < |row| :: 0 <= row[k] < |docIds|) ==>
              |r| == |row| && forall j | 0 <= j < |r| :: r[j] == docIds[row[j]]
  {
    if row == [] then []
    else
      var rest := LookupIdsInRange(docIds, row[1..]);
      if 0 <= row[0] < |docIds| then
        assert forall k | 0 <= k < |row[1..]| :: row[1..][k] == row[k + 1];
        [docIds[row[0]]] + rest
      else rest
  }

  /** On rows without negative positions the code as written and the intended lookup agree. */
  lemma {:induction false} LookupAgreesOnNonNegativeRows(docIds: seq<int>, row: seq<int>)
    requires forall k | 0 <= k < |row| :: row[k] >= 0
    ensures LookupIds(docIds, row) == Success(LookupIdsInRange(docIds, row))
  {
    if row != [] {
      LookupAgreesOnNonNegativeRows(docIds, row[1..]);
    }
  }

  /** One step of the lookup as written: the first position of the row, then the rest. */
  lemma LookupIdsStep(docIds: seq<int>, x: int, rest: seq<int>)
    ensures x >= |docIds| ==> LookupIds(docIds, [x] + rest) == LookupIds(docIds, rest)
    ensures x < -|docIds| ==> LookupIds(docIds, [x] + rest) == Failure(IndexOutOfRange)
    ensures -|docIds| <= x < |docIds| && LookupIds(docIds, rest).Success? ==>
              LookupIds(docIds, [x] + rest) == Success([PyIndex(docIds, x).value] + LookupIds(docIds, rest).value)
  {
    assert ([x] + rest)[0] == x && ([x] + rest)[1..] == rest;
  }

  /**
   * As written, a padding position passes the guard and, by negative
   * indexing, yields the last stored id once more.
   */
  lemma PaddingRepeatsLastId(docIds: seq<int>)
    requires docIds != []
    ensures LookupIds(docIds, [Padding]) == Success([docIds[|docIds| - 1]])
    ensures LookupIdsInRange(docIds, [Padding]) == []
  {
    LookupIdsStep(docIds, Padding, []);
    assert [Padding] + [] == [Padding];
    assert LookupIds(docIds, []) == Success([]);
    var last := docIds[|docIds| - 1];
    assert PyIndex(docIds, Padding) == Some(last);
    assert [last] + [] == [last];
  }

  /**
   * As written, searching an empty index fails: the index answers with a
   * row of padding only, and `doc_ids[-1]` on the empty list raises
   * `IndexError`. The intended lookup returns no ids.
   */
  lemma EmptyIndexSearchFails()
    ensures LookupIds([], [Padding, Padding, Padding, Padding, Padding]) == Failure(IndexOutOfRange)
    ensures LookupIdsInRange([], [Padding, Padding, Padding, Padding, Padding]) == []
  {
    LookupIdsStep([], Padding, [Padding, Padding, Padding, Padding]);
    assert [Padding] + [Padding, Padding, Padding, Padding] == [Padding, Padding, Padding, Padding, Padding];
    PaddingOnly([], 5);
    assert seq(5, _ => Padding) == [Padding, Padding, Padding, Padding, Padding];
  }

  /** A small index of three documents asked for five neighbours: as written, padding turns into repeats of the last id. */
  lemma PaddedRowAsWritten()
    ensures LookupIds([7, 8, 9], [2, 0, 1, Padding, Padding]) == Success([9, 7, 8, 9, 9])
  {
    var d := [7, 8, 9];
    PaddedTail();
    assert LookupIds(d, [1, Padding, Padding]) == Success([8, 9, 9]) by {
      LookupIdsStep(d, 1, [Padding, Padding]);
      assert [1] + [Padding, Padding] == [1, Padding, Padding] && [8] + [9, 9] == [8, 9, 9];
    }
    assert LookupIds(d, [0, 1, Padding, Padding]) == Success([7, 8, 9, 9]) by {
      LookupIdsStep(d, 0, [1, Padding, Padding]);
      assert [0] + [1, Padding, Padding] == [0, 1, Padding, Padding] && [7] + [8, 9, 9] == [7, 8, 9, 9];
    }
    LookupIdsStep(d, 2, [0, 1, Padding, Padding]);
    assert [2] + [0, 1, Padding, Padding] == [2, 0, 1, Padding, Padding] && [9] + [7, 8, 9, 9] == [9, 7, 8, 9, 9];
  }

  /** The two padding positions of that row, as written: the last id twice. */
  lemma PaddedTail()
    ensures LookupIds([7, 8, 9], [Padding, Padding]) == Success([9, 9])
  {
    var d := [7, 8, 9];
    assert LookupIds(d, [Padding]) == Success([9]) by {
      assert LookupIds(d, []) == Success([]);
      LookupIdsStep(d, Padding, []);
      assert [Padding] + [] == [Padding] && [9] + [] == [9];
    }
    LookupIdsStep(d, Padding, [Padding]);
    assert [Padding] + [Padding] == [Padding, Padding] && [9] + [9] == [9, 9];
  }

  /** The same row under the intended lookup: only the three stored positions count. */
  lemma PaddedRowIntended()
    ensures LookupIdsInRange([7, 8, 9], [2, 0, 1, Padding, Padding]) == [9, 7, 8]
  {
    var d := [7, 8, 9];
    InRangeIgnoresPadding(d, [2, 0, 1], 2);
    assert [2, 0, 1] + seq(2, _ => Padding) == [2, 0, 1, Padding, Padding];
    var row := [2, 0, 1];
    assert forall k | 0 <= k < |row| :: 0 <= row[k] < |d|;
  }

  /** The intended lookup ignores any padding at the end of the row. */
  lemma {:induction false} InRangeIgnoresPadding(docIds: seq<int>, row: seq<int>, pad: nat)
    ensures LookupIdsInRange(docIds, row + seq(pad, _ => Padding)) == LookupIdsInRange(docIds, row)
  {
    if row == [] {
      PaddingOnly(docIds, pad);
      assert row + seq(pad, _ => Padding) == seq(pad, _ => Padding);
    } else {
      assert (row + seq(pad, _ => Padding))[1..] == row[1..] + seq(pad, _ => Padding);
      InRangeIgnoresPadding(docIds, row[1..], pad);
    }
  }

  lemma {:induction false} PaddingOnly(docIds: seq<int>, pad: nat)
    ensures LookupIdsInRange(docIds, seq(pad, _ => Padding)) == []
  {
    if pad > 0 {
      assert seq(pad, _ => Padding)[1..] == seq(pad - 1, _ => Padding);
      PaddingOnly(docIds, pad - 1);
    }
  }

  /** `scores[0].tolist()[:n]`: the first `n` scores, or all of them when there are fewer. */
  function TruncateScores(scoreRow: seq<real>, n: nat): (r: seq<real>)
    ensures |r| == if n <= |scoreRow| then n else |scoreRow|
    ensures r == scoreRow[..|r|]
  {
    if n <= |scoreRow| then scoreRow[..n] else scoreRow
  }

  /**
   * The index manager. `vectorCount` is `None` before an index was loaded or
   * created and otherwise the number of vectors the index holds; `docIds[p]`
   * is the id of the document whose vector is at position `p`.
   */
  class IndexManager {
    var vectorCount: Option<nat>
    var docIds: seq<int>

    /** Every stored vector has exactly one id. */
    predicate Aligned()
      reads this
    {
      vectorCount.Some? && |docIds| == vectorCount.value
    }

    constructor()
      ensures vectorCount == None && docIds == []
    {
      vectorCount := None;
      docIds := [];
    }

    /**
     * `load_or_create_index`. `stored` is the vector count of the index file
     * when it exists, `storedIds` the contents of the ids file when it exists.
     * Loading keeps the ids already held when there is no ids file; creating
     * gives an empty index with no ids.
     */
    method LoadOrCreate(stored: Option<nat>, storedIds: Option<seq<int>>)
      modifies this
      ensures stored.Some? ==> vectorCount == stored && docIds == storedIds.GetOr(old(docIds))
      ensures stored.None? ==> vectorCount == Some(0) && docIds == [] && Aligned()
    {
      if stored.Some? {
        vectorCount := stored;
        if storedIds.Some? {
          docIds := storedIds.value;
        }
      } else {
        vectorCount := Some(0);
        docIds := [];
      }
    }

    /**
     * `add_vectors`: `count` vectors go into the index and their ids onto the
     * end of `docIds`. Without an index the call raises before `docIds` is
     * touched (`false`, nothing changes).
     */
    method AddVectors(count: nat, ids: seq<int>) returns (added: bool)
      modifies this
      ensures added <==> old(vectorCount).Some?
      ensures added ==> vectorCount == Some(old(vectorCount).value + count) && docIds == old(docIds) + ids
      ensures !added ==> vectorCount == old(vectorCount) && docIds == old(docIds)
      ensures old(Aligned()) && count == |ids| ==> Aligned()
    {
      if vectorCount.None? {
        return false;
      }
      vectorCount := Some(vectorCount.value + count);
      docIds := docIds + ids;
      added := true;
    }

    /**
     * `search` after the raw search: the ids of the stored positions in the
     * row, in row order, and as many scores from the front of the score row.
     * Without an index the call raises.
     */
    function Search(row: seq<int>, scoreRow: seq<real>): (r: Result<(seq<real>, seq<int>), string>)
      reads this
      ensures r.Failure? <==> vectorCount.None?
      ensures r.Success? ==> r.value.1 == LookupIdsInRange(docIds, row)
      ensures r.Success? ==> |r.value.0| <= |scoreRow| && r.value.0 == scoreRow[..|r.value.0|]
      ensures r.Success? && |scoreRow| == |row| ==> |r.value.0| == |r.value.1|
    {
      if vectorCount.None? then Failure(NoIndex)
      else
        var ids := LookupIdsInRange(docIds, row);
        Success((TruncateScores(scoreRow, |ids|), ids))
    }
  }

  /** Ids added after a fresh create are found again at their positions. */
  method CreateThenAdd(ids: seq<int>) returns (m: IndexManager)
    ensures m.Aligned() && m.docIds == ids
    ensures forall p | 0 <= p < |ids| :: m.Search([p], [1.0]) == Success(([1.0], [ids[p]]))
  {
    m := new IndexManager();
    m.LoadOrCreate(None, None);
    var added := m.AddVectors(|ids|, ids);
    assert m.docIds == [] + ids == ids;
    forall p | 0 <= p < |ids| ensures m.Search([p], [1.0]) == Success(([1.0], [ids[p]])) {
      var row := [p];
      assert forall k | 0 <= k < |row| :: 0 <= row[k] < |ids|;
      assert LookupIdsInRange(ids, row) == [ids[p]];
      assert TruncateScores([1.0], 1) == [1.0];
    }
  }
}
