/**
 * String helpers with JavaScript's meaning: the white-space set matched by
 * `\s` and removed by `String.prototype.trim`, trimming, splitting on runs of
 * white space, and ASCII lower-casing for case-insensitive comparison.
 */
module Text {

  /** JavaScript's WhiteSpace and LineTerminator characters: what `\s` matches and `trim` removes. */
  const WhitespaceChars: set<char> := {
    '\t', '\n', '\U{000B}', '\U{000C}', '\r', ' ', '\U{00A0}', '\U{1680}',
    '\U{2000}', '\U{2001}', '\U{2002}', '\U{2003}', '\U{2004}', '\U{2005}',
    '\U{2006}', '\U{2007}', '\U{2008}', '\U{2009}', '\U{200A}',
    '\U{2028}', '\U{2029}', '\U{202F}', '\U{205F}', '\U{3000}', '\U{FEFF}'
  }

  predicate IsWhitespace(c: char) {
    c in WhitespaceChars
  }

  predicate AllWhitespace(s: string) {
    forall i | 0 <= i < |s| :: IsWhitespace(s[i])
  }

  predicate NoWhitespace(s: string) {
    forall i | 0 <= i < |s| :: !IsWhitespace(s[i])
  }

  /** The characters of `s` that are not white space, in order. */
  function RemoveWhitespace(s: string): string {
    if s == [] then [] else (if IsWhitespace(s[0]) then [] else [s[0]]) + RemoveWhitespace(s[1..])
  }

  lemma {:induction false} RemoveWhitespaceAppend(a: string, b: string)
    ensures RemoveWhitespace(a + b) == RemoveWhitespace(a) + RemoveWhitespace(b)
  {
    if a != [] {
      var head := if IsWhitespace(a[0]) then [] else [a[0]];
      assert (a + b)[0] == a[0] && (a + b)[1..] == a[1..] + b;
      RemoveWhitespaceAppend(a[1..], b);
      assert RemoveWhitespace(a + b) == head + (RemoveWhitespace(a[1..]) + RemoveWhitespace(b));
      assert RemoveWhitespace(a) == head + RemoveWhitespace(a[1..]);
    } else {
      assert a + b == b;
    }
  }

  lemma {:induction false} RemoveWhitespaceEmpty(s: string)
    ensures RemoveWhitespace(s) == [] <==> AllWhitespace(s)
  {
    if s != [] {
      RemoveWhitespaceEmpty(s[1..]);
      assert AllWhitespace(s) <==> IsWhitespace(s[0]) && AllWhitespace(s[1..]) by {
        if IsWhitespace(s[0]) && AllWhitespace(s[1..]) {
          forall i | 0 <= i < |s| ensures IsWhitespace(s[i]) {
            if i > 0 { assert s[i] == s[1..][i - 1]; }
          }
        }
      }
    }
  }

  /** Removing white space from around `r` leaves what removing it from `r` leaves. */
  lemma RemoveWhitespaceAround(w: string, r: string)
    requires AllWhitespace(w)
    ensures RemoveWhitespace(w + r) == RemoveWhitespace(r)
    ensures RemoveWhitespace(r + w) == RemoveWhitespace(r)
  {
    RemoveWhitespaceEmpty(w);
    RemoveWhitespaceAppend(w, r);
    RemoveWhitespaceAppend(r, w);
  }

  /** The length of the run of white space at the start of `s`. */
  function LeadingWhitespace(s: string): (k: nat)
    ensures k <= |s| && AllWhitespace(s[..k])
    ensures k < |s| ==> !IsWhitespace(s[k])
  {
    if s != [] && IsWhitespace(s[0]) then
      var k := LeadingWhitespace(s[1..]);
      var p := s[..k + 1];
      assert AllWhitespace(p) by {
        forall i | 0 <= i < |p| ensures IsWhitespace(p[i]) {
          if i > 0 { assert p[i] == s[1..][..k][i - 1]; }
        }
      }
      assert k + 1 < |s| ==> s[k + 1] == s[1..][k];
      k + 1
    else 0
  }

  /** Where the run of white space at the end of `s` begins. */
  function TrailingWhitespace(s: string): (j: nat)
    ensures j <= |s| && AllWhitespace(s[j..])
    ensures j > 0 ==> !IsWhitespace(s[j - 1])
  {
    if s != [] && IsWhitespace(s[|s| - 1]) then
      var init := s[..|s| - 1];
      var j := TrailingWhitespace(init);
      assert forall i | 0 <= i < |s| - 1 - j :: s[j..][i] == init[j..][i];
      assert j > 0 ==> s[j - 1] == init[j - 1];
      j
    else |s|
  }

  /** Drops leading white space. */
  function TrimStart(s: string): (r: string)
    ensures |r| <= |s| && r == s[|s| - |r|..]
    ensures AllWhitespace(s[..|s| - |r|])
    ensures r == [] || !IsWhitespace(r[0])
  {
    s[LeadingWhitespace(s)..]
  }

  /** Drops trailing white space. */
  function TrimEnd(s: string): (r: string)
    ensures |r| <= |s| && r == s[..|r|]
    ensures AllWhitespace(s[|r|..])
    ensures r == [] || !IsWhitespace(r[|r| - 1])
  {
    s[..TrailingWhitespace(s)]
  }

  lemma TrimStartKeepsText(s: string)
    ensures RemoveWhitespace(TrimStart(s)) == RemoveWhitespace(s)
  {
    var t := TrimStart(s);
    assert s == s[..|s| - |t|] + t;
    RemoveWhitespaceAround(s[..|s| - |t|], t);
  }

  lemma TrimEndKeepsText(s: string)
    ensures RemoveWhitespace(TrimEnd(s)) == RemoveWhitespace(s)
  {
    var r := TrimEnd(s);
    assert s == r + s[|r|..];
    RemoveWhitespaceAround(s[|r|..], r);
  }

  /** `r` is `s` with the white space `s[..i]` before it and `s[j..]` after it removed. */
  predicate StripsEnds(s: string, r: string, i: nat, j: nat) {
    i <= j <= |s| && r == s[i..j] && AllWhitespace(s[..i]) && AllWhitespace(s[j..])
  }

  /**
   * `String.prototype.trim`: the input with only leading and trailing white
   * space removed. The result is empty exactly when `s` is all white space,
   * has no white space at either end, and keeps every other character of `s`
   * in order.
   */
  function Trim(s: string): (r: string)
    ensures r == [] <==> AllWhitespace(s)
    ensures r != [] ==> !IsWhitespace(r[0]) && !IsWhitespace(r[|r| - 1])
    ensures RemoveWhitespace(r) == RemoveWhitespace(s)
  {
    TrimEnds(s);
    TrimEnd(TrimStart(s))
  }

  lemma {:induction false} TrimEnds(s: string)
    ensures var r := TrimEnd(TrimStart(s));
      && (r == [] <==> AllWhitespace(s))
      && (r != [] ==> !IsWhitespace(r[0]) && !IsWhitespace(r[|r| - 1]))
      && RemoveWhitespace(r) == RemoveWhitespace(s)
  {
    var t := TrimStart(s);
    var r := TrimEnd(t);
    TrimStartKeepsText(s);
    TrimEndKeepsText(t);
    RemoveWhitespaceEmpty(s);
    RemoveWhitespaceEmpty(r);
    assert r != [] ==> r[0] == t[0];
  }

  /** Trimming removes white space at the two ends of the input and nothing else. */
  lemma {:induction false} TrimStripsOnlyEnds(s: string)
    ensures exists i: nat, j: nat :: StripsEnds(s, Trim(s), i, j)
  {
    var t := TrimStart(s);
    var r := TrimEnd(t);
    var i := |s| - |t|;
    assert s[i..i + |r|] == t[..|r|];
    assert s[i + |r|..] == t[|r|..];
    assert Trim(s) == r;
    assert StripsEnds(s, r, i, i + |r|);
  }

  lemma TrimKeepsUnpadded(s: string)
    requires NoWhitespace(s)
    ensures Trim(s) == s
  {
  }

  /** Concatenation of a sequence of strings. */
  function Concat(parts: seq<string>): string {
    if parts == [] then [] else parts[0] + Concat(parts[1..])
  }

  lemma {:induction false} ConcatAppend(a: seq<string>, b: seq<string>)
    ensures Concat(a + b) == Concat(a) + Concat(b)
  {
    if a != [] {
      assert (a + b)[1..] == a[1..] + b;
      ConcatAppend(a[1..], b);
    } else {
      assert a + b == b;
    }
  }

  /**
   * `s.split(/\s+/)`: the pieces between maximal runs of white space, an
   * empty piece before a leading run and after a trailing run.
   */
  function SplitWhitespace(s: string): (r: seq<string>)
    ensures |r| >= 1
    ensures forall i | 0 <= i < |r| :: NoWhitespace(r[i])
    decreases |s|
  {
    if s == [] then [""]
    else if IsWhitespace(s[0]) then [""] + SplitWhitespace(TrimStart(s))
    else
      var rest := SplitWhitespace(s[1..]);
      [[s[0]] + rest[0]] + rest[1..]
  }

  /** The first piece is empty only when `s` is empty or starts with white space. */
  lemma {:induction false} SplitWhitespaceFirstPiece(s: string)
    requires s != [] && !IsWhitespace(s[0])
    ensures SplitWhitespace(s)[0] != []
  {
  }

  /** Dropping leading white space keeps a last character that is not white space. */
  lemma {:induction false} TrimStartKeepsLast(s: string)
    requires s != [] && !IsWhitespace(s[|s| - 1])
    ensures TrimStart(s) != [] && TrimStart(s)[|TrimStart(s)| - 1] == s[|s| - 1]
  {
  }

  /** The last piece is empty only when `s` is empty or ends with white space. */
  lemma {:induction false} SplitWhitespaceLastPiece(s: string)
    requires s != [] && !IsWhitespace(s[|s| - 1])
    ensures SplitWhitespace(s)[|SplitWhitespace(s)| - 1] != []
    decreases |s|
  {
    if IsWhitespace(s[0]) {
      var t := TrimStart(s);
      TrimStartKeepsLast(s);
      SplitWhitespaceLastPiece(t);
      assert SplitWhitespace(s) == [""] + SplitWhitespace(t);
    } else if |s| > 1 {
      assert s[1..][|s| - 2] == s[|s| - 1];
      SplitWhitespaceLastPiece(s[1..]);
      var rest := SplitWhitespace(s[1..]);
      assert SplitWhitespace(s) == [[s[0]] + rest[0]] + rest[1..];
    }
  }

  /** Every piece strictly between the first and the last is non-empty. */
  lemma {:induction false} SplitWhitespaceInnerPieces(s: string)
    ensures forall i | 0 < i < |SplitWhitespace(s)| - 1 :: SplitWhitespace(s)[i] != []
    decreases |s|
  {
    var r := SplitWhitespace(s);
    if s == [] {
    } else if IsWhitespace(s[0]) {
      var t := TrimStart(s);
      var rt := SplitWhitespace(t);
      SplitWhitespaceInnerPieces(t);
      assert r == [""] + rt;
      if t != [] {
        SplitWhitespaceFirstPiece(t);
      }
      forall i | 0 < i < |r| - 1 ensures r[i] != [] {
        assert r[i] == rt[i - 1];
      }
    } else {
      var rest := SplitWhitespace(s[1..]);
      SplitWhitespaceInnerPieces(s[1..]);
      assert |r| == |rest|;
      forall i | 0 < i < |r| - 1 ensures r[i] != [] {
        assert r[i] == rest[1..][i - 1] == rest[i];
      }
    }
  }

  /** `pieces[0] + seps[0] + pieces[1] + ... + seps[n - 1] + pieces[n]` */
  function JoinWith(pieces: seq<string>, seps: seq<string>): string
    requires |seps| + 1 == |pieces|
  {
    if seps == [] then pieces[0] else pieces[0] + seps[0] + JoinWith(pieces[1..], seps[1..])
  }

  /** `s` is `pieces` joined by the runs of white space `seps`, none of them empty. */
  predicate SeparatedBy(s: string, pieces: seq<string>, seps: seq<string>) {
    && |seps| + 1 == |pieces|
    && (forall i | 0 <= i < |seps| :: seps[i] != [] && AllWhitespace(seps[i]))
    && JoinWith(pieces, seps) == s
  }

  /** A leading run of white space `s[..k]` adds an empty first piece and one separator. */
  lemma {:induction false} SeparatedByRun(s: string, k: nat, pieces: seq<string>, seps: seq<string>)
    requires 0 < k <= |s| && AllWhitespace(s[..k])
    requires SeparatedBy(s[k..], pieces, seps)
    ensures SeparatedBy(s, [""] + pieces, [s[..k]] + seps)
  {
    var p, q := [""] + pieces, [s[..k]] + seps;
    assert p[1..] == pieces && q[1..] == seps;
    assert JoinWith(p, q) == "" + s[..k] + s[k..];
    assert s[..k] + s[k..] == s;
  }

  /** A leading non-white-space character joins the first piece. */
  lemma {:induction false} SeparatedByChar(c: char, t: string, pieces: seq<string>, seps: seq<string>)
    requires SeparatedBy(t, pieces, seps)
    ensures SeparatedBy([c] + t, [[c] + pieces[0]] + pieces[1..], seps)
  {
    var p := [[c] + pieces[0]] + pieces[1..];
    assert p[1..] == pieces[1..];
    if seps != [] {
      assert JoinWith(p, seps) == ([c] + pieces[0]) + seps[0] + JoinWith(pieces[1..], seps[1..]);
    }
  }

  /**
   * The pieces and the white-space runs between them give back the input:
   * with no white space inside a piece and no empty piece between two runs,
   * every run is maximal.
   */
  lemma {:induction false} SplitWhitespaceRoundTrip(s: string)
    ensures exists seps :: SeparatedBy(s, SplitWhitespace(s), seps)
    decreases |s|
  {
    if s == [] {
      assert SeparatedBy(s, SplitWhitespace(s), []);
    } else if IsWhitespace(s[0]) {
      SplitWhitespaceRoundTrip(TrimStart(s));
      RoundTripAfterRun(s);
    } else {
      SplitWhitespaceRoundTrip(s[1..]);
      RoundTripAfterChar(s);
    }
  }

  lemma {:induction false} RoundTripAfterRun(s: string)
    requires s != [] && IsWhitespace(s[0])
    requires exists seps :: SeparatedBy(TrimStart(s), SplitWhitespace(TrimStart(s)), seps)
    ensures exists seps :: SeparatedBy(s, SplitWhitespace(s), seps)
  {
    var t := TrimStart(s);
    var k := |s| - |t|;
    var seps :| SeparatedBy(t, SplitWhitespace(t), seps);
    assert k > 0 by { assert s[..k][0] == s[0]; }
    SeparatedByRun(s, k, SplitWhitespace(t), seps);
    assert SeparatedBy(s, SplitWhitespace(s), [s[..k]] + seps);
  }

  lemma {:induction false} RoundTripAfterChar(s: string)
    requires s != [] && !IsWhitespace(s[0])
    requires exists seps :: SeparatedBy(s[1..], SplitWhitespace(s[1..]), seps)
    ensures exists seps :: SeparatedBy(s, SplitWhitespace(s), seps)
  {
    var seps :| SeparatedBy(s[1..], SplitWhitespace(s[1..]), seps);
    assert s == [s[0]] + s[1..];
    SeparatedByChar(s[0], s[1..], SplitWhitespace(s[1..]), seps);
    assert SeparatedBy(s, SplitWhitespace(s), seps);
  }

  /** Joined together, the pieces are exactly the non-white-space characters of the input. */
  lemma {:induction false} SplitWhitespaceCovers(s: string)
    ensures Concat(SplitWhitespace(s)) == RemoveWhitespace(s)
    decreases |s|
  {
    if s == [] {
    } else if IsWhitespace(s[0]) {
      SplitWhitespaceCovers(TrimStart(s));
      CoversAfterRun(s);
    } else {
      SplitWhitespaceCovers(s[1..]);
      CoversAfterChar(s);
    }
  }

  lemma {:induction false} CoversAfterRun(s: string)
    requires s != [] && IsWhitespace(s[0])
    requires Concat(SplitWhitespace(TrimStart(s))) == RemoveWhitespace(TrimStart(s))
    ensures Concat(SplitWhitespace(s)) == RemoveWhitespace(s)
  {
    var rt := SplitWhitespace(TrimStart(s));
    TrimStartKeepsText(s);
    assert SplitWhitespace(s) == [""] + rt;
    assert ([""] + rt)[1..] == rt;
  }

  lemma {:induction false} CoversAfterChar(s: string)
    requires s != [] && !IsWhitespace(s[0])
    requires Concat(SplitWhitespace(s[1..])) == RemoveWhitespace(s[1..])
    ensures Concat(SplitWhitespace(s)) == RemoveWhitespace(s)
  {
    var rest := SplitWhitespace(s[1..]);
    var r := [[s[0]] + rest[0]] + rest[1..];
    assert SplitWhitespace(s) == r;
    assert r[1..] == rest[1..];
    assert Concat(r) == [s[0]] + (rest[0] + Concat(rest[1..]));
    assert Concat(rest) == rest[0] + Concat(rest[1..]);
  }

  /** `pieces.map((p) => p.trim())` */
  function TrimEach(pieces: seq<string>): (r: seq<string>)
    ensures |r| == |pieces|
  {
    seq(|pieces|, i requires 0 <= i < |pieces| => Trim(pieces[i]))
  }

  lemma TrimEachUnpadded(pieces: seq<string>)
    requires forall i | 0 <= i < |pieces| :: NoWhitespace(pieces[i])
    ensures TrimEach(pieces) == pieces
  {
    forall i | 0 <= i < |pieces| ensures TrimEach(pieces)[i] == pieces[i] {
      TrimKeepsUnpadded(pieces[i]);
    }
  }

  /** `pieces.filter(Boolean)`: drops the empty strings and keeps the others in order. */
  function DropEmpty(pieces: seq<string>): (r: seq<string>)
    ensures |r| <= |pieces|
    ensures forall i | 0 <= i < |r| :: r[i] != [] && r[i] in pieces
    ensures forall i | 0 <= i < |pieces| && pieces[i] != [] :: pieces[i] in r
    ensures (forall i | 0 <= i < |pieces| :: pieces[i] != []) ==> r == pieces
  {
    if pieces == [] then []
    else
      var rest := DropEmpty(pieces[1..]);
      assert forall i | 1 <= i < |pieces| :: pieces[i] == pieces[1..][i - 1];
      if pieces[0] == [] then rest
      else
        assert pieces == [pieces[0]] + pieces[1..];
        [pieces[0]] + rest
  }

  /** Filtering distributes over concatenation: the kept pieces stay in their input order. */
  lemma {:induction false} DropEmptyAppend(a: seq<string>, b: seq<string>)
    ensures DropEmpty(a + b) == DropEmpty(a) + DropEmpty(b)
  {
    if a == [] {
      assert a + b == b;
    } else {
      assert (a + b)[0] == a[0] && (a + b)[1..] == a[1..] + b;
      DropEmptyAppend(a[1..], b);
    }
  }

  lemma {:induction false} DropEmptyConcat(pieces: seq<string>)
    ensures Concat(DropEmpty(pieces)) == Concat(pieces)
  {
    if pieces != [] {
      var rest := DropEmpty(pieces[1..]);
      DropEmptyConcat(pieces[1..]);
      assert Concat(pieces) == pieces[0] + Concat(pieces[1..]);
      if pieces[0] == [] {
        assert DropEmpty(pieces) == rest;
        assert pieces[0] + Concat(pieces[1..]) == Concat(pieces[1..]);
      } else {
        var d := [pieces[0]] + rest;
        assert DropEmpty(pieces) == d;
        assert d[0] == pieces[0] && d[1..] == rest;
        assert Concat(d) == pieces[0] + Concat(rest);
      }
    }
  }

  /**
   * The query tokens of the result view: the non-empty, trimmed pieces of the
   * trimmed query split on runs of white space. No token is empty and none
   * contains white space.
   */
  function Tokens(query: string): (r: seq<string>)
    ensures forall i | 0 <= i < |r| :: r[i] != [] && NoWhitespace(r[i])
  {
    var pieces := SplitWhitespace(Trim(query));
    TrimEachUnpadded(pieces);
    DropEmpty(TrimEach(pieces))
  }

  /** Joined together, the tokens are exactly the non-white-space characters of the query. */
  lemma {:induction false} TokensCoverQuery(query: string)
    ensures Concat(Tokens(query)) == RemoveWhitespace(query)
  {
    var pieces := SplitWhitespace(Trim(query));
    TrimEachUnpadded(pieces);
    SplitWhitespaceCovers(Trim(query));
    DropEmptyConcat(pieces);
  }

  lemma {:induction false} ConcatOfNonEmptyIsEmpty(parts: seq<string>)
    requires forall i | 0 <= i < |parts| :: parts[i] != []
    ensures Concat(parts) == [] <==> parts == []
  {
    if parts != [] {
      assert |Concat(parts)| >= |parts[0]| > 0;
    }
  }

  /** There are no tokens exactly when the query is blank (empty after trimming). */
  lemma TokensEmptyIffBlank(query: string)
    ensures Tokens(query) == [] <==> Trim(query) == []
  {
    TokensCoverQuery(query);
    ConcatOfNonEmptyIsEmpty(Tokens(query));
    RemoveWhitespaceEmpty(query);
  }

  /** The tokens of a non-blank query are exactly the pieces of the trimmed query split on white space. */
  lemma {:induction false} TokensAreSplitPieces(query: string)
    requires Trim(query) != []
    ensures Tokens(query) == SplitWhitespace(Trim(query))
  {
    var q := Trim(query);
    var pieces := SplitWhitespace(q);
    assert !IsWhitespace(q[0]) && !IsWhitespace(q[|q| - 1]);
    SplitWhitespaceFirstPiece(q);
    SplitWhitespaceLastPiece(q);
    SplitWhitespaceInnerPieces(q);
    assert forall i | 0 <= i < |pieces| :: pieces[i] != [] by {
      forall i | 0 <= i < |pieces| ensures pieces[i] != [] {
        if 0 < i < |pieces| - 1 {
          assert pieces[i] != [];
        }
      }
    }
    TrimEachUnpadded(pieces);
    assert DropEmpty(pieces) == pieces;
  }

  /**
   * The trimmed query is its tokens joined by non-empty runs of white space:
   * the tokens are the maximal non-white-space runs of the query, in order.
   */
  lemma {:induction false} TokensRoundTrip(query: string)
    ensures Trim(query) == [] ==> Tokens(query) == []
    ensures Trim(query) != [] ==> exists seps :: SeparatedBy(Trim(query), Tokens(query), seps)
  {
    TokensEmptyIffBlank(query);
    if Trim(query) != [] {
      TokensAreSplitPieces(query);
      SplitWhitespaceRoundTrip(Trim(query));
    }
  }

  /** ASCII lower-casing of one character. */
  function Lower(c: char): char {
    if 'A' <= c <= 'Z' then (c as int + 32) as char else c
  }

  function LowerString(s: string): string {
    seq(|s|, i requires 0 <= i < |s| => Lower(s[i]))
  }
}
