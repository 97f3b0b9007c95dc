/**
 * The result card: escaping query tokens for a regular expression, splitting
 * the content into plain and highlighted parts, the score badge and the
 * metadata disclosure.
 */
module ResultView {
  import opened Wrappers
  import opened Text
  import opened SearchTypes
  import Json

  // ---------------------------------------------------------------------------
  // escapeRegExp
  // ---------------------------------------------------------------------------

  /** The characters that `escapeRegExp` prefixes with a backslash. */
  const RegExpSpecials: string := "-/\\^$*+?.()|[]{}"

  predicate IsRegExpSpecial(c: char) {
    c in RegExpSpecials
  }

  predicate NoRegExpSpecials(s: string) {
    forall i | 0 <= i < |s| :: !IsRegExpSpecial(s[i])
  }

  /** The number of special characters in `s`. */
  function CountSpecials(s: string): nat {
    if s == [] then 0 else (if IsRegExpSpecial(s[0]) then 1 else 0) + CountSpecials(s[1..])
  }

  /**
   * Puts a backslash before every special character and leaves every other
   * character alone. The result grows by exactly one character per special
   * one, so its length equals the input's exactly when there is nothing to
   * escape; with `EscapeRegExpRoundTrip` this determines the result.
   */
  function EscapeRegExp(s: string): (r: string)
    ensures |r| == |s| + CountSpecials(s)
    ensures |s| <= |r| <= 2 * |s|
    ensures |r| == |s| <==> NoRegExpSpecials(s)
  {
    if s == [] then []
    else
      var rest := EscapeRegExp(s[1..]);
      assert NoRegExpSpecials(s) <==> !IsRegExpSpecial(s[0]) && NoRegExpSpecials(s[1..]) by {
        if !IsRegExpSpecial(s[0]) && NoRegExpSpecials(s[1..]) {
          forall i | 0 <= i < |s| ensures !IsRegExpSpecial(s[i]) {
            if i > 0 { assert s[i] == s[1..][i - 1]; }
          }
        }
      }
      (if IsRegExpSpecial(s[0]) then ['\\', s[0]] else [s[0]]) + rest
  }

  /** Drops every backslash that precedes a special character. */
  function DropEscapes(s: string): string {
    if s == [] then []
    else if |s| >= 2 && s[0] == '\\' && IsRegExpSpecial(s[1]) then [s[1]] + DropEscapes(s[2..])
    else [s[0]] + DropEscapes(s[1..])
  }

  /** Dropping the inserted backslashes gives back the input. */
  lemma {:induction false} EscapeRegExpRoundTrip(s: string)
    ensures DropEscapes(EscapeRegExp(s)) == s
  {
    if s != [] {
      var rest := EscapeRegExp(s[1..]);
      EscapeRegExpRoundTrip(s[1..]);
      if IsRegExpSpecial(s[0]) {
        var e := ['\\', s[0]] + rest;
        assert e[2..] == rest;
      } else {
        var e := [s[0]] + rest;
        assert e[1..] == rest;
        assert s[0] != '\\';
      }
    }
  }

  /** Escaping changes nothing exactly when the input has no special character. */
  lemma {:induction false} EscapeRegExpIdentityIffPlain(s: string)
    ensures EscapeRegExp(s) == s <==> NoRegExpSpecials(s)
  {
    if s != [] && NoRegExpSpecials(s) {
      assert NoRegExpSpecials(s[1..]) by {
        forall i | 0 <= i < |s| - 1 ensures !IsRegExpSpecial(s[1..][i]) {
          assert s[1..][i] == s[i + 1];
        }
      }
      EscapeRegExpIdentityIffPlain(s[1..]);
      assert s == [s[0]] + s[1..];
    }
  }

  // ---------------------------------------------------------------------------
  // highlightMatches
  // ---------------------------------------------------------------------------

  /** `token` occurs at position `at` of `content`, ignoring ASCII case. */
  predicate MatchesAt(content: string, at: nat, token: string) {
    at + |token| <= |content| && LowerString(content[at..at + |token|]) == LowerString(token)
  }

  /** No token occurs at position `at`. */
  predicate NoTokenAt(content: string, at: nat, tokens: seq<string>) {
    forall j | 0 <= j < |tokens| :: !MatchesAt(content, at, tokens[j])
  }

  /**
   * The alternative the pattern `(t0|t1|...)` takes at position `at`: the
   * first token from index `from` on, in query order, that occurs there.
   */
  function FirstMatchFrom(content: string, at: nat, tokens: seq<string>, from: nat): (r: Option<nat>)
    decreases |tokens| - from
    ensures r.Some? ==> from <= r.value < |tokens| && MatchesAt(content, at, tokens[r.value])
    ensures r.Some? ==> forall j | from <= j < r.value :: !MatchesAt(content, at, tokens[j])
    ensures r.None? ==> forall j | from <= j < |tokens| :: !MatchesAt(content, at, tokens[j])
  {
    if from >= |tokens| then None
    else if MatchesAt(content, at, tokens[from]) then Some(from)
    else FirstMatchFrom(content, at, tokens, from + 1)
  }

  function FirstMatch(content: string, at: nat, tokens: seq<string>): Option<nat> {
    FirstMatchFrom(content, at, tokens, 0)
  }

  predicate NonEmptyTokens(tokens: seq<string>) {
    forall i | 0 <= i < |tokens| :: tokens[i] != []
  }

  /**
   * `content.split(pattern)` with the capturing pattern `(t0|t1|...)`:
   * `start` is where the current plain part began and `pos` the position
   * being tried. On a match the plain part and the matched text are emitted
   * and the scan jumps past the match; otherwise it advances one character.
   */
  function SplitFrom(content: string, tokens: seq<string>, start: nat, pos: nat): (r: seq<string>)
    requires start <= pos <= |content|
    requires NonEmptyTokens(tokens)
    ensures |r| % 2 == 1
    decreases |content| - pos
  {
    if pos == |content| then [content[start..]]
    else match FirstMatch(content, pos, tokens)
      case None => SplitFrom(content, tokens, start, pos + 1)
      case Some(k) =>
        var end := pos + |tokens[k]|;
        [content[start..pos], content[pos..end]] + SplitFrom(content, tokens, end, end)
  }

  /** What the view renders: the content untouched, or the split parts. */
  datatype Rendered = Unchanged(text: string) | Parts(parts: seq<string>)

  /** Where part `i` begins, relative to where the first part begins. */
  ghost function PartStart(parts: seq<string>, i: nat): nat
    requires i <= |parts|
  {
    |Concat(parts[..i])|
  }

  /** `part` sits at `at` in `content` and no token occurrence starts inside it. */
  ghost predicate PlainPart(content: string, tokens: seq<string>, at: nat, part: string) {
    && at + |part| <= |content|
    && content[at..at + |part|] == part
    && forall p | at <= p < at + |part| :: NoTokenAt(content, p, tokens)
  }

  /**
   * `part` sits at `at` in `content`, keeping the content's casing, and equals
   * (ignoring case) a token such that no earlier token occurs at `at`.
   */
  ghost predicate HighlightedPart(content: string, tokens: seq<string>, at: nat, part: string) {
    && at + |part| <= |content|
    && content[at..at + |part|] == part
    && exists k | 0 <= k < |tokens| ::
         && LowerString(part) == LowerString(tokens[k])
         && forall j | 0 <= j < k :: !MatchesAt(content, at, tokens[j])
  }

  /**
   * `parts` is the highlight split of `content[base..]`: joined they give it
   * back, there is an odd number of them, even-indexed parts are plain and
   * odd-indexed parts are highlighted.
   */
  ghost predicate IsHighlightSplit(content: string, tokens: seq<string>, parts: seq<string>, base: nat) {
    && base <= |content|
    && Concat(parts) == content[base..]
    && |parts| % 2 == 1
    && forall i | 0 <= i < |parts| :: PartFits(content, tokens, parts, base, i)
  }

  /** Part `i` is plain when `i` is even and highlighted when `i` is odd. */
  ghost predicate PartFits(content: string, tokens: seq<string>, parts: seq<string>, base: nat, i: nat)
    requires i < |parts|
  {
    FitsAt(content, tokens, base + PartStart(parts, i), parts[i], i % 2 == 1)
  }

  /** A part at `at`: highlighted when `odd`, plain otherwise. */
  ghost predicate FitsAt(content: string, tokens: seq<string>, at: nat, part: string, odd: bool) {
    if odd then HighlightedPart(content, tokens, at, part) else PlainPart(content, tokens, at, part)
  }

  lemma ConcatPair(a: string, b: string, rest: seq<string>)
    ensures Concat([a, b] + rest) == a + b + Concat(rest)
  {
    ConcatAppend([a, b], rest);
    assert Concat([a, b]) == a + Concat([b]);
    assert Concat([b]) == b + Concat([]);
  }

  /** Where the parts of `[a, m] + rest` begin. */
  lemma ConsPartStart(a: string, m: string, rest: seq<string>, i: nat)
    requires i < |rest| + 2
    ensures PartStart([a, m] + rest, i) == if i == 0 then 0 else if i == 1 then |a| else |a| + |m| + PartStart(rest, i - 2)
  {
    var parts := [a, m] + rest;
    if i == 0 {
      assert parts[..0] == [];
    } else if i == 1 {
      assert parts[..1] == [a];
      assert Concat([a]) == a + Concat([]);
    } else {
      assert parts[..i] == [a, m] + rest[..i - 2];
      ConcatPair(a, m, rest[..i - 2]);
    }
  }

  /** The first part of `[a, m] + rest` is `a`, plain at `start`. */
  lemma FirstPartFits(content: string, tokens: seq<string>, start: nat, a: string, m: string, rest: seq<string>)
    requires PlainPart(content, tokens, start, a)
    ensures PartFits(content, tokens, [a, m] + rest, start, 0)
  {
    var parts := [a, m] + rest;
    assert PartStart(parts, 0) == 0 by {
      assert parts[..0] == [];
    }
    assert parts[0] == a;
    assert FitsAt(content, tokens, start, a, false);
  }

  /** The second part of `[a, m] + rest` is `m`, highlighted right after `a`. */
  lemma SecondPartFits(content: string, tokens: seq<string>, start: nat, a: string, m: string, rest: seq<string>)
    requires HighlightedPart(content, tokens, start + |a|, m)
    ensures PartFits(content, tokens, [a, m] + rest, start, 1)
  {
    var parts := [a, m] + rest;
    assert PartStart(parts, 1) == |a| by {
      assert parts[..1] == [a];
      assert Concat([a]) == a + Concat([]);
      assert a + [] == a;
    }
    assert parts[1] == m;
    assert FitsAt(content, tokens, start + |a|, m, true);
  }

  /** Part `i - 2` of `rest` fitting after `a` and `m` is part `i` of `[a, m] + rest` fitting. */
  lemma ShiftedPartFits(content: string, tokens: seq<string>, start: nat, a: string, m: string, rest: seq<string>, i: nat)
    requires 2 <= i < |rest| + 2
    requires PartFits(content, tokens, rest, start + |a| + |m|, i - 2)
    ensures PartFits(content, tokens, [a, m] + rest, start, i)
  {
    var parts := [a, m] + rest;
    var end := start + |a| + |m|;
    ConsPartStart(a, m, rest, i);
    assert parts[i] == rest[i - 2];
    assert (i - 2) % 2 == i % 2;
    assert start + PartStart(parts, i) == end + PartStart(rest, i - 2);
  }

  /** Prefixing a plain part and a highlighted part to a split of what follows them. */
  lemma ConsHighlightSplit(content: string, tokens: seq<string>, start: nat, a: string, m: string, rest: seq<string>)
    requires PlainPart(content, tokens, start, a)
    requires HighlightedPart(content, tokens, start + |a|, m)
    requires IsHighlightSplit(content, tokens, rest, start + |a| + |m|)
    ensures IsHighlightSplit(content, tokens, [a, m] + rest, start)
  {
    var parts := [a, m] + rest;
    var end := start + |a| + |m|;
    assert Concat(parts) == content[start..] by {
      ConcatPair(a, m, rest);
      assert content[start..] == a + m + content[end..];
    }
    FirstPartFits(content, tokens, start, a, m, rest);
    SecondPartFits(content, tokens, start, a, m, rest);
    forall i | 2 <= i < |parts|
      ensures PartFits(content, tokens, parts, start, i)
    {
      ShiftedPartFits(content, tokens, start, a, m, rest, i);
    }
  }

  /** The rest of the content, when no token occurs in it, is a split of one plain part. */
  lemma SinglePartSplit(content: string, tokens: seq<string>, start: nat)
    requires start <= |content|
    requires forall p | start <= p < |content| :: NoTokenAt(content, p, tokens)
    ensures IsHighlightSplit(content, tokens, [content[start..]], start)
  {
    var parts := [content[start..]];
    assert Concat(parts) == content[start..] + Concat([]);
    assert PartStart(parts, 0) == 0 by { assert parts[..0] == []; }
    assert PartFits(content, tokens, parts, start, 0) by {
      assert PlainPart(content, tokens, start, content[start..]);
    }
  }

  /** The text the alternation matches is a highlighted part. */
  lemma MatchIsHighlighted(content: string, tokens: seq<string>, pos: nat, k: nat)
    requires FirstMatch(content, pos, tokens) == Some(k)
    ensures k < |tokens| && pos + |tokens[k]| <= |content|
    ensures HighlightedPart(content, tokens, pos, content[pos..pos + |tokens[k]|])
  {
    var m := content[pos..pos + |tokens[k]|];
    assert LowerString(m) == LowerString(tokens[k]);
  }

  /** The text between the start of a plain part and the scan position contains no match. */
  lemma PrefixIsPlain(content: string, tokens: seq<string>, start: nat, pos: nat)
    requires start <= pos <= |content|
    requires forall p | start <= p < pos :: NoTokenAt(content, p, tokens)
    ensures PlainPart(content, tokens, start, content[start..pos])
  {
  }

  /** Where a token matches at `pos`, the split emits the plain text before it and the match, then splits after it. */
  lemma SplitFromMatch(content: string, tokens: seq<string>, start: nat, pos: nat, k: nat)
    requires start <= pos < |content|
    requires NonEmptyTokens(tokens)
    requires FirstMatch(content, pos, tokens) == Some(k)
    ensures k < |tokens| && pos + |tokens[k]| <= |content|
    ensures SplitFrom(content, tokens, start, pos)
      == [content[start..pos], content[pos..pos + |tokens[k]|]] + SplitFrom(content, tokens, pos + |tokens[k]|, pos + |tokens[k]|)
  {
  }

  /** One step of the split where a token matches at `pos`: a plain and a highlighted part, then a split of what follows the match. */
  lemma {:induction false} MatchStep(content: string, tokens: seq<string>, start: nat, pos: nat, k: nat, rest: seq<string>)
    requires start <= pos < |content|
    requires forall p | start <= p < pos :: NoTokenAt(content, p, tokens)
    requires FirstMatch(content, pos, tokens) == Some(k)
    requires k < |tokens| && pos + |tokens[k]| <= |content|
    requires IsHighlightSplit(content, tokens, rest, pos + |tokens[k]|)
    ensures IsHighlightSplit(content, tokens, [content[start..pos], content[pos..pos + |tokens[k]|]] + rest, start)
  {
    MatchIsHighlighted(content, tokens, pos, k);
    PrefixIsPlain(content, tokens, start, pos);
    ConsHighlightSplit(content, tokens, start, content[start..pos], content[pos..pos + |tokens[k]|], rest);
  }

  lemma {:induction false} SplitFromIsHighlightSplit(content: string, tokens: seq<string>, start: nat, pos: nat)
    requires start <= pos <= |content|
    requires NonEmptyTokens(tokens)
    requires forall p | start <= p < pos :: NoTokenAt(content, p, tokens)
    ensures IsHighlightSplit(content, tokens, SplitFrom(content, tokens, start, pos), start)
    decreases |content| - pos
  {
    if pos == |content| {
      SinglePartSplit(content, tokens, start);
    } else {
      match FirstMatch(content, pos, tokens)
      case None =>
        assert NoTokenAt(content, pos, tokens);
        SplitFromIsHighlightSplit(content, tokens, start, pos + 1);
      case Some(k) =>
        MatchIsHighlighted(content, tokens, pos, k);
        var end := pos + |tokens[k]|;
        SplitFromIsHighlightSplit(content, tokens, end, end);
        MatchStep(content, tokens, start, pos, k, SplitFrom(content, tokens, end, end));
        SplitFromMatch(content, tokens, start, pos, k);
    }
  }

  /**
   * `highlightMatches`: a blank query leaves the content unchanged; otherwise
   * the content is split into alternating plain and highlighted parts
   * around the case-insensitive occurrences of the query tokens.
   */
  function HighlightMatches(content: string, query: string): (r: Rendered)
    ensures Trim(query) == [] ==> r == Unchanged(content)
    ensures r.Parts? ==> IsHighlightSplit(content, Tokens(query), r.parts, 0)
  {
    var normalized := Trim(query);
    if normalized == [] then Unchanged(content)
    else
      var tokens := Tokens(query);
      if |tokens| == 0 then Unchanged(content)
      else
        SplitFromIsHighlightSplit(content, tokens, 0, 0);
        Parts(SplitFrom(content, tokens, 0, 0))
  }

  /** The content is split (rather than shown unchanged) exactly when the query is not blank. */
  lemma HighlightSplitsIffQueryNotBlank(content: string, query: string)
    ensures HighlightMatches(content, query).Parts? <==> Trim(query) != []
  {
    TokensEmptyIffBlank(query);
  }

  // ---------------------------------------------------------------------------
  // Score badge
  // ---------------------------------------------------------------------------

  /** `Math.max(0, Math.min(1, x))` */
  function Clamp01(x: real): (r: real)
    ensures 0.0 <= r <= 1.0
    ensures 0.0 <= x <= 1.0 ==> r == x
    ensures x < 0.0 ==> r == 0.0
    ensures x > 1.0 ==> r == 1.0
  {
    if x < 0.0 then 0.0 else if x > 1.0 then 1.0 else x
  }

  /** `Math.round`: the nearest integer, halves rounded up. */
  function Round(x: real): (r: int)
    ensures r as real - 0.5 <= x < r as real + 0.5
  {
    (x + 0.5).Floor
  }

  /**
   * `scorePercentage`: a non-finite score counts as 0; the score is clamped
   * to [0, 1] and the percentage is the nearest integer to 100 times it.
   */
  function ScorePercentage(score: Score): (r: int)
    ensures 0 <= r <= 100
    ensures !score.isFinite ==> r == 0
    ensures score.isFinite && score.value >= 1.0 ==> r == 100
    ensures score.isFinite && score.value <= 0.0 ==> r == 0
    ensures score.isFinite && 0.0 <= score.value <= 1.0 ==>
              r as real - 0.5 <= 100.0 * score.value < r as real + 0.5
  {
    var raw := if score.isFinite then score.value else 0.0;
    Round(Clamp01(raw) * 100.0)
  }

  /** A higher finite score never shows a lower percentage. */
  lemma ScorePercentageMonotonic(a: Score, b: Score)
    requires a.isFinite && b.isFinite && a.value <= b.value
    ensures ScorePercentage(a) <= ScorePercentage(b)
  {
    var x, y := Clamp01(a.value) * 100.0, Clamp01(b.value) * 100.0;
    assert x <= y;
    assert (x + 0.5).Floor <= (y + 0.5).Floor;
  }

  /**
   * `formattedScore`: the raw score (rendered with three decimals) when it
   * is finite, nothing otherwise.
   */
  function FormattedScore(score: Score): (r: Option<real>)
    ensures r.Some? <==> score.isFinite
    ensures r.Some? ==> r.value == score.value
  {
    if !score.isFinite then None else Some(score.value)
  }

  // ---------------------------------------------------------------------------
  // Metadata disclosure
  // ---------------------------------------------------------------------------

  /** `hasMetadata`: the metadata, or `{}` when missing, has at least one key. */
  function HasMetadata(metadata: Option<Json.Metadata>): (r: bool)
    ensures r <==> metadata.Some? && exists key :: key in metadata.value
  {
    var m := metadata.GetOr(map[]);
    assert (exists key :: key in m) ==> |m.Keys| > 0 by {
      if key :| key in m { assert key in m.Keys; }
    }
    |m.Keys| > 0
  }

  /**
   * The entries the card lists: the panel exists only when there is
   * metadata, and lists its entries only while expanded.
   */
  function VisibleEntries(metadata: Option<Json.Metadata>, expanded: bool): (r: Json.Metadata)
    ensures r != map[] <==> expanded && HasMetadata(metadata)
    ensures forall key | key in r :: metadata.Some? && key in metadata.value && r[key] == metadata.value[key]
    ensures expanded && metadata.Some? ==> r.Keys == metadata.value.Keys
  {
    if expanded && HasMetadata(metadata) then metadata.value else map[]
  }

  /** The per-card `showMetadata` state: collapsed at first, flipped by each click. */
  class MetadataDisclosure {
    var showMetadata: bool

    constructor ()
      ensures !showMetadata
    {
      showMetadata := false;
    }

    /** The toggle button's click handler. */
    method Toggle()
      modifies this
      ensures showMetadata == !old(showMetadata)
    {
      showMetadata := !showMetadata;
    }
  }
}
