/**
 * `VB6Converter.extract_json_from_response`: recovers a JSON object from a model reply through a
 * cascade of ever more permissive stages. The JSON parser (`json.loads`) is a parameter: any
 * partial function from text to a string-keyed object.
 */
module Recoverer {
  import opened Wrappers
  import opened Text
  import opened Json

  type Parser = string -> Option<Object>

  const EmptyResponseMessage: string := "Empty response from API"

  function InvalidResponseMessage(cleaned: string): string {
    "Invalid JSON response: " + Take(cleaned, 200) + "..."
  }

  // ---------------------------------------------------------------------------------------
  // Fence stripping: the two `re.sub` calls and the `strip()` that produce `cleaned`

  /** Where `^` matches under re.MULTILINE. */
  predicate AtLineStart(s: string, i: nat)
    requires i <= |s|
  {
    i == 0 || s[i - 1] == '\n'
  }

  /** Where `$` matches under re.MULTILINE. */
  predicate AtLineEnd(s: string, i: nat)
    requires i <= |s|
  {
    i == |s| || s[i] == '\n'
  }

  predicate OpeningFenceAt(s: string, i: nat)
    requires i <= |s|
  {
    AtLineStart(s, i) && StartsWith(s[i..], "```json")
  }

  /**
   * `re.sub(r'^```json\s*\n?', '', s, flags=re.MULTILINE)` applied from index `i` on: a line that
   * starts with ```json loses it together with all the whitespace (line breaks included) after it.
   */
  function StripOpeningFences(s: string, i: nat): (r: string)
    requires i <= |s|
    ensures |r| <= |s| - i
    decreases |s| - i
  {
    if i == |s| then []
    else if OpeningFenceAt(s, i) then StripOpeningFences(s, SpaceRunEnd(s, i + 7))
    else [s[i]] + StripOpeningFences(s, i + 1)
  }

  /** `re.sub(r'\n?```$', '', s, flags=re.MULTILINE)`: a ``` that ends a line goes, with the line break before it. */
  function StripClosingFences(s: string): (r: string)
    ensures |r| <= |s|
    decreases |s|
  {
    if s == [] then []
    else if s[0] == '\n' && FenceAt(s, 1) && AtLineEnd(s, 4) then StripClosingFences(s[4..])
    else if FenceAt(s, 0) && AtLineEnd(s, 3) then StripClosingFences(s[3..])
    else [s[0]] + StripClosingFences(s[1..])
  }

  /** Three backquotes start at `i`. */
  predicate FenceAt(s: string, i: nat) {
    i + 3 <= |s| && s[i] == '`' && s[i + 1] == '`' && s[i + 2] == '`'
  }

  /** The `cleaned` text every stage works on. */
  function Clean(text: string): string {
    Strip(StripClosingFences(StripOpeningFences(text, 0)))
  }

  /** `cleaned.replace('\\"', '"').replace('\\\\', '\\')` */
  function Unescape(s: string): string {
    Replace(Replace(s, "\\\"", "\""), "\\\\", "\\")
  }

  // ---------------------------------------------------------------------------------------
  // The brace scan

  function Delta(c: char): int {
    if c == '{' then 1 else if c == '}' then -1 else 0
  }

  /** The brace count after reading `s[..k]`. */
  function Depth(s: string, k: nat): int
    requires k <= |s|
    decreases k
  {
    if k == 0 then 0 else Depth(s, k - 1) + Delta(s[k - 1])
  }

  /** Before index `i` the scan has seen a '{' while the count was 0 (so `start_idx != -1`). */
  predicate OpenedBefore(s: string, i: nat)
    requires i <= |s|
  {
    exists j :: 0 <= j < i && s[j] == '{' && Depth(s, j) == 0
  }

  /** The '}' at `i` brings the count back to 0 after a '{' seen at count 0. */
  predicate ClosesAt(s: string, i: nat)
    requires i < |s|
  {
    s[i] == '}' && Depth(s, i + 1) == 0 && OpenedBefore(s, i)
  }

  /** The scan from index `i` with `brace_count == depth` and `start_idx == start`. */
  function ScanFrom(s: string, i: nat, depth: int, start: int): (r: Option<(nat, nat)>)
    requires i <= |s| && -1 <= start < i + 1
    ensures r.Some? ==> r.value.0 < r.value.1 <= |s|
    decreases |s| - i
  {
    if i == |s| then None
    else if s[i] == '{' then ScanFrom(s, i + 1, depth + 1, if depth == 0 then i else start)
    else if s[i] == '}' then
      if depth - 1 == 0 && start != -1 then Some((start, i + 1))
      else ScanFrom(s, i + 1, depth - 1, start)
    else ScanFrom(s, i + 1, depth, start)
  }

  /** The span `fixed[start_idx:i+1]` the scan hands to the parser, if it reaches one. */
  function BalancedSpan(s: string): (r: Option<(nat, nat)>)
    ensures r.Some? ==> r.value.0 < r.value.1 <= |s|
  {
    ScanFrom(s, 0, 0, -1)
  }

  /** What the scan knows at index `i`. */
  ghost predicate ScanInvariant(s: string, i: nat, depth: int, start: int)
    requires i <= |s|
  {
    && depth == Depth(s, i)
    && -1 <= start < i + 1
    && (start == -1 <==> !OpenedBefore(s, i))
    && (start != -1 ==>
          start < i && s[start] == '{' && Depth(s, start) == 0
          && forall k :: start < k <= i ==> Depth(s, k) > 0)
    && forall j :: 0 <= j < i ==> !ClosesAt(s, j)
  }

  /** The span the scan returns: it opens with '{' at count 0 and is the first place the count returns to 0. */
  ghost predicate FirstBalanced(s: string, a: nat, b: nat) {
    && a < b <= |s|
    && s[a] == '{' && s[b - 1] == '}'
    && Depth(s, a) == 0 && Depth(s, b) == 0
    && (forall k :: a < k < b ==> Depth(s, k) > 0)
    && ClosesAt(s, b - 1)
    && forall j :: 0 <= j < b - 1 ==> !ClosesAt(s, j)
  }

  lemma OpenedBeforeNext(s: string, i: nat)
    requires i < |s|
    ensures OpenedBefore(s, i + 1) <==> OpenedBefore(s, i) || (s[i] == '{' && Depth(s, i) == 0)
  {
    if OpenedBefore(s, i + 1) && !OpenedBefore(s, i) {
      var j :| 0 <= j < i + 1 && s[j] == '{' && Depth(s, j) == 0;
      assert j == i;
    }
  }

  lemma {:induction false} ScanFromSpec(s: string, i: nat, depth: int, start: int)
    requires i <= |s| && ScanInvariant(s, i, depth, start)
    ensures ScanFrom(s, i, depth, start).None? ==> forall j :: 0 <= j < |s| ==> !ClosesAt(s, j)
    ensures ScanFrom(s, i, depth, start).Some? ==>
      FirstBalanced(s, ScanFrom(s, i, depth, start).value.0, ScanFrom(s, i, depth, start).value.1)
    decreases |s| - i
  {
    if i < |s| {
      if s[i] == '}' && depth - 1 == 0 && start != -1 {
        ScanHit(s, i, depth, start);
      } else {
        ScanStep(s, i, depth, start);
        ScanFromSpec(s, i + 1, depth + Delta(s[i]), if s[i] == '{' && depth == 0 then i else start);
      }
    }
  }

  /** A '}' that brings the count to 0 once a '{' was seen at count 0 ends the first balanced span. */
  lemma ScanHit(s: string, i: nat, depth: int, start: int)
    requires i < |s| && ScanInvariant(s, i, depth, start)
    requires s[i] == '}' && depth - 1 == 0 && start != -1
    ensures FirstBalanced(s, start, i + 1)
  {
    assert Depth(s, i + 1) == 0;
    assert ClosesAt(s, i);
  }

  /** Any other character keeps the invariant, with the count and `start_idx` updated as the loop does. */
  lemma ScanStep(s: string, i: nat, depth: int, start: int)
    requires i < |s| && ScanInvariant(s, i, depth, start)
    requires !(s[i] == '}' && depth - 1 == 0 && start != -1)
    ensures ScanInvariant(s, i + 1, depth + Delta(s[i]), if s[i] == '{' && depth == 0 then i else start)
  {
    OpenedBeforeNext(s, i);
    assert Depth(s, i + 1) == depth + Delta(s[i]);
    if start != -1 && !(s[i] == '{' && depth == 0) {
      assert Depth(s, i) > 0;
    }
    assert !ClosesAt(s, i);
  }

  /**
   * The brace scan finds the first '}' that brings the count back to 0 after a '{' seen at count 0;
   * the span it returns starts at the last such '{', ends at that '}', and its count stays positive
   * in between. When it finds nothing, no such '}' exists.
   */
  lemma BalancedSpanSpec(s: string)
    ensures BalancedSpan(s).None? ==> forall j :: 0 <= j < |s| ==> !ClosesAt(s, j)
    ensures BalancedSpan(s).Some? ==> FirstBalanced(s, BalancedSpan(s).value.0, BalancedSpan(s).value.1)
  {
    ScanFromSpec(s, 0, 0, -1);
  }

  /** The loop of the second stage, over `fixed`, updating `brace_count` and `start_idx`. */
  method FindBalancedSpan(fixed: string) returns (span: Option<(nat, nat)>)
    ensures span == BalancedSpan(fixed)
  {
    var braceCount := 0;
    var startIdx := -1;
    for i := 0 to |fixed|
      invariant -1 <= startIdx < i + 1
      invariant ScanFrom(fixed, i, braceCount, startIdx) == BalancedSpan(fixed)
    {
      var c := fixed[i];
      if c == '{' {
        if braceCount == 0 {
          startIdx := i;
        }
        braceCount := braceCount + 1;
      } else if c == '}' {
        braceCount := braceCount - 1;
        if braceCount == 0 && startIdx != -1 {
          return Some((startIdx, i + 1));
        }
      }
    }
    return None;
  }

  // ---------------------------------------------------------------------------------------
  // The greedy stage

  function FirstIndexOf(s: string, c: char): (r: Option<nat>)
    ensures r.Some? ==> r.value < |s| && s[r.value] == c && forall k :: 0 <= k < r.value ==> s[k] != c
    ensures r.None? ==> forall k :: 0 <= k < |s| ==> s[k] != c
    decreases |s|
  {
    if s == [] then None
    else if s[0] == c then Some(0)
    else match FirstIndexOf(s[1..], c)
      case None => None
      case Some(k) => Some(k + 1)
  }

  function LastIndexOf(s: string, c: char): (r: Option<nat>)
    ensures r.Some? ==> r.value < |s| && s[r.value] == c && forall k :: r.value < k < |s| ==> s[k] != c
    ensures r.None? ==> forall k :: 0 <= k < |s| ==> s[k] != c
    decreases |s|
  {
    if s == [] then None
    else if s[|s| - 1] == c then Some(|s| - 1)
    else LastIndexOf(s[..|s| - 1], c)
  }

  /**
   * `re.search(r'\{[\s\S]*\}', s)`: from the first '{' to the last '}', when that '}' comes after it;
   * otherwise no '}' follows any '{'.
   */
  function GreedySpan(s: string): (r: Option<(nat, nat)>)
    ensures r.Some? ==>
      && r.value.0 < r.value.1 <= |s|
      && s[r.value.0] == '{' && s[r.value.1 - 1] == '}'
      && (forall k :: 0 <= k < r.value.0 ==> s[k] != '{')
      && (forall k :: r.value.1 <= k < |s| ==> s[k] != '}')
    ensures r.None? ==> forall i, j :: 0 <= i < j < |s| && s[i] == '{' ==> s[j] != '}'
  {
    match (FirstIndexOf(s, '{'), LastIndexOf(s, '}'))
    case (Some(a), Some(b)) => if a < b then Some((a, b + 1)) else None
    case _ => None
  }

  // ---------------------------------------------------------------------------------------
  // The cascade

  /** Stage 3: parse the first balanced span of the un-escaped text. */
  function BraceStage(parse: Parser, fixed: string): Option<Object> {
    match BalancedSpan(fixed)
    case None => None
    case Some((a, b)) => parse(fixed[a..b])
  }

  /** Stage 4: parse the greedy span of `cleaned`. */
  function GreedyStage(parse: Parser, cleaned: string): Option<Object> {
    match GreedySpan(cleaned)
    case None => None
    case Some((a, b)) => parse(cleaned[a..b])
  }

  /** What `extract_json_from_response` returns. */
  function Recover(parse: Parser, text: string): Object {
    if text == [] then ErrorObject(EmptyResponseMessage) else RecoverCleaned(parse, Clean(text))
  }

  /** The stages after the empty check, all of which see only `cleaned`. */
  function RecoverCleaned(parse: Parser, cleaned: string): Object {
    if parse(cleaned).Some? then parse(cleaned).value
    else if BraceStage(parse, Unescape(cleaned)).Some? then BraceStage(parse, Unescape(cleaned)).value
    else if GreedyStage(parse, cleaned).Some? then GreedyStage(parse, cleaned).value
    else ErrorObject(InvalidResponseMessage(cleaned))
  }

  method ExtractJsonFromResponse(parse: Parser, responseContent: string) returns (r: Object)
    ensures r == Recover(parse, responseContent)
  {
    if responseContent == [] {
      return ErrorObject(EmptyResponseMessage);
    }
    var cleaned := Strip(StripClosingFences(StripOpeningFences(responseContent, 0)));
    var direct := parse(cleaned);
    if direct.Some? {
      return direct.value;
    }
    var fixed := Unescape(cleaned);
    var span := FindBalancedSpan(fixed);
    if span.Some? {
      var braced := parse(fixed[span.value.0..span.value.1]);
      if braced.Some? {
        return braced.value;
      }
    }
    var greedy := GreedySpan(cleaned);
    if greedy.Some? {
      var matched := parse(cleaned[greedy.value.0..greedy.value.1]);
      if matched.Some? {
        return matched.value;
      }
    }
    return ErrorObject(InvalidResponseMessage(cleaned));
  }

  // ---------------------------------------------------------------------------------------
  // Properties of the cascade

  /** Some span of `s` that opens with '{' and closes with '}' parses to `r`. */
  ghost predicate ParsedSpan(parse: Parser, s: string, r: Object) {
    exists a, b :: 0 <= a < b <= |s| && s[a] == '{' && s[b - 1] == '}' && parse(s[a..b]) == Some(r)
  }

  /**
   * The order of the cascade: an empty reply is refused; a `cleaned` text that parses is returned
   * ahead of any later stage; then the first balanced span of the un-escaped text, then the greedy
   * span of the cleaned text; when all of them fail, the "Invalid JSON response" error. Whatever
   * a span stage returns is what the parser made of a brace-delimited window of its input.
   */
  lemma RecoverProvenance(parse: Parser, text: string)
    ensures text == [] ==> Recover(parse, text) == ErrorObject(EmptyResponseMessage)
    ensures text != [] && parse(Clean(text)).Some? ==> Recover(parse, text) == parse(Clean(text)).value
    ensures text != [] && parse(Clean(text)).None? && BraceStage(parse, Unescape(Clean(text))).Some? ==>
      Recover(parse, text) == BraceStage(parse, Unescape(Clean(text))).value
    ensures (text != [] && parse(Clean(text)).None? && BraceStage(parse, Unescape(Clean(text))).None? &&
             GreedyStage(parse, Clean(text)).Some?) ==>
      Recover(parse, text) == GreedyStage(parse, Clean(text)).value
    ensures (text != [] && parse(Clean(text)).None? && BraceStage(parse, Unescape(Clean(text))).None? &&
             GreedyStage(parse, Clean(text)).None?) ==>
      Recover(parse, text) == ErrorObject(InvalidResponseMessage(Clean(text)))
    ensures text != [] && parse(Clean(text)).None? ==>
      || ParsedSpan(parse, Unescape(Clean(text)), Recover(parse, text))
      || ParsedSpan(parse, Clean(text), Recover(parse, text))
      || Recover(parse, text) == ErrorObject(InvalidResponseMessage(Clean(text)))
  {
    if text != [] && parse(Clean(text)).None? {
      var cleaned := Clean(text);
      var fixed := Unescape(cleaned);
      var r := Recover(parse, text);
      if BraceStage(parse, fixed).Some? {
        var (a, b) := BalancedSpan(fixed).value;
        BalancedSpanSpec(fixed);
        assert parse(fixed[a..b]) == Some(r);
      } else if GreedyStage(parse, cleaned).Some? {
        var (a, b) := GreedySpan(cleaned).value;
        assert parse(cleaned[a..b]) == Some(r);
      }
    }
  }

  predicate NoBacktick(t: string) {
    forall k :: 0 <= k < |t| ==> t[k] != '`'
  }

  /** Text that already is what the model was asked for: non-empty, no fences, no surrounding whitespace. */
  predicate Bare(t: string) {
    t != [] && NoBacktick(t) && !IsSpace(t[0]) && !IsSpace(t[|t| - 1])
  }

  lemma {:induction false} OpeningFencesNone(s: string, i: nat)
    requires i <= |s|
    requires forall k :: i <= k < |s| ==> !OpeningFenceAt(s, k)
    ensures StripOpeningFences(s, i) == s[i..]
    decreases |s| - i
  {
    if i < |s| {
      OpeningFencesNone(s, i + 1);
    }
  }

  lemma {:induction false} ClosingFencesAppend(t: string, u: string)
    requires NoBacktick(t) && (u == [] || u[0] != '`')
    ensures StripClosingFences(t + u) == t + StripClosingFences(u)
    decreases |t|
  {
    if t != [] {
      FirstCharKept(t, u);
      ClosingFencesAppend(t[1..], u);
      ConsSplit(t, StripClosingFences(u));
    } else {
      assert t + u == u;
    }
  }

  /** The first character of `t + u` is not part of a closing fence. */
  lemma FirstCharKept(t: string, u: string)
    requires t != [] && NoBacktick(t) && (u == [] || u[0] != '`')
    ensures StripClosingFences(t + u) == [t[0]] + StripClosingFences(t[1..] + u)
  {
    var s := t + u;
    assert s[0] == t[0];
    assert |s| >= 2 ==> s[1] != '`' by {
      if |s| >= 2 {
        assert s[1] == (if |t| > 1 then t[1] else u[0]);
      }
    }
    PlainFirst(s);
    TailOfConcat(t, u);
  }

  /** A first character that does not start a closing fence is kept. */
  lemma PlainFirst(s: string)
    requires s != [] && s[0] != '`' && (|s| < 2 || s[1] != '`')
    ensures StripClosingFences(s) == [s[0]] + StripClosingFences(s[1..])
  {
    assert !FenceAt(s, 0) && !FenceAt(s, 1);
  }

  lemma TailOfConcat(t: string, u: string)
    requires t != []
    ensures (t + u)[1..] == t[1..] + u
  {
  }

  lemma ConsSplit(t: string, r: string)
    requires t != []
    ensures [t[0]] + (t[1..] + r) == t + r
  {
    assert [t[0]] + t[1..] == t;
  }

  lemma NoBacktickNoOpeningFence(s: string, k: nat)
    requires k < |s| && s[k] != '`'
    ensures !OpeningFenceAt(s, k)
  {
    assert |s[k..]| >= 7 ==> s[k..][..7][0] == s[k];
  }

  /**
   * A ```json that does not start a line is not an opening fence: it stays, like the rest of text
   * holding no other backquote.
   */
  lemma OpeningFenceMidLineKept(a: string, b: string)
    requires NoBacktick(a) && a != [] && a[|a| - 1] != '\n' && NoBacktick(b)
    ensures StripOpeningFences(a + "```json" + b, 0) == a + "```json" + b
  {
    var s := a + "```json" + b;
    var n := |a|;
    forall k | 0 <= k < |s| ensures !OpeningFenceAt(s, k) {
      if k < n {
        assert s[k] == a[k];
        NoBacktickNoOpeningFence(s, k);
      } else if k == n {
        assert s[k - 1] == a[n - 1];
      } else if k <= n + 2 {
        assert s[k - 1] == '`';
      } else if k < n + 7 {
        assert s[k] != '`';
        NoBacktickNoOpeningFence(s, k);
      } else {
        assert s[k] == b[k - n - 7];
        NoBacktickNoOpeningFence(s, k);
      }
    }
    OpeningFencesNone(s, 0);
    assert s[0..] == s;
  }

  /**
   * A ``` that does not end a line is not a closing fence: it stays, like the rest of text holding
   * no other backquote.
   */
  lemma {:induction false} ClosingFenceMidLineKept(a: string, b: string)
    requires NoBacktick(a) && NoBacktick(b) && b != [] && b[0] != '\n'
    ensures StripClosingFences(a + "```" + b) == a + "```" + b
    decreases |a|
  {
    var u := "```" + b;
    assert a + u == a + "```" + b by {}
    if a == [] {
      FenceMidLineKept(b);
      assert [] + u == u;
    } else {
      assert StripClosingFences(a + u) == [a[0]] + StripClosingFences(a[1..] + u) by {
        KeptBeforeMidLineFence(a, b);
      }
      assert StripClosingFences(a[1..] + u) == a[1..] + u by {
        assert a[1..] + u == a[1..] + "```" + b;
        ClosingFenceMidLineKept(a[1..], b);
      }
      ConsSplit(a, u);
    }
  }

  lemma KeptBeforeMidLineFence(a: string, b: string)
    requires a != [] && NoBacktick(a) && b != [] && b[0] != '\n'
    ensures StripClosingFences(a + ("```" + b)) == [a[0]] + StripClosingFences(a[1..] + ("```" + b))
  {
    var u := "```" + b;
    var s := a + u;
    assert s[0] == a[0];
    if |a| >= 2 {
      assert s[1] == a[1];
    } else {
      assert |s| > 4 && s[4] == b[0];
    }
    assert StripClosingFences(s) == [a[0]] + StripClosingFences(s[1..]);
    TailOfConcat(a, u);
  }

  /** A ``` followed by more of its line is kept, and so is the backquote-free rest. */
  lemma FenceMidLineKept(b: string)
    requires NoBacktick(b) && b != [] && b[0] != '\n'
    ensures StripClosingFences("```" + b) == "```" + b
  {
    var s := "```" + b;
    assert s[3] == b[0];
    assert StripClosingFences(s) == "`" + StripClosingFences(s[1..]);
    assert s[1..][2] == b[0];
    assert StripClosingFences(s[1..]) == "`" + StripClosingFences(s[2..]);
    assert s[2..][1] == b[0];
    assert StripClosingFences(s[2..]) == "`" + StripClosingFences(b);
    ClosingFencesAppend(b, []);
    assert b + [] == b;
  }

  lemma {:induction false} OpeningFencesUpTo(s: string, i: nat, k: nat)
    requires i <= k <= |s|
    requires forall j :: i <= j < k ==> !OpeningFenceAt(s, j)
    ensures StripOpeningFences(s, i) == s[i..k] + StripOpeningFences(s, k)
    decreases k - i
  {
    if i < k {
      assert StripOpeningFences(s, i) == [s[i]] + StripOpeningFences(s, i + 1);
      OpeningFencesUpTo(s, i + 1, k);
      AppendAssoc([s[i]], s[i + 1..k], StripOpeningFences(s, k));
      assert [s[i]] + s[i + 1..k] == s[i..k];
    } else {
      assert s[i..k] == [];
    }
  }

  /**
   * A ```json that starts a line after a line break goes, with the whitespace after it; the text
   * around it, holding no other backquote, stays.
   */
  lemma OpeningFenceAfterBreakStripped(a: string, b: string)
    requires NoBacktick(a) && NoBacktick(b) && (b == [] || !IsSpace(b[0]))
    ensures StripOpeningFences(a + "\n" + "```json" + b, 0) == a + "\n" + b
  {
    var s := a + "\n" + "```json" + b;
    OpeningPrefixKept(a, b);
    FenceLineAt(a, b);
    assert s[|a| + 8..] == b;
    OpeningTailKept(s, |a| + 8);
  }

  lemma OpeningPrefixKept(a: string, b: string)
    requires NoBacktick(a)
    ensures var s := a + "\n" + "```json" + b;
      StripOpeningFences(s, 0) == a + "\n" + StripOpeningFences(s, |a| + 1)
  {
    var s := a + "\n" + "```json" + b;
    var n := |a| + 1;
    forall j | 0 <= j < n ensures !OpeningFenceAt(s, j) {
      assert s[j] != '`';
      NoBacktickNoOpeningFence(s, j);
    }
    OpeningFencesUpTo(s, 0, n);
    assert s[0..n] == a + "\n";
  }

  /** Past index `n`, text with no backquote has no opening fence to strip. */
  lemma OpeningTailKept(s: string, n: nat)
    requires n <= |s| && NoBacktick(s[n..])
    ensures StripOpeningFences(s, n) == s[n..]
  {
    forall j | n <= j < |s| ensures !OpeningFenceAt(s, j) {
      assert s[j] == s[n..][j - n];
      NoBacktickNoOpeningFence(s, j);
    }
    OpeningFencesNone(s, n);
  }

  /** The ```json after the break is an opening fence, and no whitespace follows it. */
  lemma FenceLineAt(a: string, b: string)
    requires b == [] || !IsSpace(b[0])
    ensures var s := a + "\n" + "```json" + b;
      && OpeningFenceAt(s, |a| + 1)
      && SpaceRunEnd(s, |a| + 8) == |a| + 8
  {
    var s := a + "\n" + "```json" + b;
    var n := |a| + 1;
    assert s[n - 1] == '\n';
    assert s[n..][..7] == "```json";
    if b != [] { assert s[n + 7] == b[0]; }
  }

  /** A ``` that ends a line goes with the line break before it; the backquote-free text around it stays. */
  lemma ClosingFenceAtLineEndStripped(a: string, b: string)
    requires NoBacktick(a) && NoBacktick(b)
    ensures StripClosingFences(a + "\n```" + "\n" + b) == a + "\n" + b
  {
    var u := "\n```" + "\n" + b;
    AppendAssoc(a, "\n```" + "\n", b);
    AppendAssoc(a, "\n```", "\n");
    assert StripClosingFences(a + u) == a + StripClosingFences(u) by {
      ClosingFencesAppend(a, u);
    }
    assert StripClosingFences(u) == "\n" + b by {
      assert u[4..] == "\n" + b;
      ClosingFencesAppend("\n" + b, []);
      assert "\n" + b + [] == "\n" + b;
    }
    AppendAssoc(a, "\n", b);
  }

  lemma BareIsClean(t: string)
    requires Bare(t)
    ensures Clean(t) == t
  {
    forall k | 0 <= k < |t| ensures !OpeningFenceAt(t, k) {
      NoBacktickNoOpeningFence(t, k);
    }
    OpeningFencesNone(t, 0);
    ClosingFencesAppend(t, []);
    assert t + [] == t;
  }

  lemma FenceTailRemoved(t: string)
    requires Bare(t)
    ensures StripClosingFences(t + "\n```") == t
  {
    var tail := "\n```";
    assert StripClosingFences(tail) == [] by {
      assert tail[0] == '\n' && FenceAt(tail, 1) && AtLineEnd(tail, 4);
    }
    ClosingFencesAppend(t, tail);
    assert t + [] == t;
  }

  lemma CleanJsonFenced(t: string)
    requires Bare(t)
    ensures Clean("```json\n" + t + "\n```") == t
  {
    var tail := "\n```";
    var f := "```json\n" + t + tail;
    assert OpeningFenceAt(f, 0) by { assert f[..7] == "```json"; }
    assert SpaceRunEnd(f, 7) == 8 by { assert f[7] == '\n' && f[8] == t[0]; }
    forall k | 8 <= k < |f| ensures !OpeningFenceAt(f, k) {
      if k < 8 + |t| {
        assert f[k] == t[k - 8];
        NoBacktickNoOpeningFence(f, k);
      } else {
        assert |f[k..]| < 7;
      }
    }
    OpeningFencesNone(f, 8);
    assert StripOpeningFences(f, 0) == t + tail by { assert f[8..] == t + tail; }
    FenceTailRemoved(t);
    StripUnchanged(t);
  }

  lemma CleanBareFenced(t: string)
    requires Bare(t)
    ensures Clean("```\n" + t + "\n```") == t
  {
    var g := "```\n" + t + "\n```";
    BareFencedNoOpening(t);
    OpeningFencesNone(g, 0);
    assert g[0..] == g;
    BareFencedClosing(t);
    StripLeadingBreak(t);
  }

  lemma BareFencedNoOpening(t: string)
    requires Bare(t)
    ensures var g := "```\n" + t + "\n```";
      forall k :: 0 <= k < |g| ==> !OpeningFenceAt(g, k)
  {
    var g := "```\n" + t + "\n```";
    forall k | 0 <= k < |g| ensures !OpeningFenceAt(g, k) {
      if k == 0 {
        assert |g[k..]| >= 7 ==> g[k..][..7][3] == g[3] == '\n';
      } else if k < 4 {
        assert g[k - 1] != '\n';
      } else if k < 4 + |t| {
        assert g[k] == t[k - 4];
        NoBacktickNoOpeningFence(g, k);
      } else {
        assert |g[k..]| < 7;
      }
    }
  }

  lemma BareFencedClosing(t: string)
    requires Bare(t)
    ensures StripClosingFences("```\n" + t + "\n```") == "\n" + t
  {
    var tail := "\n```";
    var g := "```\n" + t + tail;
    var h := "\n" + (t + tail);
    assert FenceAt(g, 0) && AtLineEnd(g, 3);
    assert g[3..] == h;
    assert h[1] == t[0];
    PlainFirst(h);
    assert h[1..] == t + tail;
    FenceTailRemoved(t);
  }

  lemma StripLeadingBreak(t: string)
    requires Bare(t)
    ensures Strip("\n" + t) == t
  {
    var s := "\n" + t;
    assert SpaceRunEnd(s, 0) == 1 by { assert s[1] == t[0]; }
    StripUnchanged(t);
  }

  /** A reply wrapped in a ```json fence is recovered exactly as the same text sent without it. */
  lemma JsonFencedSameAsBare(parse: Parser, t: string)
    requires Bare(t)
    ensures Recover(parse, "```json\n" + t + "\n```") == Recover(parse, t)
  {
    BareIsClean(t);
    CleanJsonFenced(t);
  }

  /** A reply wrapped in a bare ``` fence is recovered exactly as the same text sent without it. */
  lemma PlainFencedSameAsBare(parse: Parser, t: string)
    requires Bare(t)
    ensures Recover(parse, "```\n" + t + "\n```") == Recover(parse, t)
  {
    BareIsClean(t);
    CleanBareFenced(t);
  }

  /** A brace-balanced object: opens with '{', and its count first returns to 0 at its last character. */
  ghost predicate BalancedObject(o: string) {
    |o| >= 2 && o[0] == '{' && Depth(o, |o|) == 0 && forall k :: 0 < k < |o| ==> Depth(o, k) > 0
  }

  lemma {:induction false} DepthPrefix(u: string, v: string, k: nat)
    requires k <= |u|
    ensures Depth(u + v, k) == Depth(u, k)
    decreases k
  {
    if k > 0 {
      DepthPrefix(u, v, k - 1);
    }
  }

  /** The brace scan over an object followed by anything stops at the end of that object. */
  lemma BalancedPrefixSpan(o: string, rest: string)
    requires BalancedObject(o)
    ensures BalancedSpan(o + rest) == Some((0, |o|))
  {
    var s := o + rest;
    forall k | 0 <= k <= |o| ensures Depth(s, k) == Depth(o, k) {
      DepthPrefix(o, rest, k);
    }
    assert Depth(o, 1) == 1;
    BalancedObjectEnds(o);
    assert OpenedBefore(s, |o| - 1) by { assert s[0] == '{' && Depth(s, 0) == 0; }
    assert ClosesAt(s, |o| - 1);
    BalancedSpanSpec(s);
    var (a, b) := BalancedSpan(s).value;
    assert b <= |o|;
    assert b == |o| by { assert Depth(s, b) == 0; }
    assert a == 0 by { assert Depth(s, a) == 0; }
  }

  /** `s` holds neither of the two escape pairs that `Unescape` rewrites. */
  predicate NoEscapes(s: string) {
    !Contains(s, "\\\"") && !Contains(s, "\\\\")
  }

  /** Un-escaping text that holds no escape pair changes nothing. */
  lemma UnescapeNoEscapes(s: string)
    requires NoEscapes(s)
    ensures Unescape(s) == s
  {
  }

  /** Text without any backslash holds no escape pair. */
  lemma UnescapeNoBackslash(s: string)
    requires '\\' !in s
    ensures NoEscapes(s) && Unescape(s) == s
  {
    if Contains(s, "\\\"") { ContainsChar(s, "\\\"", '\\'); }
    if Contains(s, "\\\\") { ContainsChar(s, "\\\\", '\\'); }
  }

  /**
   * A reply holding a valid object followed by trailing prose yields that object, not an error:
   * the first balanced span is exactly the object.
   */
  lemma TrailingProseRecovered(parse: Parser, o: string, prose: string)
    requires BalancedObject(o) && Bare(o + prose) && NoEscapes(o + prose)
    requires parse(o + prose).None? && parse(o).Some?
    ensures Recover(parse, o + prose) == parse(o).value
  {
    var s := o + prose;
    assert Clean(s) == s by { BareIsClean(s); }
    assert BraceStage(parse, Unescape(s)) == parse(o) by {
      UnescapeNoEscapes(s);
      BalancedPrefixSpan(o, prose);
      assert s[0..|o|] == o;
    }
  }

  lemma BalancedObjectEnds(o: string)
    requires BalancedObject(o)
    ensures o[|o| - 1] == '}'
  {
    assert Depth(o, |o|) == Depth(o, |o| - 1) + Delta(o[|o| - 1]);
    if |o| - 1 > 0 { assert Depth(o, |o| - 1) > 0; }
  }

  lemma GreedySpanWhole(s: string)
    requires |s| >= 2 && s[0] == '{' && s[|s| - 1] == '}'
    ensures GreedySpan(s) == Some((0, |s|))
  {
  }

  /**
   * When the first balanced object fails to parse, a later one is never tried: the greedy span of
   * two adjacent objects covers both, and if that fails too the reply is an error even though the
   * second object alone would parse.
   */
  lemma SecondObjectNeverTried(parse: Parser, o1: string, o2: string)
    requires BalancedObject(o1) && BalancedObject(o2) && Bare(o1 + o2) && NoEscapes(o1 + o2)
    requires parse(o1 + o2).None? && parse(o1).None?
    ensures Recover(parse, o1 + o2) == ErrorObject(InvalidResponseMessage(o1 + o2))
  {
    var s := o1 + o2;
    BareIsClean(s);
    BraceStageTriesFirst(parse, o1, o2);
    GreedyStageTriesBoth(parse, o1, o2);
  }

  lemma BraceStageTriesFirst(parse: Parser, o1: string, o2: string)
    requires BalancedObject(o1) && NoEscapes(o1 + o2) && parse(o1).None?
    ensures BraceStage(parse, Unescape(o1 + o2)).None?
  {
    var s := o1 + o2;
    UnescapeNoEscapes(s);
    BalancedPrefixSpan(o1, o2);
    assert s[0..|o1|] == o1;
  }

  lemma GreedyStageTriesBoth(parse: Parser, o1: string, o2: string)
    requires BalancedObject(o1) && BalancedObject(o2) && parse(o1 + o2).None?
    ensures GreedyStage(parse, o1 + o2).None?
  {
    var s := o1 + o2;
    BalancedObjectEnds(o1);
    BalancedObjectEnds(o2);
    GreedySpanWhole(s);
    assert s[0..|s|] == s;
  }
}
