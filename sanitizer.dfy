/**
 * `VB6Converter.sanitize_code`: four regular-expression substitutions over the generated C# text
 * (line comments, block comments, blank lines, Markdown fences) and a final `strip()`. Each
 * substitution is a left-to-right scan that, like `re.sub`, replaces the leftmost match and
 * resumes after it.
 */
module Sanitizer {
  import opened Text

  /** `re.sub(r'//.*?\n', '\n', s)`: from "//" up to the next line break, the comment goes and the break stays. */
  function StripLineComments(s: string): (r: string)
    ensures |r| <= |s|
    decreases |s|
  {
    if s == [] then []
    else if StartsWith(s, "//") && Contains(s[2..], "\n") then
      var j := 2 + Find(s[2..], "\n");
      "\n" + StripLineComments(s[j + 1..])
    else [s[0]] + StripLineComments(s[1..])
  }

  // `re.sub(r'/\*.*?\*/', '', s, flags=re.DOTALL)`: from "/*" to the first "*/" after it, across lines.
  function StripBlockComments(s: string): (r: string)
    ensures |r| <= |s|
    decreases |s|
  {
    if s == [] then []
    else if StartsWith(s, "/*") && Contains(s[2..], "*/") then
      var j := 2 + Find(s[2..], "*/");
      StripBlockComments(s[j + 2..])
    else [s[0]] + StripBlockComments(s[1..])
  }

  /** The last line break before index `e`, or -1. */
  function LastBreakBefore(s: string, e: nat): (k: int)
    requires e <= |s|
    ensures -1 <= k < e
    ensures k >= 0 ==> s[k] == '\n'
    ensures forall m :: k < m < e ==> s[m] != '\n'
    decreases e
  {
    if e == 0 then -1
    else if s[e - 1] == '\n' then e - 1
    else LastBreakBefore(s, e - 1)
  }

  /**
   * `re.sub(r'\n\s*\n', '\n', s)`: a line break, then whitespace holding another line break, becomes
   * one line break. The greedy `\s*` backs off to the last line break of the whitespace run.
   */
  function CollapseBlankLines(s: string): (r: string)
    ensures |r| <= |s|
    decreases |s|
  {
    if s == [] then []
    else if s[0] == '\n' && LastBreakBefore(s, SpaceRunEnd(s, 1)) >= 1 then
      var k := LastBreakBefore(s, SpaceRunEnd(s, 1));
      "\n" + CollapseBlankLines(s[k + 1..])
    else [s[0]] + CollapseBlankLines(s[1..])
  }

  predicate IsAsciiLetter(c: char) {
    'a' <= c <= 'z' || 'A' <= c <= 'Z'
  }

  /** First index at or after `i` that does not hold an ASCII letter (or |s|). */
  function LetterRunEnd(s: string, i: nat): (e: nat)
    requires i <= |s|
    ensures i <= e <= |s|
    ensures forall k :: i <= k < e ==> IsAsciiLetter(s[k])
    ensures e == |s| || !IsAsciiLetter(s[e])
    decreases |s| - i
  {
    if i == |s| || !IsAsciiLetter(s[i]) then i else LetterRunEnd(s, i + 1)
  }

  /** `re.sub(r'```[a-zA-Z]*\n?', '', s)`: a fence, its language tag and one line break after it go. */
  function RemoveFences(s: string): (r: string)
    ensures |r| <= |s|
    decreases |s|
  {
    if s == [] then []
    else if StartsWith(s, "```") then
      var l := LetterRunEnd(s, 3);
      if l < |s| && s[l] == '\n' then RemoveFences(s[l + 1..]) else RemoveFences(s[l..])
    else [s[0]] + RemoveFences(s[1..])
  }

  /** `sanitize_code`: the four substitutions in order, then `strip()`; the empty string stays empty. */
  function Sanitize(code: string): (r: string)
    ensures |r| <= |code|
    ensures r == [] || (!IsSpace(r[0]) && !IsSpace(r[|r| - 1]))
  {
    if code == [] then []
    else Strip(RemoveFences(CollapseBlankLines(StripBlockComments(StripLineComments(code)))))
  }

  // ---------------------------------------------------------------------------------------
  // The leftmost match is replaced and the scan resumes after it

  lemma NotStartingHere(s: string, k: string)
    requires !MatchAt(s, 0, k)
    ensures !StartsWith(s, k)
  {
    if |k| <= |s| { assert s[..|k|] == s[0..|k|]; }
  }

  /** Characters before the first "//" are copied. */
  lemma {:induction false} LineCommentsKeepPrefix(a: string, t: string)
    requires forall j :: 0 <= j < |a| ==> !MatchAt(a + t, j, "//")
    ensures StripLineComments(a + t) == a + StripLineComments(t)
    decreases |a|
  {
    if a != [] {
      var s := a + t;
      NotStartingHere(s, "//");
      assert StripLineComments(s) == [s[0]] + StripLineComments(s[1..]);
      NoMatchShift(s, "//", |a|);
      assert s[1..] == a[1..] + t;
      LineCommentsKeepPrefix(a[1..], t);
      AppendAssoc([a[0]], a[1..], StripLineComments(t));
      assert [a[0]] + a[1..] == a;
    } else {
      assert a + t == t;
    }
  }

  /** A line comment is cut up to, not including, its line break. */
  lemma LineCommentAtStart(c: string, b: string)
    requires '\n' !in c
    ensures StripLineComments("//" + c + "\n" + b) == "\n" + StripLineComments(b)
  {
    var s := "//" + c + "\n" + b;
    var u := c + "\n" + b;
    assert s[2..] == u;
    forall j | 0 <= j < |c| ensures !MatchAt(u, j, "\n") {
      assert u[j] == c[j];
    }
    assert u[|c|..|c| + 1] == "\n";
    FindFirst(u, "\n", |c|);
    assert s[2 + |c| + 1..] == b;
  }

  /**
   * `StripLineComments(a + "//" + c + "\n" + b) == a + "\n" + StripLineComments(b)` when the
   * "//" after `a` is the first one and `c` holds no line break: the leftmost comment goes, its
   * line break stays, and the scan resumes after it.
   */
  lemma LineCommentLeftmost(a: string, c: string, b: string)
    requires !Contains(a + "/", "//") && '\n' !in c
    ensures StripLineComments(a + "//" + c + "\n" + b) == a + "\n" + StripLineComments(b)
  {
    var t := "//" + c + "\n" + b;
    assert a + t == a + "//" + c + "\n" + b by {}
    assert StripLineComments(a + t) == a + StripLineComments(t) by {
      NoMatchBefore(a, "/", t, "//");
      LineCommentsKeepPrefix(a, t);
    }
    assert StripLineComments(t) == "\n" + StripLineComments(b) by {
      LineCommentAtStart(c, b);
    }
    AppendAssoc(a, "\n", StripLineComments(b));
  }

  /** A "//" with no line break after it is not a match: text without a line break is kept whole. */
  lemma {:induction false} LineCommentUnterminated(s: string)
    requires '\n' !in s
    ensures StripLineComments(s) == s
    decreases |s|
  {
    if s != [] {
      if |s| >= 2 {
        forall i | 0 <= i && i + 1 <= |s[2..]| ensures s[2..][i] != '\n' {
          assert s[2..][i] == s[i + 2];
        }
        NoHeadNoMatch(s[2..], "\n");
      }
      assert '\n' !in s[1..] by {
        forall i | 0 <= i < |s[1..]| ensures s[1..][i] != '\n' { assert s[1..][i] == s[i + 1]; }
      }
      LineCommentUnterminated(s[1..]);
    }
  }

  /**
   * `StripLineComments(a + "//" + c) == a + "//" + c` when that "//" is the first and no line
   * break follows it: a comment on the last line is kept.
   */
  lemma LineCommentAtEnd(a: string, c: string)
    requires !Contains(a + "/", "//") && '\n' !in c
    ensures StripLineComments(a + "//" + c) == a + "//" + c
  {
    var t := "//" + c;
    assert a + t == a + "//" + c by {}
    assert StripLineComments(a + t) == a + StripLineComments(t) by {
      NoMatchBefore(a, "/", t, "//");
      LineCommentsKeepPrefix(a, t);
    }
    assert '\n' !in t by {
      forall i | 0 <= i < |t| ensures t[i] != '\n' { if i >= 2 { assert t[i] == c[i - 2]; } }
    }
    LineCommentUnterminated(t);
  }

  // A "/*" that is never closed is not a match: text without "*/" is kept whole.
  lemma {:induction false} BlockCommentUnclosed(s: string)
    requires !Contains(s, "*/")
    ensures StripBlockComments(s) == s
    decreases |s|
  {
    if s != [] {
      assert !Contains(s[1..], "*/");
      if |s| >= 2 {
        assert s[1..][1..] == s[2..];
        assert !Contains(s[2..], "*/");
      }
      BlockCommentUnclosed(s[1..]);
    }
  }

  // Characters before the first "/*" are copied.
  lemma {:induction false} BlockCommentsKeepPrefix(a: string, t: string)
    requires forall j :: 0 <= j < |a| ==> !MatchAt(a + t, j, "/*")
    ensures StripBlockComments(a + t) == a + StripBlockComments(t)
    decreases |a|
  {
    if a != [] {
      var s := a + t;
      NotStartingHere(s, "/*");
      assert StripBlockComments(s) == [s[0]] + StripBlockComments(s[1..]);
      NoMatchShift(s, "/*", |a|);
      assert s[1..] == a[1..] + t;
      BlockCommentsKeepPrefix(a[1..], t);
      AppendAssoc([a[0]], a[1..], StripBlockComments(t));
      assert [a[0]] + a[1..] == a;
    } else {
      assert a + t == t;
    }
  }

  // A block comment is cut through the first "*/" after its opener, across lines.
  lemma BlockCommentAtStart(c: string, b: string)
    requires !Contains(c, "*/")
    ensures StripBlockComments("/*" + c + "*/" + b) == StripBlockComments(b)
  {
    var s := "/*" + c + "*/" + b;
    var u := c + "*/" + b;
    assert s[2..] == u;
    forall j | 0 <= j < |c| ensures !MatchAt(u, j, "*/") {
      MatchContains(c, "*/", j);
      if j + 2 <= |c| {
        assert u[j..j + 2] == c[j..j + 2];
      } else {
        assert u[j + 1] == '*';
      }
    }
    assert u[|c|..|c| + 2] == "*/";
    FindFirst(u, "*/", |c|);
    assert s[2 + |c| + 2..] == b;
  }

  // `StripBlockComments(a + "/*" + c + "*/" + b) == a + StripBlockComments(b)` when the opener
  // after `a` is the first one and `c` holds no closer: the leftmost comment goes entirely.
  lemma BlockCommentLeftmost(a: string, c: string, b: string)
    requires !Contains(a + "/", "/*") && !Contains(c, "*/")
    ensures StripBlockComments(a + "/*" + c + "*/" + b) == a + StripBlockComments(b)
  {
    var t := "/*" + c + "*/" + b;
    assert a + t == a + "/*" + c + "*/" + b by {}
    assert StripBlockComments(a + t) == a + StripBlockComments(t) by {
      NoMatchBefore(a, "/", t, "/*");
      BlockCommentsKeepPrefix(a, t);
    }
    BlockCommentAtStart(c, b);
  }

  /** Whitespace all of whose characters before index `m` are whitespace ends after `m`. */
  lemma SpaceRunPast(s: string, i: nat, m: nat)
    requires i <= m < |s| && forall k :: i <= k <= m ==> IsSpace(s[k])
    ensures m < SpaceRunEnd(s, i)
  {
  }

  /**
   * At a line break, the blank-line pattern matches exactly when another line break follows after
   * nothing but whitespace.
   */
  lemma BlankLineHereIff(s: string)
    requires s != [] && s[0] == '\n'
    ensures LastBreakBefore(s, SpaceRunEnd(s, 1)) >= 1
        <==> exists m :: 1 <= m < |s| && s[m] == '\n' && forall k :: 1 <= k < m ==> IsSpace(s[k])
  {
    var e := SpaceRunEnd(s, 1);
    var l := LastBreakBefore(s, e);
    if l >= 1 {
      assert s[l] == '\n' && forall k :: 1 <= k < l ==> IsSpace(s[k]);
    }
    if m :| 1 <= m < |s| && s[m] == '\n' && forall k :: 1 <= k < m ==> IsSpace(s[k]) {
      SpaceRunPast(s, 1, m);
    }
  }

  /** Characters before a line break are copied when `a` and that break hold no blank line. */
  lemma {:induction false} BlankLinesKeepPrefix(a: string, u: string)
    requires NoBlankLines(a + "\n")
    ensures CollapseBlankLines(a + "\n" + u) == a + CollapseBlankLines("\n" + u)
    decreases |a|
  {
    if a != [] {
      var s := a + "\n" + u;
      var p := a + "\n";
      if a[0] == '\n' {
        forall m | 1 <= m < |s| && s[m] == '\n' ensures exists k :: 1 <= k < m && !IsSpace(s[k]) {
          var n := if m < |a| then m else |a|;
          assert p[0] == '\n' && p[n] == '\n';
          var k :| 0 < k < n && !IsSpace(p[k]);
          assert p[k] == s[k];
        }
        BlankLineHereIff(s);
      }
      NoBlankLinesTail(p);
      assert p[1..] == a[1..] + "\n";
      assert s[1..] == a[1..] + "\n" + u;
      BlankLinesKeepPrefix(a[1..], u);
      AppendAssoc([a[0]], a[1..], CollapseBlankLines("\n" + u));
      assert [a[0]] + a[1..] == a;
    } else {
      assert a + "\n" + u == "\n" + u;
    }
  }

  /**
   * A line break, whitespace `w`, and a line break followed by a line whose indentation holds no
   * break become one line break, and the scan resumes at that line.
   */
  lemma BlankLinesAtStart(w: string, b: string)
    requires forall k :: 0 <= k < |w| ==> IsSpace(w[k])
    requires forall k :: 0 <= k < SpaceRunEnd(b, 0) ==> b[k] != '\n'
    ensures CollapseBlankLines("\n" + (w + "\n" + b)) == "\n" + CollapseBlankLines(b)
  {
    var s := "\n" + (w + "\n" + b);
    BlankRunLastBreak(w, b);
    assert s[|w| + 2..] == b;
  }

  /** In that text, the last line break of the whitespace run after the first is the one before `b`. */
  lemma BlankRunLastBreak(w: string, b: string)
    requires forall k :: 0 <= k < |w| ==> IsSpace(w[k])
    requires forall k :: 0 <= k < SpaceRunEnd(b, 0) ==> b[k] != '\n'
    ensures var s := "\n" + (w + "\n" + b); LastBreakBefore(s, SpaceRunEnd(s, 1)) == |w| + 1
  {
    var s := "\n" + (w + "\n" + b);
    var n := |w| + 1;
    var e := SpaceRunEnd(s, 1);
    assert n < e by {
      forall k | 1 <= k <= n ensures IsSpace(s[k]) { if k < n { assert s[k] == w[k - 1]; } }
      SpaceRunPast(s, 1, n);
    }
    assert forall m :: n < m < e ==> s[m] != '\n' by {
      forall m | n < m < e ensures s[m] != '\n' {
        var q := m - n - 1;
        assert b[q] == s[m];
        forall k | 0 <= k <= q ensures IsSpace(b[k]) { assert b[k] == s[n + 1 + k]; }
        SpaceRunPast(b, 0, q);
      }
    }
    assert s[n] == '\n';
  }

  /**
   * `CollapseBlankLines(a + "\n" + w + "\n" + b) == a + "\n" + CollapseBlankLines(b)` when `a` and
   * the first break hold no blank line, `w` is whitespace and `b`'s indentation holds no break:
   * the leftmost run of blank lines becomes one line break.
   */
  lemma BlankLinesLeftmost(a: string, w: string, b: string)
    requires NoBlankLines(a + "\n")
    requires forall k :: 0 <= k < |w| ==> IsSpace(w[k])
    requires forall k :: 0 <= k < SpaceRunEnd(b, 0) ==> b[k] != '\n'
    ensures CollapseBlankLines(a + "\n" + w + "\n" + b) == a + "\n" + CollapseBlankLines(b)
  {
    var u := w + "\n" + b;
    AppendAssoc(a + "\n", w + "\n", b);
    AppendAssoc(a + "\n", w, "\n");
    BlankLinesKeepPrefix(a, u);
    BlankLinesAtStart(w, b);
    AppendAssoc(a, "\n", CollapseBlankLines(b));
  }

  /** Characters before the first fence are copied. */
  lemma {:induction false} FencesKeepPrefix(a: string, t: string)
    requires forall j :: 0 <= j < |a| ==> !MatchAt(a + t, j, "```")
    ensures RemoveFences(a + t) == a + RemoveFences(t)
    decreases |a|
  {
    if a != [] {
      var s := a + t;
      NotStartingHere(s, "```");
      assert RemoveFences(s) == [s[0]] + RemoveFences(s[1..]);
      NoMatchShift(s, "```", |a|);
      assert s[1..] == a[1..] + t;
      FencesKeepPrefix(a[1..], t);
      AppendAssoc([a[0]], a[1..], RemoveFences(t));
      assert [a[0]] + a[1..] == a;
    } else {
      assert a + t == t;
    }
  }

  /** A fence goes with its whole letter tag and, when one follows, one line break. */
  lemma FenceAtStart(tag: string, b: string)
    requires forall k :: 0 <= k < |tag| ==> IsAsciiLetter(tag[k])
    requires b == [] || !IsAsciiLetter(b[0])
    ensures RemoveFences("```" + tag + b) == RemoveFences(if b != [] && b[0] == '\n' then b[1..] else b)
  {
    var s := "```" + tag + b;
    assert s[..3] == "```";
    var l := LetterRunEnd(s, 3);
    forall k | 3 <= k < 3 + |tag| ensures IsAsciiLetter(s[k]) { assert s[k] == tag[k - 3]; }
    if b != [] { assert s[3 + |tag|] == b[0]; }
    assert l == 3 + |tag|;
    assert s[l..] == b;
    if b != [] { assert s[l] == b[0] && s[l + 1..] == b[1..]; }
  }

  /**
   * `RemoveFences(a + "```" + tag + "\n" + b) == a + RemoveFences(b)` when the fence after `a` is
   * the first one and `tag` is all letters: the fence line goes and the scan resumes after it.
   */
  lemma FenceLeftmost(a: string, tag: string, b: string)
    requires !Contains(a + "``", "```")
    requires forall k :: 0 <= k < |tag| ==> IsAsciiLetter(tag[k])
    ensures RemoveFences(a + "```" + tag + "\n" + b) == a + RemoveFences(b)
  {
    var t := "```" + tag + "\n" + b;
    assert a + t == a + "```" + tag + "\n" + b by {}
    assert RemoveFences(a + t) == a + RemoveFences(t) by {
      NoMatchBefore(a, "``", t, "```");
      FencesKeepPrefix(a, t);
    }
    FenceLineAtStart(tag, b);
  }

  lemma FenceLineAtStart(tag: string, b: string)
    requires forall k :: 0 <= k < |tag| ==> IsAsciiLetter(tag[k])
    ensures RemoveFences("```" + tag + "\n" + b) == RemoveFences(b)
  {
    assert "```" + tag + "\n" + b == "```" + tag + ("\n" + b);
    FenceAtStart(tag, "\n" + b);
    assert ("\n" + b)[1..] == b;
  }

  // ---------------------------------------------------------------------------------------
  // Text with nothing to remove passes through

  /** No two line breaks with only whitespace between them. */
  predicate NoBlankLines(s: string) {
    forall i, j :: 0 <= i < j < |s| && s[i] == '\n' && s[j] == '\n' ==> exists k :: i < k < j && !IsSpace(s[k])
  }

  lemma {:induction false} LineCommentFree(s: string)
    requires !Contains(s, "//")
    ensures StripLineComments(s) == s
    decreases |s|
  {
    if s != [] {
      LineCommentFree(s[1..]);
    }
  }

  lemma {:induction false} BlockCommentFree(s: string)
    requires !Contains(s, "/*")
    ensures StripBlockComments(s) == s
    decreases |s|
  {
    if s != [] {
      BlockCommentFree(s[1..]);
    }
  }

  lemma {:induction false} FenceFree(s: string)
    requires !Contains(s, "```")
    ensures RemoveFences(s) == s
    decreases |s|
  {
    if s != [] {
      FenceFree(s[1..]);
    }
  }

  lemma NoBlankLinesTail(s: string)
    requires s != [] && NoBlankLines(s)
    ensures NoBlankLines(s[1..])
  {
    var t := s[1..];
    forall i, j | 0 <= i < j < |t| && t[i] == '\n' && t[j] == '\n'
      ensures exists k :: i < k < j && !IsSpace(t[k])
    {
      assert s[i + 1] == '\n' && s[j + 1] == '\n';
      var k :| i + 1 < k < j + 1 && !IsSpace(s[k]);
      assert t[k - 1] == s[k];
    }
  }

  /** At a line break of text without blank lines, the blank-line pattern does not match. */
  lemma NoBlankLineHere(s: string)
    requires s != [] && s[0] == '\n' && NoBlankLines(s)
    ensures LastBreakBefore(s, SpaceRunEnd(s, 1)) < 1
  {
    var e := SpaceRunEnd(s, 1);
    assert forall m :: 1 <= m < e ==> IsSpace(s[m]);
  }

  lemma {:induction false} BlankLineFree(s: string)
    requires NoBlankLines(s)
    ensures CollapseBlankLines(s) == s
    decreases |s|
  {
    if s != [] {
      if s[0] == '\n' {
        NoBlankLineHere(s);
      }
      NoBlankLinesTail(s);
      BlankLineFree(s[1..]);
    }
  }

  /**
   * Code with no comment openers, no blank lines, no fences and no surrounding whitespace is
   * returned unchanged.
   */
  lemma CleanCodeUnchanged(code: string)
    requires !Contains(code, "//") && !Contains(code, "/*") && !Contains(code, "```")
    requires NoBlankLines(code)
    requires code == [] || (!IsSpace(code[0]) && !IsSpace(code[|code| - 1]))
    ensures Sanitize(code) == code
  {
    LineCommentFree(code);
    BlockCommentFree(code);
    BlankLineFree(code);
    FenceFree(code);
    StripUnchanged(code);
  }

  // ---------------------------------------------------------------------------------------
  // A worked example

  /** The characters a fenced one-line snippet is made of: letters for the tag, no slash, backtick or break in the line. */
  predicate PlainLine(stmt: string) {
    && stmt != [] && !IsSpace(stmt[0]) && !IsSpace(stmt[|stmt| - 1])
    && forall k :: 0 <= k < |stmt| ==> stmt[k] != '/' && stmt[k] != '`' && stmt[k] != '\n'
  }

  predicate Letters(tag: string) {
    forall k :: 0 <= k < |tag| ==> IsAsciiLetter(tag[k])
  }

  lemma SnippetLineComment(tag: string, stmt: string, note: string)
    requires Letters(tag) && PlainLine(stmt) && '\n' !in note
    ensures StripLineComments("```" + tag + "\n" + stmt + " " + "//" + note + "\n" + "```")
         == "```" + tag + "\n" + stmt + " " + "\n" + "```"
  {
    var a := "```" + tag + "\n" + stmt + " ";
    assert !Contains(a + "/", "//") by {
      forall i | 0 <= i && i + 2 <= |a + "/"| ensures (a + "/")[i] != '/' {
        assert (a + "/")[i] == a[i];
        if 3 <= i < 3 + |tag| { assert a[i] == tag[i - 3]; }
        if 4 + |tag| <= i < 4 + |tag| + |stmt| { assert a[i] == stmt[i - 4 - |tag|]; }
      }
      NoHeadNoMatch(a + "/", "//");
    }
    assert StripLineComments("```") == "```" by {
      NoHeadNoMatch("```", "//");
      LineCommentFree("```");
    }
    LineCommentLeftmost(a, note, "```");
  }

  lemma SnippetNoBlockComment(tag: string, stmt: string)
    requires Letters(tag) && PlainLine(stmt)
    ensures var s := "```" + tag + "\n" + stmt + " " + "\n" + "```"; StripBlockComments(s) == s
  {
    var s := "```" + tag + "\n" + stmt + " " + "\n" + "```";
    forall i | 0 <= i && i + 2 <= |s| ensures s[i] != '/' {
      if 3 <= i < 3 + |tag| { assert s[i] == tag[i - 3]; }
      if 4 + |tag| <= i < 4 + |tag| + |stmt| { assert s[i] == stmt[i - 4 - |tag|]; }
    }
    NoHeadNoMatch(s, "/*");
    BlockCommentFree(s);
  }

  lemma SnippetNoBlankLine(tag: string, stmt: string)
    requires Letters(tag) && PlainLine(stmt)
    ensures var s := "```" + tag + "\n" + stmt + " " + "\n" + "```"; CollapseBlankLines(s) == s
  {
    var s := "```" + tag + "\n" + stmt + " " + "\n" + "```";
    var n := 3 + |tag|;
    forall k | 0 <= k < |s| && k != n && k != n + |stmt| + 2 ensures s[k] != '\n' {
      if 3 <= k < n { assert s[k] == tag[k - 3]; }
      if n + 1 <= k < n + 1 + |stmt| { assert s[k] == stmt[k - n - 1]; }
    }
    assert s[n + 1] == stmt[0];
    forall i, j | 0 <= i < j < |s| && s[i] == '\n' && s[j] == '\n'
      ensures exists k :: i < k < j && !IsSpace(s[k])
    {
      assert !IsSpace(s[n + 1]);
    }
    BlankLineFree(s);
  }

  lemma SnippetFences(tag: string, stmt: string)
    requires Letters(tag) && PlainLine(stmt)
    ensures RemoveFences("```" + tag + "\n" + stmt + " " + "\n" + "```") == stmt + " " + "\n"
  {
    var head := "```" + tag + "\n";
    var line := stmt + " " + "\n";
    assert head + (line + "```") == head + stmt + " " + "\n" + "```" by {
      AppendAssoc(head, line, "```");
      AppendAssoc(head, stmt + " ", "\n");
      AppendAssoc(head, stmt, " ");
    }
    FenceLineAtStart(tag, line + "```");
    assert RemoveFences(line + "```") == line + RemoveFences("```") by {
      forall i | 0 <= i && i + 3 <= |line + "``"| ensures (line + "``")[i] != '`' {
        if i < |stmt| { assert (line + "``")[i] == stmt[i]; }
      }
      NoHeadNoMatch(line + "``", "```");
      NoMatchBefore(line, "``", "```", "```");
      FencesKeepPrefix(line, "```");
    }
    assert RemoveFences("```") == [] by {
      assert "```" == "```" + [] + [];
      FenceAtStart([], []);
    }
    assert line + [] == line;
  }

  /**
   * A fenced one-line snippet ending in a line comment comes out as the bare line: the comment
   * goes (its line break stays), both fences go, and `strip()` drops the space and break left.
   */
  lemma SanitizeSnippet(tag: string, stmt: string, note: string)
    requires Letters(tag) && PlainLine(stmt) && '\n' !in note
    ensures Sanitize("```" + tag + "\n" + stmt + " " + "//" + note + "\n" + "```") == stmt
  {
    SnippetLineComment(tag, stmt, note);
    SnippetNoBlockComment(tag, stmt);
    SnippetNoBlankLine(tag, stmt);
    SnippetFences(tag, stmt);
    AppendAssoc(stmt, " ", "\n");
    StripTrailingSpace(stmt, " " + "\n");
  }

  /** For instance, "```cs", then "x = 1; // one", then "```", on three lines, becomes "x = 1;". */
  lemma SanitizeExample()
    ensures Sanitize("```" + "cs" + "\n" + "x = 1;" + " " + "//" + " one" + "\n" + "```") == "x = 1;"
  {
    SanitizeSnippet("cs", "x = 1;", " one");
  }
}
