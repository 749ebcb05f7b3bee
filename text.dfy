/**
 * The string operations of main.py that the converter relies on: containment (`k in s`),
 * `str.strip()`, `str.split(sep)`, `str.splitlines()`, `str.split()`, slicing `s[:n]`
 * and `str.replace`. Whitespace is the six ASCII whitespace characters.
 */
module Text {

  predicate IsSpace(c: char) {
    c == ' ' || c == '\t' || c == '\n' || c == '\r' || c == '\U{000B}' || c == '\U{000C}'
  }

  predicate StartsWith(s: string, p: string) {
    |p| <= |s| && s[..|p|] == p
  }

  /** Python's `k in s` for strings: some window of `s` equals `k`. */
  predicate Contains(s: string, k: string)
    decreases |s|
  {
    StartsWith(s, k) || (s != [] && Contains(s[1..], k))
  }

  lemma {:induction false} ContainsAt(s: string, k: string, i: nat)
    requires i + |k| <= |s| && s[i..i + |k|] == k
    ensures Contains(s, k)
    decreases i
  {
    if i > 0 {
      assert s[1..][i - 1..i - 1 + |k|] == s[i..i + |k|];
      ContainsAt(s[1..], k, i - 1);
    }
  }

  lemma {:induction false} ContainsWitness(s: string, k: string) returns (i: nat)
    requires Contains(s, k)
    ensures i + |k| <= |s| && s[i..i + |k|] == k
    decreases |s|
  {
    if StartsWith(s, k) {
      i := 0;
    } else {
      var j := ContainsWitness(s[1..], k);
      i := j + 1;
      assert s[1..][j..j + |k|] == s[i..i + |k|];
    }
  }

  /** `any(k in s for k in keywords)` */
  predicate ContainsAny(s: string, keywords: seq<string>) {
    exists k :: k in keywords && Contains(s, k)
  }

  /** Every character of a pattern that `s` contains occurs in `s`. */
  lemma ContainsChar(s: string, k: string, c: char)
    requires Contains(s, k) && c in k
    ensures c in s
  {
    var i := ContainsWitness(s, k);
    var j :| 0 <= j < |k| && k[j] == c;
    assert s[i + j] == s[i..i + |k|][j];
  }

  /** First index at or after `i` that does not hold whitespace (or |s|). */
  function SpaceRunEnd(s: string, i: nat): (e: nat)
    requires i <= |s|
    ensures i <= e <= |s|
    ensures forall k :: i <= k < e ==> IsSpace(s[k])
    ensures e == |s| || !IsSpace(s[e])
    decreases |s| - i
  {
    if i == |s| || !IsSpace(s[i]) then i else SpaceRunEnd(s, i + 1)
  }

  /** `k` occurs in `s` starting at index `j`. */
  predicate MatchAt(s: string, j: nat, k: string) {
    j + |k| <= |s| && s[j..j + |k|] == k
  }

  /** Where the first occurrence of `k` in `s` starts. */
  function Find(s: string, k: string): (i: nat)
    requires Contains(s, k)
    ensures MatchAt(s, i, k)
    ensures forall j :: 0 <= j < i ==> !MatchAt(s, j, k)
    decreases |s|
  {
    if StartsWith(s, k) then 0
    else
      var j := Find(s[1..], k);
      assert s[1..][j..j + |k|] == s[j + 1..j + 1 + |k|];
      assert forall m :: 1 <= m <= j ==> (MatchAt(s, m, k) <==> MatchAt(s[1..], m - 1, k)) by {
        forall m | 1 <= m <= j ensures MatchAt(s, m, k) <==> MatchAt(s[1..], m - 1, k) {
          if m + |k| <= |s| { assert s[1..][m - 1..m - 1 + |k|] == s[m..m + |k|]; }
        }
      }
      assert !MatchAt(s, 0, k) by { if |k| <= |s| { assert s[0..|k|] == s[..|k|]; } }
      j + 1
  }

  /** Start of the run of whitespace that ends `s[..e]`, looking no further back than `lo`. */
  function SpaceRunBack(s: string, lo: nat, e: nat): (b: nat)
    requires lo <= e <= |s|
    ensures lo <= b <= e
    ensures forall k :: b <= k < e ==> IsSpace(s[k])
    ensures b == lo || !IsSpace(s[b - 1])
    decreases e
  {
    if e == lo || !IsSpace(s[e - 1]) then e else SpaceRunBack(s, lo, e - 1)
  }

  /** `s.strip()`: the infix between the whitespace that starts `s` and the whitespace that ends it. */
  function Strip(s: string): (r: string)
    ensures |r| <= |s|
    ensures r == [] || (!IsSpace(r[0]) && !IsSpace(r[|r| - 1]))
    ensures r == [] <==> forall i :: 0 <= i < |s| ==> IsSpace(s[i])
    ensures SpaceRunEnd(s, 0) + |r| <= |s| && r == s[SpaceRunEnd(s, 0)..SpaceRunEnd(s, 0) + |r|]
    ensures forall i :: SpaceRunEnd(s, 0) + |r| <= i < |s| ==> IsSpace(s[i])
  {
    var a := SpaceRunEnd(s, 0);
    var b := SpaceRunBack(s, a, |s|);
    assert a < |s| ==> a < b;
    s[a..b]
  }

  lemma StripUnchanged(s: string)
    requires s == [] || (!IsSpace(s[0]) && !IsSpace(s[|s| - 1]))
    ensures Strip(s) == s
  {
  }

  /** Whitespace after text that starts and ends with non-whitespace is stripped off. */
  lemma StripTrailingSpace(s: string, w: string)
    requires s != [] && !IsSpace(s[0]) && !IsSpace(s[|s| - 1])
    requires forall k :: 0 <= k < |w| ==> IsSpace(w[k])
    ensures Strip(s + w) == s
  {
    var t := s + w;
    assert SpaceRunEnd(t, 0) == 0;
    var r := Strip(t);
    assert t[|s| - 1] == s[|s| - 1];
    assert |r| == |s|;
    assert t[..|s|] == s;
  }

  /** `s[:n]` */
  function Take<T>(s: seq<T>, n: nat): (r: seq<T>)
    ensures |r| == if |s| <= n then |s| else n
    ensures r == s[..|r|]
  {
    if |s| <= n then s else s[..n]
  }

  /** `sep.join(parts)` */
  function Join(parts: seq<string>, sep: string): string
    decreases |parts|
  {
    if parts == [] then []
    else if |parts| == 1 then parts[0]
    else parts[0] + sep + Join(parts[1..], sep)
  }

  /** Joining two non-empty lists is joining each and putting one separator between. */
  lemma {:induction false} JoinConcat(a: seq<string>, b: seq<string>, sep: string)
    requires a != [] && b != []
    ensures Join(a + b, sep) == Join(a, sep) + sep + Join(b, sep)
    decreases |a|
  {
    if |a| > 1 {
      assert (a + b)[1..] == a[1..] + b;
      JoinConcat(a[1..], b, sep);
    }
  }

  /** `s.split(c)` for a one-character separator: one more piece than there are separators. */
  function SplitOn(s: string, c: char): (parts: seq<string>)
    ensures |parts| >= 1
    ensures forall p :: p in parts ==> c !in p
    decreases |s|
  {
    if s == [] then [""]
    else
      var rest := SplitOn(s[1..], c);
      if s[0] == c then [""] + rest else [[s[0]] + rest[0]] + rest[1..]
  }

  /** Joining the pieces of `s.split(c)` with `c` gives `s` back. */
  lemma {:induction false} SplitOnJoin(s: string, c: char)
    ensures Join(SplitOn(s, c), [c]) == s
    decreases |s|
  {
    if s != [] {
      var rest := SplitOn(s[1..], c);
      SplitOnJoin(s[1..], c);
      if s[0] != c {
        if |rest| > 1 {
          assert rest == [rest[0]] + rest[1..];
          assert Join(rest, [c]) == rest[0] + [c] + Join(rest[1..], [c]);
        }
      }
    }
  }

  /** The first piece of `s.split(c)` runs up to the first `c`. */
  lemma {:induction false} SplitOnHead(line: string, rest: string, c: char)
    requires c !in line
    ensures SplitOn(line + [c] + rest, c)[0] == line
    decreases |line|
  {
    var s := line + [c] + rest;
    if line != [] {
      assert s[1..] == line[1..] + [c] + rest;
      SplitOnHead(line[1..], rest, c);
    }
  }

  /** `s.splitlines()` with '\n' as the only line break: no trailing empty line, and "" has no lines. */
  function SplitLines(s: string): (lines: seq<string>)
    ensures forall l :: l in lines ==> '\n' !in l
    ensures s == [] <==> lines == []
  {
    if s == [] then []
    else if s[|s| - 1] == '\n' then SplitOn(s[..|s| - 1], '\n')
    else SplitOn(s, '\n')
  }

  /** The lines of `s`, joined by '\n', give `s` back up to a single final line break. */
  lemma SplitLinesJoin(s: string)
    ensures s != [] && s[|s| - 1] == '\n' ==> Join(SplitLines(s), "\n") + "\n" == s
    ensures s == [] || s[|s| - 1] != '\n' ==> Join(SplitLines(s), "\n") == s
  {
    if s != [] {
      if s[|s| - 1] == '\n' {
        SplitOnJoin(s[..|s| - 1], '\n');
        assert s[..|s| - 1] + "\n" == s;
      } else {
        SplitOnJoin(s, '\n');
      }
    }
  }

  /** First index at or after `i` that holds whitespace (or |s|). */
  function WordRunEnd(s: string, i: nat): (e: nat)
    requires i <= |s|
    ensures i <= e <= |s|
    ensures forall k :: i <= k < e ==> !IsSpace(s[k])
    ensures e == |s| || IsSpace(s[e])
    decreases |s| - i
  {
    if i == |s| || IsSpace(s[i]) then i else WordRunEnd(s, i + 1)
  }

  /** A non-empty run of non-whitespace characters. */
  predicate IsWord(w: string)
  {
    w != [] && forall k :: 0 <= k < |w| ==> !IsSpace(w[k])
  }

  /** `s.split()` with no argument: the maximal runs of non-whitespace characters. */
  function Words(s: string): (ws: seq<string>)
    ensures forall w :: w in ws ==> IsWord(w)
    ensures ws == [] <==> forall i :: 0 <= i < |s| ==> IsSpace(s[i])
  {
    WordsFromEmpty(s, 0);
    WordsFrom(s, 0)
  }

  /** The words of `s[i..]`. */
  function WordsFrom(s: string, i: nat): (ws: seq<string>)
    requires i <= |s|
    ensures forall w :: w in ws ==> IsWord(w)
    decreases |s| - i
  {
    var a := SpaceRunEnd(s, i);
    if a == |s| then []
    else
      var b := WordRunEnd(s, a);
      [s[a..b]] + WordsFrom(s, b)
  }

  /** `s[i..]` has no words exactly when it is all whitespace. */
  lemma WordsFromEmpty(s: string, i: nat)
    requires i <= |s|
    ensures WordsFrom(s, i) == [] <==> forall k :: i <= k < |s| ==> IsSpace(s[k])
  {
  }

  /** The characters of `s` that are not whitespace, in order. */
  function NonSpace(s: string): string
    decreases |s|
  {
    if s == [] then [] else (if IsSpace(s[0]) then [] else [s[0]]) + NonSpace(s[1..])
  }

  lemma {:induction false} NonSpaceSkipsSpace(s: string, i: nat, a: nat)
    requires i <= a <= |s| && forall k :: i <= k < a ==> IsSpace(s[k])
    ensures NonSpace(s[i..]) == NonSpace(s[a..])
    decreases a - i
  {
    if i < a {
      assert s[i..][1..] == s[i + 1..];
      NonSpaceSkipsSpace(s, i + 1, a);
    }
  }

  lemma {:induction false} NonSpaceKeepsWord(s: string, a: nat, b: nat)
    requires a <= b <= |s| && forall k :: a <= k < b ==> !IsSpace(s[k])
    ensures NonSpace(s[a..]) == s[a..b] + NonSpace(s[b..])
    decreases b - a
  {
    if a < b {
      assert s[a..][1..] == s[a + 1..];
      NonSpaceKeepsWord(s, a + 1, b);
      assert s[a..b] == [s[a]] + s[a + 1..b];
    }
  }

  lemma {:induction false} WordsFromKeepText(s: string, i: nat)
    requires i <= |s|
    ensures Join(WordsFrom(s, i), "") == NonSpace(s[i..])
    decreases |s| - i
  {
    var a := SpaceRunEnd(s, i);
    NonSpaceSkipsSpace(s, i, a);
    if a < |s| {
      var b := WordRunEnd(s, a);
      NonSpaceKeepsWord(s, a, b);
      WordsFromKeepText(s, b);
      var rest := WordsFrom(s, b);
      assert WordsFrom(s, i) == [s[a..b]] + rest;
      assert ([s[a..b]] + rest)[1..] == rest;
    }
  }

  /** The words, run together, are exactly the non-whitespace characters of `s`, in order. */
  lemma WordsKeepText(s: string)
    ensures Join(Words(s), "") == NonSpace(s)
  {
    WordsFromKeepText(s, 0);
    assert s[0..] == s;
  }

  /** A run of non-whitespace characters followed by whitespace or the end is one whole word. */
  lemma WordRunEndOf(s: string, i: nat, w: string)
    requires i + |w| <= |s| && s[i..i + |w|] == w && forall k :: 0 <= k < |w| ==> !IsSpace(w[k])
    requires i + |w| == |s| || IsSpace(s[i + |w|])
    ensures WordRunEnd(s, i) == i + |w|
  {
  }

  /** A whole word at `i` is the first word of `s[i..]`. */
  lemma WordsFromWord(s: string, i: nat, w: string)
    requires i + |w| <= |s| && s[i..i + |w|] == w && IsWord(w)
    requires i + |w| == |s| || IsSpace(s[i + |w|])
    ensures WordsFrom(s, i) == [w] + WordsFrom(s, i + |w|)
  {
    assert s[i] == w[0];
    var a := SpaceRunEnd(s, i);
    assert a == i;
    WordRunEndOf(s, i, w);
    var b := WordRunEnd(s, a);
    assert s[a..b] == w;
  }

  /** Whitespace at `j` is skipped. */
  lemma WordsFromSpace(s: string, j: nat)
    requires j < |s| && IsSpace(s[j])
    ensures WordsFrom(s, j) == WordsFrom(s, j + 1)
  {
    assert SpaceRunEnd(s, j) == SpaceRunEnd(s, j + 1);
  }

  /** `s[i..]` is `w`, one space, then `t`. */
  lemma SplitAtSpace(s: string, i: nat, w: string, t: string)
    requires i <= |s| && s[i..] == w + " " + t
    ensures i + |w| < |s| && s[i..i + |w|] == w && s[i + |w|] == ' ' && s[i + |w| + 1..] == t
  {
    assert s[i..][..|w|] == w;
    assert s[i..][|w|] == ' ';
    assert s[i..][|w| + 1..] == t;
  }

  /** `s[i..]` is the words `ws`, one space between each two. */
  ghost predicate JoinedAt(s: string, i: nat, ws: seq<string>)
    requires i <= |s|
    decreases |ws|
  {
    if ws == [] then i == |s|
    else
      var e := i + |ws[0]|;
      e <= |s| && s[i..e] == ws[0] && IsWord(ws[0]) &&
      if |ws| == 1 then e == |s|
      else e < |s| && s[e] == ' ' && JoinedAt(s, e + 1, ws[1..])
  }

  /** A join of words, read from where it starts, is laid out as `JoinedAt` says. */
  lemma {:induction false} JoinIsJoinedAt(s: string, i: nat, ws: seq<string>)
    requires i <= |s| && s[i..] == Join(ws, " ")
    requires forall w :: w in ws ==> IsWord(w)
    ensures JoinedAt(s, i, ws)
    decreases |ws|
  {
    if ws == [] {
    } else if |ws| == 1 {
      assert ws[0] in ws;
      assert s[i..] == ws[0];
      assert s[i..i + |ws[0]|] == ws[0];
    } else {
      assert ws[0] in ws;
      assert forall v :: v in ws[1..] ==> v in ws;
      SplitAtSpace(s, i, ws[0], Join(ws[1..], " "));
      JoinIsJoinedAt(s, i + |ws[0]| + 1, ws[1..]);
    }
  }

  /** A word, one space, then the words `ws[1..]`: the words of `s[i..]` are `ws`. */
  lemma WordsFromCons(s: string, i: nat, ws: seq<string>)
    requires |ws| >= 2 && IsWord(ws[0]) && i + |ws[0]| < |s|
    requires s[i..i + |ws[0]|] == ws[0] && s[i + |ws[0]|] == ' '
    requires WordsFrom(s, i + |ws[0]| + 1) == ws[1..]
    ensures WordsFrom(s, i) == ws
  {
    WordsFromWord(s, i, ws[0]);
    WordsFromSpace(s, i + |ws[0]|);
    assert [ws[0]] + ws[1..] == ws;
  }

  /** Words laid out with single spaces are exactly what `WordsFrom` finds. */
  lemma {:induction false} WordsFromJoinedAt(s: string, i: nat, ws: seq<string>)
    requires i <= |s| && JoinedAt(s, i, ws)
    ensures WordsFrom(s, i) == ws
    decreases |ws|
  {
    if ws == [] {
    } else if |ws| == 1 {
      WordsFromWord(s, i, ws[0]);
      assert WordsFrom(s, |s|) == [];
    } else {
      WordsFromJoinedAt(s, i + |ws[0]| + 1, ws[1..]);
      WordsFromCons(s, i, ws);
    }
  }

  /** Splitting words joined by single spaces gives the same words back. */
  lemma WordsOfJoin(ws: seq<string>)
    requires forall w :: w in ws ==> IsWord(w)
    ensures Words(Join(ws, " ")) == ws
  {
    var s := Join(ws, " ");
    assert s[0..] == s;
    JoinIsJoinedAt(s, 0, ws);
    WordsFromJoinedAt(s, 0, ws);
  }

  /** `s.replace(old, new)`: leftmost, non-overlapping occurrences. */
  function Replace(s: string, pat: string, rep: string): (r: string)
    requires pat != []
    ensures |rep| <= |pat| ==> |r| <= |s|
    ensures !Contains(s, pat) ==> r == s
    decreases |s|
  {
    if s == [] then []
    else if StartsWith(s, pat) then rep + Replace(s[|pat|..], pat, rep)
    else [s[0]] + Replace(s[1..], pat, rep)
  }

  /** Where `pat` does not match at 0, the first character is copied. */
  lemma ReplaceNoMatchHere(s: string, pat: string, rep: string)
    requires pat != [] && s != [] && !MatchAt(s, 0, pat)
    ensures Replace(s, pat, rep) == [s[0]] + Replace(s[1..], pat, rep)
  {
    assert !StartsWith(s, pat) by {
      if |pat| <= |s| { assert s[0..|pat|] == s[..|pat|]; }
    }
  }

  lemma MatchContains(s: string, k: string, j: nat)
    ensures MatchAt(s, j, k) ==> Contains(s, k)
  {
    if MatchAt(s, j, k) {
      ContainsAt(s, k, j);
    }
  }

  /** Where no window of `s` starts with the first character of `k`, `s` holds no `k`. */
  lemma {:induction false} NoHeadNoMatch(s: string, k: string)
    requires k != []
    requires forall i :: 0 <= i && i + |k| <= |s| ==> s[i] != k[0]
    ensures !Contains(s, k)
    decreases |s|
  {
    if s != [] {
      if |k| <= |s| { assert s[..|k|][0] == s[0]; }
      assert !StartsWith(s, k);
      forall i | 0 <= i && i + |k| <= |s[1..]| ensures s[1..][i] != k[0] {
        assert s[1..][i] == s[i + 1];
      }
      NoHeadNoMatch(s[1..], k);
    }
  }

  /** A match at `i` with none before it is what `Find` returns. */
  lemma FindFirst(s: string, k: string, i: nat)
    requires MatchAt(s, i, k)
    requires forall j :: 0 <= j < i ==> !MatchAt(s, j, k)
    ensures Contains(s, k) && Find(s, k) == i
  {
    MatchContains(s, k, i);
  }

  /**
   * When `t` starts with `p`, all of `k` but its last character, and `a + p` holds no `k`, then
   * `k` matches nowhere in `a + t` before `t`.
   */
  lemma NoMatchBefore(a: string, p: string, t: string, k: string)
    requires |k| == |p| + 1 && StartsWith(t, p) && !Contains(a + p, k)
    ensures forall j :: 0 <= j < |a| ==> !MatchAt(a + t, j, k)
  {
    forall j | 0 <= j < |a| ensures !MatchAt(a + t, j, k) {
      MatchContains(a + p, k, j);
      if j + |k| <= |a + t| {
        forall m | j <= m < j + |k| ensures (a + t)[m] == (a + p)[m] {
          if m >= |a| { assert t[m - |a|] == t[..|p|][m - |a|]; }
        }
        assert (a + t)[j..j + |k|] == (a + p)[j..j + |k|];
      }
    }
  }

  /** No match in `s` before `i` is no match in `s[1..]` before `i - 1`. */
  lemma NoMatchShift(s: string, pat: string, i: nat)
    requires 0 < i <= |s|
    requires forall j :: 0 <= j < i ==> !MatchAt(s, j, pat)
    ensures forall j :: 0 <= j < i - 1 ==> !MatchAt(s[1..], j, pat)
  {
    var t := s[1..];
    forall j | 0 <= j < i - 1 ensures !MatchAt(t, j, pat) {
      assert !MatchAt(s, j + 1, pat);
      if j + |pat| <= |t| { assert t[j..j + |pat|] == s[j + 1..j + 1 + |pat|]; }
    }
  }

  /** Characters before the first place `pat` could match are copied unchanged. */
  lemma {:induction false} ReplaceKeepsPrefix(s: string, pat: string, rep: string, i: nat)
    requires pat != [] && i <= |s|
    requires forall j :: 0 <= j < i ==> !MatchAt(s, j, pat)
    ensures Replace(s, pat, rep) == s[..i] + Replace(s[i..], pat, rep)
    decreases i
  {
    if i == 0 {
      assert s[..0] == [] && s[0..] == s;
    } else {
      var t := s[1..];
      ReplaceNoMatchHere(s, pat, rep);
      NoMatchShift(s, pat, i);
      ReplaceKeepsPrefix(t, pat, rep, i - 1);
      AppendAssoc([s[0]], t[..i - 1], Replace(t[i - 1..], pat, rep));
      assert [s[0]] + t[..i - 1] == s[..i];
      assert t[i - 1..] == s[i..];
    }
  }

  /** The first occurrence of `pat` becomes `rep`; what precedes it is kept and what follows is replaced in turn. */
  lemma ReplaceLeftmost(s: string, pat: string, rep: string)
    requires pat != [] && Contains(s, pat)
    ensures Find(s, pat) + |pat| <= |s|
    ensures Replace(s, pat, rep) == s[..Find(s, pat)] + rep + Replace(s[Find(s, pat) + |pat|..], pat, rep)
  {
    ReplaceFirstMatch(s, pat, rep, Find(s, pat));
  }

  /** The same, for a match at `i` with none before it. */
  lemma ReplaceFirstMatch(s: string, pat: string, rep: string, i: nat)
    requires pat != [] && MatchAt(s, i, pat)
    requires forall j :: 0 <= j < i ==> !MatchAt(s, j, pat)
    ensures Replace(s, pat, rep) == s[..i] + rep + Replace(s[i + |pat|..], pat, rep)
  {
    ReplaceKeepsPrefix(s, pat, rep, i);
    ReplaceAtMatch(s, pat, rep, i);
    AppendAssoc(s[..i], rep, Replace(s[i + |pat|..], pat, rep));
  }

  lemma AppendAssoc(a: string, b: string, c: string)
    ensures a + (b + c) == a + b + c
  {
  }

  /** A match at `i` is replaced and the scan resumes after it. */
  lemma ReplaceAtMatch(s: string, pat: string, rep: string, i: nat)
    requires pat != [] && MatchAt(s, i, pat)
    ensures Replace(s[i..], pat, rep) == rep + Replace(s[i + |pat|..], pat, rep)
  {
    var u := s[i..];
    assert u[..|pat|] == s[i..i + |pat|];
    assert u[|pat|..] == s[i + |pat|..];
  }
}
