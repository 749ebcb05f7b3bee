/**
 * `VB6Converter.extract_class_name` and `VB6Converter.classify_cls_purpose`: what a `.cls` file's
 * header and body say about the class it declares.
 */
module Classifiers {
  import opened Wrappers
  import opened Text

  // ---------------------------------------------------------------------------------------
  // extract_class_name

  const HeaderLineLimit: nat := 20
  const DeclarationLineLimit: nat := 50
  const VbNameMarker: string := "Attribute VB_Name ="
  /** The literal part of the pattern `Attribute VB_Name = "([^"]+)"` before its group. */
  const VbNameOpen: string := VbNameMarker + " \""
  const UnknownClass: string := "UnknownClass"

  /** End of the run of non-quote characters that starts at `i`. */
  function QuoteFreeEnd(line: string, i: nat): (e: nat)
    requires i <= |line|
    ensures i <= e <= |line|
    ensures forall k :: i <= k < e ==> line[k] != '"'
    ensures e == |line| || line[e] == '"'
    decreases |line| - i
  {
    if i == |line| || line[i] == '"' then i else QuoteFreeEnd(line, i + 1)
  }

  /** The pattern matches at `p` with group `name`: the marker, a quote, `name`, a quote. */
  predicate VbNameMatchAt(line: string, p: nat, name: string) {
    name != [] && '"' !in name && MatchAt(line, p, VbNameOpen + name + "\"")
  }

  /** What the pattern captures when a match starts at `p`: a non-empty quote-free run closed by a quote. */
  function NameAt(line: string, p: nat): (r: Option<string>)
    requires p <= |line|
    ensures r.Some? ==> VbNameMatchAt(line, p, r.value)
  {
    if !StartsWith(line[p..], VbNameOpen) then None
    else
      var q := p + |VbNameOpen|;
      var e := QuoteFreeEnd(line, q);
      if q < e < |line| then
        assert line[p..e + 1] == line[p..q] + line[q..e] + [line[e]];
        Some(line[q..e])
      else None
  }

  /** `re.search(r'Attribute VB_Name = "([^"]+)"', line)` from position `p` on: the leftmost match's group. */
  function SearchVbName(line: string, p: nat): (r: Option<string>)
    requires p <= |line|
    ensures r.Some? ==> r.value != [] && '"' !in r.value && Contains(line, VbNameOpen + r.value + "\"")
    decreases |line| - p
  {
    if NameAt(line, p).Some? then
      var name := NameAt(line, p).value;
      ContainsAt(line, VbNameOpen + name + "\"", p);
      Some(name)
    else if p == |line| then None
    else SearchVbName(line, p + 1)
  }

  /** What the first pass takes from one line: on a stripped line starting with the marker, the pattern's group. */
  function HeaderMatch(line: string): (r: Option<string>)
    ensures r.Some? ==> StartsWith(Strip(line), VbNameMarker)
    ensures r.Some? ==> r.value != [] && Contains(line, VbNameOpen + r.value + "\"")
  {
    if StartsWith(Strip(line), VbNameMarker) then SearchVbName(line, 0) else None
  }

  /** The first line, in order, from which `take` takes something. */
  function FirstMatch(lines: seq<string>, take: string -> Option<string>): Option<string> {
    if lines == [] then None
    else if take(lines[0]).Some? then take(lines[0])
    else FirstMatch(lines[1..], take)
  }

  /** Word `i` is "Class" and another word follows it. */
  predicate ClassAt(words: seq<string>, i: nat) {
    i + 1 < |words| && words[i] == "Class"
  }

  /** The first index at or after `i` where `ClassAt` holds, or |words| if there is none. */
  function FirstClassIndex(words: seq<string>, i: nat): (j: nat)
    requires i <= |words|
    ensures i <= j <= |words|
    ensures j < |words| ==> ClassAt(words, j)
    ensures forall k :: i <= k < j ==> !ClassAt(words, k)
    decreases |words| - i
  {
    if i == |words| || ClassAt(words, i) then i else FirstClassIndex(words, i + 1)
  }

  /** `w` follows the first "Class" word that has a successor. */
  ghost predicate AfterFirstClass(words: seq<string>, w: string) {
    exists i :: 0 <= i < |words| && ClassAt(words, i) && words[i + 1] == w && forall k :: 0 <= k < i ==> !ClassAt(words, k)
  }

  /** The word after the first "Class" word that has a successor. */
  function WordAfterClass(words: seq<string>): (r: Option<string>)
    ensures r.None? <==> forall i :: 0 <= i < |words| ==> !ClassAt(words, i)
    ensures r.Some? ==> r.value in words && AfterFirstClass(words, r.value)
  {
    var j := FirstClassIndex(words, 0);
    if j < |words| then Some(words[j + 1]) else None
  }

  predicate IsDeclarationLine(line: string) {
    Contains(line, "Class") && (Contains(line, "Public") || Contains(line, "Private"))
  }

  /** What the second pass takes from one line: on a declaration-looking line, the word after "Class". */
  function DeclarationMatch(line: string): (r: Option<string>)
    ensures r.None? <==> !IsDeclarationLine(line) || forall i :: 0 <= i < |Words(line)| ==> !ClassAt(Words(line), i)
    ensures r.Some? ==> r.value != [] && IsDeclarationLine(line) && AfterFirstClass(Words(line), r.value)
  {
    if IsDeclarationLine(line) then WordAfterClass(Words(line)) else None
  }

  /** The class name `extract_class_name` settles on; the file is split on "\n" only. */
  function ClassNameOf(content: string): string {
    var lines := SplitOn(content, '\n');
    match FirstMatch(Take(lines, HeaderLineLimit), HeaderMatch)
    case Some(name) => name
    case None =>
      match FirstMatch(Take(lines, DeclarationLineLimit), DeclarationMatch)
      case Some(name) => name
      case None => UnknownClass
  }

  method ExtractClassName(content: string) returns (name: string)
    ensures name == ClassNameOf(content)
  {
    var lines := SplitOn(content, '\n');
    var fromHeader := ScanHeader(Take(lines, HeaderLineLimit));
    if fromHeader.Some? {
      return fromHeader.value;
    }
    var fromDeclaration := ScanDeclarations(Take(lines, DeclarationLineLimit));
    if fromDeclaration.Some? {
      return fromDeclaration.value;
    }
    return UnknownClass;
  }

  /** The first loop of `extract_class_name`, over the header lines. */
  method ScanHeader(header: seq<string>) returns (found: Option<string>)
    ensures found == FirstMatch(header, HeaderMatch)
  {
    for i := 0 to |header|
      invariant FirstMatch(header[i..], HeaderMatch) == FirstMatch(header, HeaderMatch)
    {
      assert header[i..][1..] == header[i + 1..];
      var line := header[i];
      if StartsWith(Strip(line), VbNameMarker) {
        var m := SearchVbName(line, 0);
        if m.Some? {
          return m;
        }
      }
    }
    return None;
  }

  /** The second loop of `extract_class_name`, over the first lines, with its inner loop over the words. */
  method ScanDeclarations(window: seq<string>) returns (found: Option<string>)
    ensures found == FirstMatch(window, DeclarationMatch)
  {
    for i := 0 to |window|
      invariant FirstMatch(window[i..], DeclarationMatch) == FirstMatch(window, DeclarationMatch)
    {
      assert window[i..][1..] == window[i + 1..];
      var line := window[i];
      if IsDeclarationLine(line) {
        var words := Words(line);
        for j := 0 to |words|
          invariant FirstClassIndex(words, j) == FirstClassIndex(words, 0)
        {
          if words[j] == "Class" && j + 1 < |words| {
            return Some(words[j + 1]);
          }
        }
      }
    }
    return None;
  }

  /** The quote-free run of a written-out name ends at the name's closing quote. */
  lemma {:induction false} QuoteFreeEndOfName(line: string, q: nat, name: string)
    requires '"' !in name
    requires q + |name| < |line| && line[q..q + |name|] == name && line[q + |name|] == '"'
    ensures QuoteFreeEnd(line, q) == q + |name|
    decreases |name|
  {
    if name != [] {
      assert line[q] == name[0];
      assert line[q + 1..q + 1 + |name[1..]|] == name[1..];
      QuoteFreeEndOfName(line, q + 1, name[1..]);
    }
  }

  /** Wherever the pattern matches, `NameAt` finds that match and its group. */
  lemma NameAtComplete(line: string, p: nat, name: string)
    requires VbNameMatchAt(line, p, name)
    ensures p <= |line| && NameAt(line, p) == Some(name)
  {
    var q := p + |VbNameOpen|;
    var written := VbNameOpen + name + "\"";
    assert line[p..p + |written|] == written;
    assert line[p..][..|VbNameOpen|] == written[..|VbNameOpen|] == VbNameOpen;
    assert line[q..q + |name|] == written[|VbNameOpen|..|VbNameOpen| + |name|] == name;
    assert line[q + |name|] == written[|VbNameOpen| + |name|] == '"';
    QuoteFreeEndOfName(line, q, name);
  }

  /** No match of the pattern starts in `[p, j)`. */
  ghost predicate NoVbNameBetween(line: string, p: nat, j: nat) {
    forall k: nat, n :: p <= k < j ==> !VbNameMatchAt(line, k, n)
  }

  /** The search returns the group of the leftmost match at or after `p`. */
  lemma {:induction false} SearchVbNameLeftmost(line: string, p: nat, j: nat, name: string)
    requires p <= j && VbNameMatchAt(line, j, name) && NoVbNameBetween(line, p, j)
    ensures p <= |line| && SearchVbName(line, p) == Some(name)
    decreases j - p
  {
    NameAtComplete(line, j, name);
    if p < j {
      SearchVbNameLeftmost(line, p + 1, j, name);
    }
  }

  /** The search finds nothing exactly when the pattern matches nowhere at or after `p`. */
  lemma {:induction false} SearchVbNameNone(line: string, p: nat)
    requires p <= |line|
    ensures SearchVbName(line, p).None? <==> forall k: nat, n :: p <= k ==> !VbNameMatchAt(line, k, n)
    decreases |line| - p
  {
    if NameAt(line, p).Some? {
      assert VbNameMatchAt(line, p, NameAt(line, p).value);
    } else {
      forall n ensures !VbNameMatchAt(line, p, n) {
        if VbNameMatchAt(line, p, n) { NameAtComplete(line, p, n); }
      }
      if p < |line| {
        SearchVbNameNone(line, p + 1);
      }
    }
  }

  /** A line is taken by the first pass exactly when it starts with the marker and the pattern matches in it. */
  lemma HeaderMatchNone(line: string)
    ensures HeaderMatch(line).None? <==>
      !StartsWith(Strip(line), VbNameMarker) || forall k: nat, n :: !VbNameMatchAt(line, k, n)
  {
    SearchVbNameNone(line, 0);
  }

  /** On a marked line, the first pass takes the group of the leftmost match. */
  lemma HeaderMatchLeftmost(line: string, j: nat, name: string)
    requires StartsWith(Strip(line), VbNameMarker)
    requires VbNameMatchAt(line, j, name) && NoVbNameBetween(line, 0, j)
    ensures HeaderMatch(line) == Some(name)
  {
    SearchVbNameLeftmost(line, 0, j, name);
  }

  /** The header line `Attribute VB_Name = "<name>"` matches the pattern at position 0, capturing `<name>`. */
  lemma SearchHeaderLine(name: string)
    requires name != [] && '"' !in name
    ensures SearchVbName(VbNameOpen + name + "\"", 0) == Some(name)
  {
    var line := VbNameOpen + name + "\"";
    var q := |VbNameOpen|;
    assert line[0..][..q] == VbNameOpen;
    assert line[q..q + |name|] == name;
    QuoteFreeEndOfName(line, q, name);
  }

  /**
   * A class module whose first line is its `Attribute VB_Name = "<name>"` header (as the VB6 IDE
   * writes it) is named `<name>`, whatever the rest of the file holds.
   */
  lemma VbNameHeaderWins(name: string, rest: string)
    requires name != [] && '"' !in name && '\n' !in name
    ensures ClassNameOf(VbNameOpen + name + "\"" + "\n" + rest) == name
  {
    var line := VbNameOpen + name + "\"";
    HeaderLineUnbroken(name);
    HeaderLineMarked(name);
    SearchHeaderLine(name);
    SplitOnHead(line, rest, '\n');
    assert HeaderMatch(line) == Some(name);
    FirstLineHeader(line + "\n" + rest);
  }

  /** A header on the first line decides. */
  lemma FirstLineHeader(content: string)
    requires HeaderMatch(SplitOn(content, '\n')[0]).Some?
    ensures ClassNameOf(content) == HeaderMatch(SplitOn(content, '\n')[0]).value
  {
    var header := Take(SplitOn(content, '\n'), HeaderLineLimit);
    assert header[0] == SplitOn(content, '\n')[0];
  }

  lemma HeaderLineUnbroken(name: string)
    requires '\n' !in name
    ensures '\n' !in VbNameOpen + name + "\""
  {
    var line := VbNameOpen + name + "\"";
    forall k | 0 <= k < |line|
      ensures line[k] != '\n'
    {
      if |VbNameOpen| <= k < |VbNameOpen| + |name| {
        assert line[k] == name[k - |VbNameOpen|];
      }
    }
  }

  lemma HeaderLineMarked(name: string)
    ensures StartsWith(Strip(VbNameOpen + name + "\""), VbNameMarker)
  {
    var line := VbNameOpen + name + "\"";
    assert VbNameMarker[0] == 'A';
    assert line[0] == VbNameMarker[0];
    assert line[|line| - 1] == '"';
    assert !IsSpace(line[0]);
    assert !IsSpace(line[|line| - 1]);
    assert line != [];
    StripUnchanged(line);
    assert line == VbNameMarker + (" \"" + name + "\"");
  }

  /** `FirstMatch` returns what `take` makes of the earliest line it takes anything from. */
  lemma {:induction false} FirstMatchWitness(lines: seq<string>, take: string -> Option<string>) returns (i: nat)
    requires FirstMatch(lines, take).Some?
    ensures i < |lines| && take(lines[i]) == FirstMatch(lines, take)
    ensures forall k :: 0 <= k < i ==> take(lines[k]).None?
  {
    if take(lines[0]).Some? {
      i := 0;
    } else {
      var j := FirstMatchWitness(lines[1..], take);
      i := j + 1;
      forall k | 0 <= k < i ensures take(lines[k]).None? {
        if k > 0 { assert lines[k] == lines[1..][k - 1]; }
      }
    }
  }

  /** `FirstMatch` finds nothing exactly when `take` takes nothing from any line. */
  lemma {:induction false} FirstMatchNone(lines: seq<string>, take: string -> Option<string>)
    ensures FirstMatch(lines, take).None? <==> forall k :: 0 <= k < |lines| ==> take(lines[k]).None?
    decreases |lines|
  {
    if lines != [] {
      FirstMatchNone(lines[1..], take);
      assert forall k :: 1 <= k < |lines| ==> lines[k] == lines[1..][k - 1];
    }
  }

  /** Line `i`, among the first `limit` lines, is the first from which `take` takes something, and it takes `name`. */
  ghost predicate FirstTakenAt(lines: seq<string>, limit: nat, take: string -> Option<string>, i: nat, name: string) {
    i < |lines| && i < limit && take(lines[i]) == Some(name) && forall k :: 0 <= k < i ==> take(lines[k]).None?
  }

  /** `take` takes nothing from any of the first `limit` lines. */
  ghost predicate NoneTaken(lines: seq<string>, limit: nat, take: string -> Option<string>) {
    forall k :: 0 <= k < |lines| && k < limit ==> take(lines[k]).None?
  }

  /** What `FirstMatch` over the first `limit` lines says, in terms of the lines themselves. */
  lemma FirstMatchWindow(lines: seq<string>, limit: nat, take: string -> Option<string>)
    ensures FirstMatch(Take(lines, limit), take).None? <==> NoneTaken(lines, limit, take)
    ensures FirstMatch(Take(lines, limit), take).Some? ==>
      exists i :: FirstTakenAt(lines, limit, take, i, FirstMatch(Take(lines, limit), take).value)
  {
    var window := Take(lines, limit);
    assert forall k :: 0 <= k < |window| ==> window[k] == lines[k];
    FirstMatchNone(window, take);
    if FirstMatch(window, take).Some? {
      var i := FirstMatchWitness(window, take);
      assert FirstTakenAt(lines, limit, take, i, FirstMatch(window, take).value);
    }
  }

  /**
   * Where the name comes from, exactly: the first of the first 20 lines that the header pass takes
   * from; or, when the header pass takes from none of them, the first of the first 50 lines that
   * the declaration pass takes from; or, when neither pass takes from any line, "UnknownClass".
   * The name is never empty.
   */
  lemma ClassNameProvenance(content: string)
    ensures ClassNameOf(content) != []
    ensures var lines := SplitOn(content, '\n');
      var name := ClassNameOf(content);
      || (exists i :: FirstTakenAt(lines, HeaderLineLimit, HeaderMatch, i, name))
      || (&& NoneTaken(lines, HeaderLineLimit, HeaderMatch)
          && exists i :: FirstTakenAt(lines, DeclarationLineLimit, DeclarationMatch, i, name))
      || (&& NoneTaken(lines, HeaderLineLimit, HeaderMatch)
          && NoneTaken(lines, DeclarationLineLimit, DeclarationMatch)
          && name == UnknownClass)
  {
    var lines := SplitOn(content, '\n');
    FirstMatchWindow(lines, HeaderLineLimit, HeaderMatch);
    FirstMatchWindow(lines, DeclarationLineLimit, DeclarationMatch);
  }

  // ---------------------------------------------------------------------------------------
  // classify_cls_purpose

  const MethodKeywords: seq<string> := ["Public Sub", "Private Sub", "Public Function", "Private Function"]
  const PropertyKeywords: seq<string> := ["Property Get", "Property Let", "Property Set"]
  const ServicePurpose: string := "service"
  const ModelPurpose: string := "model"

  /** Which counter a stripped line feeds, by the `if`/`elif` chain: a method, a property, a `Declare`, or none. */
  datatype CountedKind = MethodLine | PropertyLine | DeclareLine | OtherLine

  function KindOf(stripped: string): CountedKind {
    if ContainsAny(stripped, MethodKeywords) then MethodLine
    else if ContainsAny(stripped, PropertyKeywords) then PropertyLine
    else if Contains(stripped, "Declare") && (Contains(stripped, "Function") || Contains(stripped, "Sub")) then DeclareLine
    else OtherLine
  }

  /** The kind of every line, in order. */
  function Kinds(lines: seq<string>): (ks: seq<CountedKind>)
    ensures |ks| == |lines|
  {
    seq(|lines|, i requires 0 <= i < |lines| => KindOf(Strip(lines[i])))
  }

  /** `method_count`, `property_count` and `has_declare` after the loop. */
  datatype Tally = Tally(methods: nat, properties: nat, hasDeclare: bool)

  /** The counters after lines of the given kinds, in order. */
  function Count(ks: seq<CountedKind>): (t: Tally)
    ensures t.methods + t.properties <= |ks|
  {
    if ks == [] then Tally(0, 0, false)
    else
      var t := Count(ks[..|ks| - 1]);
      match ks[|ks| - 1]
      case MethodLine => t.(methods := t.methods + 1)
      case PropertyLine => t.(properties := t.properties + 1)
      case DeclareLine => t.(hasDeclare := true)
      case OtherLine => t
  }

  /** The verdict on a tally; both later branches of the source answer "model". */
  function PurposeOf(t: Tally): string {
    if t.hasDeclare || t.methods > 2 then ServicePurpose
    else if t.properties > t.methods then ModelPurpose
    else ModelPurpose
  }

  method ClassifyClsPurpose(content: string) returns (purpose: string)
    ensures purpose == ServicePurpose || purpose == ModelPurpose
    ensures purpose == ServicePurpose
        <==> DeclareLine in Kinds(SplitLines(content)) || multiset(Kinds(SplitLines(content)))[MethodLine] > 2
  {
    var lines := SplitLines(content);
    var methodCount, propertyCount, hasDeclare := TallyLines(lines);
    CountIsKindTally(Kinds(lines));
    if hasDeclare || methodCount > 2 {
      purpose := ServicePurpose;
    } else if propertyCount > methodCount {
      purpose := ModelPurpose;
    } else {
      purpose := ModelPurpose;
    }
  }

  /** The counting loop of `classify_cls_purpose`. */
  method TallyLines(lines: seq<string>) returns (methodCount: nat, propertyCount: nat, hasDeclare: bool)
    ensures Tally(methodCount, propertyCount, hasDeclare) == Count(Kinds(lines))
  {
    methodCount, propertyCount, hasDeclare := 0, 0, false;
    for i := 0 to |lines|
      invariant Tally(methodCount, propertyCount, hasDeclare) == Count(Kinds(lines[..i]))
    {
      KindsSnoc(lines[..i + 1]);
      assert lines[..i + 1][..i] == lines[..i];
      ghost var kinds := Kinds(lines[..i + 1]);
      assert kinds[..i] == Kinds(lines[..i]);
      var lineStripped := Strip(lines[i]);
      if ContainsAny(lineStripped, MethodKeywords) {
        assert kinds[i] == MethodLine;
        methodCount := methodCount + 1;
      } else if ContainsAny(lineStripped, PropertyKeywords) {
        assert kinds[i] == PropertyLine;
        propertyCount := propertyCount + 1;
      } else if Contains(lineStripped, "Declare") && (Contains(lineStripped, "Function") || Contains(lineStripped, "Sub")) {
        assert kinds[i] == DeclareLine;
        hasDeclare := true;
      } else {
        assert kinds[i] == OtherLine;
      }
    }
    assert lines[..|lines|] == lines;
  }

  /** The loop's counters are the number of lines of each kind, and `has_declare` says some line is a `Declare`. */
  lemma {:induction false} CountIsKindTally(ks: seq<CountedKind>)
    ensures Count(ks).methods == multiset(ks)[MethodLine]
    ensures Count(ks).properties == multiset(ks)[PropertyLine]
    ensures Count(ks).hasDeclare <==> DeclareLine in ks
  {
    if ks != [] {
      var init := ks[..|ks| - 1];
      CountIsKindTally(init);
      assert ks == init + [ks[|ks| - 1]];
    }
  }

  lemma KindsSnoc(lines: seq<string>)
    requires lines != []
    ensures Kinds(lines) == Kinds(lines[..|lines| - 1]) + [KindOf(Strip(lines[|lines| - 1]))]
  {
  }

  /** A property line never changes the verdict: the property counter does not decide it. */
  lemma PropertyLinesNeverDecide(ks: seq<CountedKind>)
    ensures PurposeOf(Count(ks + [PropertyLine])) == PurposeOf(Count(ks))
  {
    assert (ks + [PropertyLine])[..|ks|] == ks;
  }

  /** Three method lines make a class a service, whatever else it holds. */
  lemma {:induction false} ThreeMethodsMakeAService(ks: seq<CountedKind>)
    requires multiset(ks)[MethodLine] >= 3
    ensures PurposeOf(Count(ks)) == ServicePurpose
  {
    CountIsKindTally(ks);
  }
}
