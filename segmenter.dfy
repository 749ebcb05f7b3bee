/**
 * `VB6Converter.chunk_large_file`: a line-by-line state machine that cuts a VB6 source into
 * chunks under a size budget. "cls" mode tracks whether a method or a `Type` block is open and
 * classifies every line by substring containment of five keyword classes, in a fixed order;
 * every other mode cuts greedily on size alone. The size of a chunk is the sum of its lines'
 * lengths, separators not counted.
 */
module Segmenter {
  import opened Text

  const MethodStartKeywords: seq<string> :=
    ["Public Sub", "Private Sub", "Public Function", "Private Function",
     "Property Get", "Property Set", "Property Let"]
  const MethodEndKeywords: seq<string> := ["End Sub", "End Function", "End Property"]
  const StructStartKeywords: seq<string> := ["Type ", "Private Type", "Public Type"]
  const StructEndKeywords: seq<string> := ["End Type"]
  const DeclareKeywords: seq<string> := ["Declare Function", "Declare Sub"]

  /** `any(keyword in line for keyword in keywords)` */
  datatype LineKind = StructStart | StructEnd | Declare | MethodStart | MethodEnd | Plain

  /** The `if`/`elif` chain of "cls" mode: the first keyword class the line contains wins. */
  function ClsLineKind(line: string): LineKind {
    if ContainsAny(line, StructStartKeywords) then StructStart
    else if ContainsAny(line, StructEndKeywords) then StructEnd
    else if ContainsAny(line, DeclareKeywords) then Declare
    else if ContainsAny(line, MethodStartKeywords) then MethodStart
    else if ContainsAny(line, MethodEndKeywords) then MethodEnd
    else Plain
  }

  /** The loop's variables: emitted chunks (as line lists), `current_chunk`, `current_size` and the two flags. */
  datatype SegState = SegState(
    chunks: seq<seq<string>>, current: seq<string>, size: int, inMethod: bool, inStruct: bool)

  const Initial := SegState([], [], 0, false, false)

  /** Sum of the lengths of `lines`. */
  function TotalLength(lines: seq<string>): int
    decreases |lines|
  {
    if lines == [] then 0 else TotalLength(lines[..|lines| - 1]) + |lines[|lines| - 1]|
  }

  /** The chunks' line lists, concatenated in order. */
  function Flatten(groups: seq<seq<string>>): seq<string>
    decreases |groups|
  {
    if groups == [] then [] else Flatten(groups[..|groups| - 1]) + groups[|groups| - 1]
  }

  /** Appending `line` would exceed the budget and the current chunk is not empty. */
  predicate OverBudget(st: SegState, line: string, maxChunkSize: int) {
    st.size + |line| > maxChunkSize && st.current != []
  }

  function Append(st: SegState, line: string): SegState {
    st.(current := st.current + [line], size := st.size + |line|)
  }

  /** Emit the current chunk and start a new one holding `line`. */
  function CutBefore(st: SegState, line: string): SegState {
    st.(chunks := st.chunks + [st.current], current := [line], size := |line|)
  }

  /** After an end marker: emit the chunk when its size exceeds 0.8 * maxChunkSize. */
  function FlushIfLarge(st: SegState, maxChunkSize: int): SegState {
    if 5 * st.size > 4 * maxChunkSize then st.(chunks := st.chunks + [st.current], current := [], size := 0)
    else st
  }

  function StepCls(st: SegState, line: string, maxChunkSize: int): SegState {
    ClsTransition(st, line, ClsLineKind(line), maxChunkSize)
  }

  /** One iteration of the "cls" loop, for a line of the given kind. */
  function ClsTransition(st: SegState, line: string, kind: LineKind, maxChunkSize: int): SegState {
    match kind
    case StructStart =>
      (if OverBudget(st, line, maxChunkSize) && !st.inMethod then CutBefore(st, line) else Append(st, line))
        .(inStruct := true)
    case StructEnd =>
      FlushIfLarge(Append(st, line).(inStruct := false), maxChunkSize)
    case Declare =>
      if OverBudget(st, line, maxChunkSize) && !st.inMethod && !st.inStruct then CutBefore(st, line)
      else Append(st, line)
    case MethodStart =>
      (if OverBudget(st, line, maxChunkSize) && !st.inStruct then CutBefore(st, line) else Append(st, line))
        .(inMethod := true)
    case MethodEnd =>
      FlushIfLarge(Append(st, line).(inMethod := false), maxChunkSize)
    case Plain =>
      if OverBudget(st, line, maxChunkSize) && !st.inMethod && !st.inStruct then CutBefore(st, line)
      else Append(st, line)
  }

  function StepBas(st: SegState, line: string, maxChunkSize: int): SegState {
    if OverBudget(st, line, maxChunkSize) then CutBefore(st, line) else Append(st, line)
  }

  function Step(st: SegState, line: string, maxChunkSize: int, cls: bool): SegState {
    if cls then StepCls(st, line, maxChunkSize) else StepBas(st, line, maxChunkSize)
  }

  /** The loop's state after it has consumed `lines`. */
  function Run(lines: seq<string>, maxChunkSize: int, cls: bool): SegState
    decreases |lines|
  {
    if lines == [] then Initial
    else Step(Run(lines[..|lines| - 1], maxChunkSize, cls), lines[|lines| - 1], maxChunkSize, cls)
  }

  /** The chunks `chunk_large_file` returns, before each is joined with "\n". */
  function Segment(lines: seq<string>, maxChunkSize: int, fileType: string): seq<seq<string>> {
    var st := Run(lines, maxChunkSize, fileType == "cls");
    if st.current != [] then st.chunks + [st.current] else st.chunks
  }

  function JoinEach(groups: seq<seq<string>>): (r: seq<string>)
    ensures |r| == |groups|
    ensures forall i :: 0 <= i < |groups| ==> r[i] == Join(groups[i], "\n")
  {
    seq(|groups|, i requires 0 <= i < |groups| => Join(groups[i], "\n"))
  }

  method ChunkLargeFile(content: string, maxChunkSize: int, fileType: string) returns (chunks: seq<string>)
    ensures chunks == JoinEach(Segment(SplitLines(content), maxChunkSize, fileType))
  {
    var lines := SplitLines(content);
    var currentChunk: seq<string>;
    ghost var groups: seq<seq<string>>;
    if fileType == "cls" {
      chunks, currentChunk, groups := ClsLoop(lines, maxChunkSize);
    } else {
      chunks, currentChunk, groups := BasLoop(lines, maxChunkSize);
    }
    if currentChunk != [] {
      JoinEachAppend(groups, currentChunk);
      chunks := chunks + [Join(currentChunk, "\n")];
    }
  }

  /** The "cls" branch's loop; returns the emitted chunks and the chunk still open at the end. */
  method ClsLoop(lines: seq<string>, maxChunkSize: int)
    returns (chunks: seq<string>, currentChunk: seq<string>, ghost groups: seq<seq<string>>)
    ensures Run(lines, maxChunkSize, true).chunks == groups && chunks == JoinEach(groups)
    ensures Run(lines, maxChunkSize, true).current == currentChunk
  {
    chunks, currentChunk, groups := [], [], [];
    var currentSize := 0;
    var inMethod, inStruct := false, false;
    for i := 0 to |lines|
      invariant Run(lines[..i], maxChunkSize, true) == SegState(groups, currentChunk, currentSize, inMethod, inStruct)
      invariant chunks == JoinEach(groups)
    {
      var line := lines[i];
      ghost var before := SegState(groups, currentChunk, currentSize, inMethod, inStruct);
      var kind := ClsLineKind(line);
      if kind == StructStart {
        if currentSize + |line| > maxChunkSize && currentChunk != [] && !inMethod {
          JoinEachAppend(groups, currentChunk);
          chunks, groups := chunks + [Join(currentChunk, "\n")], groups + [currentChunk];
          currentChunk, currentSize := [line], |line|;
        } else {
          currentChunk, currentSize := currentChunk + [line], currentSize + |line|;
        }
        inStruct := true;
      } else if kind == StructEnd {
        currentChunk, currentSize := currentChunk + [line], currentSize + |line|;
        inStruct := false;
        if 5 * currentSize > 4 * maxChunkSize {
          JoinEachAppend(groups, currentChunk);
          chunks, groups := chunks + [Join(currentChunk, "\n")], groups + [currentChunk];
          currentChunk, currentSize := [], 0;
        }
      } else if kind == Declare {
        if currentSize + |line| > maxChunkSize && currentChunk != [] && !inMethod && !inStruct {
          JoinEachAppend(groups, currentChunk);
          chunks, groups := chunks + [Join(currentChunk, "\n")], groups + [currentChunk];
          currentChunk, currentSize := [line], |line|;
        } else {
          currentChunk, currentSize := currentChunk + [line], currentSize + |line|;
        }
      } else if kind == MethodStart {
        if currentSize + |line| > maxChunkSize && currentChunk != [] && !inStruct {
          JoinEachAppend(groups, currentChunk);
          chunks, groups := chunks + [Join(currentChunk, "\n")], groups + [currentChunk];
          currentChunk, currentSize := [line], |line|;
        } else {
          currentChunk, currentSize := currentChunk + [line], currentSize + |line|;
        }
        inMethod := true;
      } else if kind == MethodEnd {
        currentChunk, currentSize := currentChunk + [line], currentSize + |line|;
        inMethod := false;
        if 5 * currentSize > 4 * maxChunkSize {
          JoinEachAppend(groups, currentChunk);
          chunks, groups := chunks + [Join(currentChunk, "\n")], groups + [currentChunk];
          currentChunk, currentSize := [], 0;
        }
      } else {
        if currentSize + |line| > maxChunkSize && currentChunk != [] && !inMethod && !inStruct {
          JoinEachAppend(groups, currentChunk);
          chunks, groups := chunks + [Join(currentChunk, "\n")], groups + [currentChunk];
          currentChunk, currentSize := [line], |line|;
        } else {
          currentChunk, currentSize := currentChunk + [line], currentSize + |line|;
        }
      }
      assert SegState(groups, currentChunk, currentSize, inMethod, inStruct)
        == ClsTransition(before, line, kind, maxChunkSize);
      assert lines[..i + 1][..i] == lines[..i];
    }
    assert lines[..|lines|] == lines;
  }

  /** The loop of every other file type: a greedy cut on size alone. */
  method BasLoop(lines: seq<string>, maxChunkSize: int)
    returns (chunks: seq<string>, currentChunk: seq<string>, ghost groups: seq<seq<string>>)
    ensures Run(lines, maxChunkSize, false).chunks == groups && chunks == JoinEach(groups)
    ensures Run(lines, maxChunkSize, false).current == currentChunk
  {
    chunks, currentChunk, groups := [], [], [];
    var currentSize := 0;
    for i := 0 to |lines|
      invariant Run(lines[..i], maxChunkSize, false) == SegState(groups, currentChunk, currentSize, false, false)
      invariant chunks == JoinEach(groups)
    {
      var line := lines[i];
      if currentSize + |line| > maxChunkSize && currentChunk != [] {
        JoinEachAppend(groups, currentChunk);
        chunks, groups := chunks + [Join(currentChunk, "\n")], groups + [currentChunk];
        currentChunk, currentSize := [line], |line|;
      } else {
        currentChunk, currentSize := currentChunk + [line], currentSize + |line|;
      }
      assert lines[..i + 1][..i] == lines[..i];
    }
    assert lines[..|lines|] == lines;
  }

  lemma JoinEachAppend(groups: seq<seq<string>>, g: seq<string>)
    ensures JoinEach(groups + [g]) == JoinEach(groups) + [Join(g, "\n")]
  {
  }

  // ---------------------------------------------------------------------------------------
  // Properties of the segmentation

  lemma FlattenAppend(groups: seq<seq<string>>, g: seq<string>)
    ensures Flatten(groups + [g]) == Flatten(groups) + g
  {
    assert (groups + [g])[..|groups|] == groups;
  }

  lemma TotalLengthAppend(lines: seq<string>, line: string)
    ensures TotalLength(lines + [line]) == TotalLength(lines) + |line|
  {
    assert (lines + [line])[..|lines|] == lines;
  }

  /** What every state of the loop satisfies, in both modes. */
  ghost predicate Consistent(st: SegState, consumed: seq<string>) {
    && Flatten(st.chunks) + st.current == consumed
    && (forall k :: 0 <= k < |st.chunks| ==> st.chunks[k] != [])
    && st.size == TotalLength(st.current)
  }

  lemma AppendConsistent(st: SegState, consumed: seq<string>, line: string)
    requires Consistent(st, consumed)
    ensures Consistent(Append(st, line), consumed + [line])
  {
    TotalLengthAppend(st.current, line);
  }

  lemma CutConsistent(st: SegState, consumed: seq<string>, line: string)
    requires Consistent(st, consumed) && st.current != []
    ensures Consistent(CutBefore(st, line), consumed + [line])
  {
    FlattenAppend(st.chunks, st.current);
    assert TotalLength([line]) == |line| by { TotalLengthAppend([], line); }
  }

  lemma FlushConsistent(st: SegState, consumed: seq<string>, maxChunkSize: int)
    requires Consistent(st, consumed) && st.current != []
    ensures Consistent(FlushIfLarge(st, maxChunkSize), consumed)
  {
    if 5 * st.size > 4 * maxChunkSize {
      var next := FlushIfLarge(st, maxChunkSize);
      FlattenAppend(st.chunks, st.current);
      assert next.chunks == st.chunks + [st.current] && next.current == [];
      assert TotalLength(next.current) == 0;
      assert forall k :: 0 <= k < |next.chunks| ==> next.chunks[k] != [] by {
        forall k | 0 <= k < |next.chunks|
          ensures next.chunks[k] != []
        {
          if k < |st.chunks| {
            assert next.chunks[k] == st.chunks[k];
          }
        }
      }
    }
  }

  lemma TransitionConsistent(st: SegState, consumed: seq<string>, line: string, kind: LineKind, maxChunkSize: int)
    requires Consistent(st, consumed)
    ensures Consistent(ClsTransition(st, line, kind, maxChunkSize), consumed + [line])
  {
    AppendConsistent(st, consumed, line);
    match kind
    case StructEnd => FlushConsistent(Append(st, line).(inStruct := false), consumed + [line], maxChunkSize);
    case MethodEnd => FlushConsistent(Append(st, line).(inMethod := false), consumed + [line], maxChunkSize);
    case _ =>
      if OverBudget(st, line, maxChunkSize) {
        CutConsistent(st, consumed, line);
      }
  }

  lemma StepConsistent(st: SegState, consumed: seq<string>, line: string, maxChunkSize: int, cls: bool)
    requires Consistent(st, consumed)
    ensures Consistent(Step(st, line, maxChunkSize, cls), consumed + [line])
  {
    if cls {
      TransitionConsistent(st, consumed, line, ClsLineKind(line), maxChunkSize);
    } else {
      AppendConsistent(st, consumed, line);
      if OverBudget(st, line, maxChunkSize) {
        CutConsistent(st, consumed, line);
      }
    }
  }

  /**
   * The loop keeps `current_size` equal to the total length of `current_chunk`, never emits an
   * empty chunk, and loses or repeats no line.
   */
  lemma {:induction false} RunConsistent(lines: seq<string>, maxChunkSize: int, cls: bool)
    ensures Consistent(Run(lines, maxChunkSize, cls), lines)
    decreases |lines|
  {
    if lines != [] {
      var init := lines[..|lines| - 1];
      RunConsistent(init, maxChunkSize, cls);
      StepConsistent(Run(init, maxChunkSize, cls), init, lines[|lines| - 1], maxChunkSize, cls);
      assert init + [lines[|lines| - 1]] == lines;
    }
  }

  /** The chunks, concatenated in order, are exactly the input lines; no chunk is empty. */
  lemma SegmentCoversLines(lines: seq<string>, maxChunkSize: int, fileType: string)
    ensures Flatten(Segment(lines, maxChunkSize, fileType)) == lines
    ensures forall g :: g in Segment(lines, maxChunkSize, fileType) ==> g != []
    ensures Segment(lines, maxChunkSize, fileType) == [] <==> lines == []
  {
    var st := Run(lines, maxChunkSize, fileType == "cls");
    RunConsistent(lines, maxChunkSize, fileType == "cls");
    FlattenAppend(st.chunks, st.current);
    var r := Segment(lines, maxChunkSize, fileType);
    if r == [] {
      assert st.chunks == [] && st.current == [];
    }
  }

  /** Joining the joined chunks is joining their concatenated lines, when no chunk is empty. */
  lemma {:induction false} JoinEachRejoins(groups: seq<seq<string>>)
    requires forall g :: g in groups ==> g != []
    ensures Join(JoinEach(groups), "\n") == Join(Flatten(groups), "\n")
    decreases |groups|
  {
    if groups != [] {
      var init := groups[..|groups| - 1];
      var g := groups[|groups| - 1];
      assert groups == init + [g];
      JoinEachAppend(init, g);
      FlattenAppend(init, g);
      assert g in groups;
      if init == [] {
        assert JoinEach(groups) == [Join(g, "\n")];
        assert Flatten(groups) == Flatten(init) + g == g;
      } else {
        assert init[0] == groups[0] && groups[0] in groups;
        FlattenNonEmpty(init);
        assert forall h :: h in init ==> h in groups;
        JoinEachRejoins(init);
        assert |JoinEach(init)| == |init|;
        JoinConcat(JoinEach(init), [Join(g, "\n")], "\n");
        JoinConcat(Flatten(init), g, "\n");
      }
    }
  }

  lemma FlattenNonEmpty(groups: seq<seq<string>>)
    requires groups != [] && groups[0] != []
    ensures Flatten(groups) != []
  {
    if |groups| > 1 {
      FlattenNonEmpty(groups[..|groups| - 1]);
    }
  }

  /**
   * The chunks `chunk_large_file` returns, joined by line breaks, give the file back (without a
   * final line break, which `splitlines` drops).
   */
  lemma ChunksRejoin(content: string, maxChunkSize: int, fileType: string)
    ensures var chunks := JoinEach(Segment(SplitLines(content), maxChunkSize, fileType));
      && (content != [] && content[|content| - 1] == '\n' ==> Join(chunks, "\n") + "\n" == content)
      && (content == [] || content[|content| - 1] != '\n' ==> Join(chunks, "\n") == content)
  {
    var groups := Segment(SplitLines(content), maxChunkSize, fileType);
    SegmentCoversLines(SplitLines(content), maxChunkSize, fileType);
    JoinEachRejoins(groups);
    SplitLinesJoin(content);
  }

  /** In "bas" mode a chunk over the budget holds exactly one line. */
  ghost predicate WithinBudget(g: seq<string>, maxChunkSize: int) {
    |g| <= 1 || TotalLength(g) <= maxChunkSize
  }

  lemma {:induction false} BasRunWithinBudget(lines: seq<string>, maxChunkSize: int)
    ensures var st := Run(lines, maxChunkSize, false);
      st.size == TotalLength(st.current)
      && WithinBudget(st.current, maxChunkSize)
      && forall k :: 0 <= k < |st.chunks| ==> WithinBudget(st.chunks[k], maxChunkSize)
    decreases |lines|
  {
    if lines != [] {
      var init := lines[..|lines| - 1];
      var line := lines[|lines| - 1];
      BasRunWithinBudget(init, maxChunkSize);
      TotalLengthAppend(Run(init, maxChunkSize, false).current, line);
      assert TotalLength([line]) == |line| by { TotalLengthAppend([], line); }
    }
  }

  lemma BasChunksWithinBudget(lines: seq<string>, maxChunkSize: int, fileType: string)
    requires fileType != "cls"
    ensures forall g :: g in Segment(lines, maxChunkSize, fileType) ==>
      |g| == 1 || TotalLength(g) <= maxChunkSize
  {
    BasRunWithinBudget(lines, maxChunkSize);
    SegmentCoversLines(lines, maxChunkSize, fileType);
  }

  /**
   * The boundary policy of "cls" mode, for the line at index `i`: declare and plain lines never
   * cut inside an open method or `Type` block; a `Type` start never cuts inside a method and a
   * method start never cuts inside a `Type` block; an end marker always joins the current chunk,
   * which is emitted right after it exactly when its size exceeds 0.8 * maxChunkSize; and a new
   * chunk is started only on one of those two conditions.
   */
  lemma ClsBoundaryPolicy(lines: seq<string>, maxChunkSize: int, i: nat)
    requires i < |lines|
    ensures
      var before, after, line := Run(lines[..i], maxChunkSize, true), Run(lines[..i + 1], maxChunkSize, true), lines[i];
      var kind := ClsLineKind(line);
      && (kind in {Declare, Plain} && (before.inMethod || before.inStruct) ==>
            after.chunks == before.chunks && after.current == before.current + [line])
      && (kind == StructStart && before.inMethod ==>
            after.chunks == before.chunks && after.current == before.current + [line] && after.inStruct)
      && (kind == MethodStart && before.inStruct ==>
            after.chunks == before.chunks && after.current == before.current + [line] && after.inMethod)
      && (kind in {StructEnd, MethodEnd} ==>
            if 5 * (before.size + |line|) > 4 * maxChunkSize
            then after.chunks == before.chunks + [before.current + [line]] && after.current == []
            else after.chunks == before.chunks && after.current == before.current + [line])
      && (after.chunks != before.chunks ==>
            OverBudget(before, line, maxChunkSize) || kind in {StructEnd, MethodEnd})
  {
    assert lines[..i + 1][..i] == lines[..i];
  }

  /** In "bas" mode a chunk is emitted before a line exactly when that line would exceed the budget. */
  lemma BasCutPolicy(lines: seq<string>, maxChunkSize: int, i: nat)
    requires i < |lines|
    ensures
      var before, after, line := Run(lines[..i], maxChunkSize, false), Run(lines[..i + 1], maxChunkSize, false), lines[i];
      if OverBudget(before, line, maxChunkSize)
      then after.chunks == before.chunks + [before.current] && after.current == [line]
      else after.chunks == before.chunks && after.current == before.current + [line]
  {
    assert lines[..i + 1][..i] == lines[..i];
  }
}
