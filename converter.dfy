/**
 * `VB6Converter.convert_bas_file`, `convert_cls_file`, `combine_converted_chunks` and
 * `combine_class_chunks`: a blank file is refused, a small file goes to the model in one request,
 * and a large one is cut into chunks that are converted one after another (each prompt carrying
 * the context summary of the last successful chunk) and then combined by one more request.
 * Backend calls are numbered from `base`; every operation reports how many it used.
 */
module Converter {
  import opened Wrappers
  import opened Text
  import opened Json
  import opened Segmenter
  import opened RequestDriver
  import opened Classifiers

  const DefaultMaxTokens: int := 12000
  const ChunkMaxTokens: int := 8000
  const CombineMaxTokens: int := 16000
  const Retries: int := 3
  const ContextLimit: nat := 500
  const BasChunkThreshold: nat := 15000
  const BasChunkSize: int := 5000
  const ClsChunkThreshold: nat := 12000
  const ClsChunkSize: int := 4000

  const EmptyContentPrefix: string := "Empty content in "
  const AllChunksFailedPrefix: string := "All chunks failed for "

  /** What the chunks come from: a module, or a class whose prompts also carry its name. */
  datatype Source = Module | Class(className: string)

  function ChunkPrompt(source: Source, number: nat, total: nat, previousContext: string, chunk: string,
                       namespace: string): Prompt
  {
    match source
    case Module => ChunkConverter(number, total, previousContext, chunk, namespace)
    case Class(name) => ClassChunkConverter(number, total, previousContext, chunk, namespace, name)
  }

  function CombinePrompt(source: Source, parts: seq<Object>, filename: string, namespace: string): Prompt {
    match source
    case Module => CombineModule(parts, filename, namespace)
    case Class(name) => CombineClass(parts, filename, name, namespace)
  }

  /** `result.get("ContextSummary", "")[:500]`, for a summary that is a string (anything else counts as ""). */
  function ContextOf(result: Object): (ctx: string)
    ensures |ctx| <= ContextLimit
  {
    match Get(result, "ContextSummary")
    case Some(JString(summary)) => Take(summary, ContextLimit)
    case _ => ""
  }

  // ---------------------------------------------------------------------------------------
  // The chunk loop

  /** `parts`: the answers without an "error" key, in order. */
  function Successes(results: seq<Object>): (parts: seq<Object>)
    ensures |parts| <= |results|
    ensures forall o :: o in parts ==> o in results && !HasKey(o, "error")
  {
    if results == [] then []
    else
      var init := Successes(results[..|results| - 1]);
      var last := results[|results| - 1];
      if HasKey(last, "error") then init else init + [last]
  }

  /** `prev_ctx` after the given answers: updated on every answer without an "error" key. */
  function ContextAfter(results: seq<Object>): (ctx: string)
    ensures |ctx| <= ContextLimit
  {
    if results == [] then ""
    else
      var last := results[|results| - 1];
      if HasKey(last, "error") then ContextAfter(results[..|results| - 1]) else ContextOf(last)
  }

  /** After the first `n` chunks: every answer, every prompt sent, and the backend calls used. */
  datatype Progress = Progress(results: seq<Object>, prompts: seq<Prompt>, calls: nat)

  /** The first `n` turns of the chunk loop, with `ask` standing for `call_azure_openai`. */
  function ChunkLoop(ask: Ask, base: nat, source: Source, chunks: seq<string>, namespace: string, n: nat): (p: Progress)
    requires n <= |chunks|
    ensures |p.results| == n && |p.prompts| == n
  {
    if n == 0 then Progress([], [], 0)
    else
      var p := ChunkLoop(ask, base, source, chunks, namespace, n - 1);
      var prompt := ChunkPrompt(source, n, |chunks|, ContextAfter(p.results), chunks[n - 1], namespace);
      var reply := ask(base + p.calls, Request(prompt, ChunkMaxTokens));
      Progress(p.results + [reply.result], p.prompts + [prompt], p.calls + reply.calls)
  }

  /** `self.call_azure_openai(prompt, max_tokens)`, as seen through `ask`. */
  method SendPrompt(env: Env, ghost ask: Ask, base: nat, prompt: Prompt, maxTokens: int)
    returns (result: Object, calls: nat)
    requires Answers(env, Retries, ask)
    ensures Reply(result, calls) == ask(base, Request(prompt, maxTokens))
  {
    result, calls := CallAzureOpenAI(env, base, prompt, maxTokens, Retries);
  }

  /** One more turn of the chunk loop. */
  lemma ChunkLoopStep(ask: Ask, base: nat, source: Source, chunks: seq<string>, namespace: string, n: nat, reply: Reply)
    requires n < |chunks|
    requires var p := ChunkLoop(ask, base, source, chunks, namespace, n);
      reply == ask(base + p.calls,
                   Request(ChunkPrompt(source, n + 1, |chunks|, ContextAfter(p.results), chunks[n], namespace), ChunkMaxTokens))
    ensures var p := ChunkLoop(ask, base, source, chunks, namespace, n);
      ChunkLoop(ask, base, source, chunks, namespace, n + 1)
      == Progress(p.results + [reply.result],
                  p.prompts + [ChunkPrompt(source, n + 1, |chunks|, ContextAfter(p.results), chunks[n], namespace)],
                  p.calls + reply.calls)
  {
  }

  /** The `for i, chunk in enumerate(chunks)` loop of both converters. */
  method ConvertChunks(env: Env, ghost ask: Ask, base: nat, source: Source, chunks: seq<string>, namespace: string)
    returns (parts: seq<Object>, calls: nat)
    requires Answers(env, Retries, ask)
    ensures var p := ChunkLoop(ask, base, source, chunks, namespace, |chunks|);
      parts == Successes(p.results) && calls == p.calls
  {
    parts := [];
    var prevCtx: string := "";
    calls := 0;
    ghost var results: seq<Object> := [];
    for i := 0 to |chunks|
      invariant var p := ChunkLoop(ask, base, source, chunks, namespace, i);
        results == p.results && calls == p.calls
      invariant parts == Successes(results) && prevCtx == ContextAfter(results)
    {
      var prompt := ChunkPrompt(source, i + 1, |chunks|, prevCtx, chunks[i], namespace);
      var result, used := SendPrompt(env, ask, base + calls, prompt, ChunkMaxTokens);
      ChunkLoopStep(ask, base, source, chunks, namespace, i, Reply(result, used));
      calls := calls + used;
      results := results + [result];
      assert results[..i] == results[..|results| - 1];
      if HasKey(result, "error") {
        continue;
      }
      parts := parts + [result];
      prevCtx := ContextOf(result);
    }
  }

  // ---------------------------------------------------------------------------------------
  // Combining and converting

  method CombineConvertedChunks(env: Env, ghost ask: Ask, base: nat, chunks: seq<Object>, filename: string,
                                namespace: string)
    returns (result: Object, calls: nat)
    requires Answers(env, Retries, ask)
    ensures Reply(result, calls) == ask(base, Request(CombineModule(chunks, filename, namespace), CombineMaxTokens))
  {
    result, calls := SendPrompt(env, ask, base, CombineModule(chunks, filename, namespace), CombineMaxTokens);
  }

  method CombineClassChunks(env: Env, ghost ask: Ask, base: nat, chunks: seq<Object>, filename: string,
                            className: string, namespace: string)
    returns (result: Object, calls: nat)
    requires Answers(env, Retries, ask)
    ensures Reply(result, calls) == ask(base, Request(CombineClass(chunks, filename, className, namespace), CombineMaxTokens))
  {
    result, calls := SendPrompt(env, ask, base, CombineClass(chunks, filename, className, namespace), CombineMaxTokens);
  }

  /** The chunked path: convert every chunk, then combine the successful answers, or fail if there are none. */
  function Chunked(ask: Ask, base: nat, source: Source, chunks: seq<string>, filename: string, namespace: string): Reply {
    var p := ChunkLoop(ask, base, source, chunks, namespace, |chunks|);
    Finished(ask, base, source, Successes(p.results), p.calls, filename, namespace)
  }

  /** After the chunk loop kept `parts` and used `used` backend calls from `base` on. */
  function Finished(ask: Ask, base: nat, source: Source, parts: seq<Object>, used: nat, filename: string,
                    namespace: string): Reply
  {
    if parts == [] then Reply(ErrorObject(AllChunksFailedPrefix + filename), used)
    else
      var c := ask(base + used, Request(CombinePrompt(source, parts, filename, namespace), CombineMaxTokens));
      Reply(c.result, used + c.calls)
  }

  /** `str.strip()` leaves nothing. */
  predicate Blank(content: string) {
    Strip(content) == []
  }

  function ModuleChunks(content: string): seq<string> {
    JoinEach(Segment(SplitLines(content), BasChunkSize, "bas"))
  }

  function ClassChunks(content: string): seq<string> {
    JoinEach(Segment(SplitLines(content), ClsChunkSize, "cls"))
  }

  /** What `convert_bas_file` answers, and the backend calls it makes. */
  function ConvertModule(ask: Ask, base: nat, content: string, filename: string, namespace: string): Reply {
    if Blank(content) then Reply(ErrorObject(EmptyContentPrefix + filename), 0)
    else if |content| > BasChunkThreshold then Chunked(ask, base, Module, ModuleChunks(content), filename, namespace)
    else ask(base, Request(ModuleBas(content, namespace), DefaultMaxTokens))
  }

  /** What `convert_cls_file` answers, and the backend calls it makes. */
  function ConvertClass(ask: Ask, base: nat, content: string, filename: string, namespace: string): Reply {
    if Blank(content) then Reply(ErrorObject(EmptyContentPrefix + filename), 0)
    else if |content| > ClsChunkThreshold then
      Chunked(ask, base, Class(ClassNameOf(content)), ClassChunks(content), filename, namespace)
    else ask(base, Request(ClassCls(content, namespace), DefaultMaxTokens))
  }

  /** The combining request for the chunk's source: `combine_converted_chunks` or `combine_class_chunks`. */
  method Combine(env: Env, ghost ask: Ask, base: nat, source: Source, parts: seq<Object>, filename: string,
                 namespace: string)
    returns (result: Object, calls: nat)
    requires Answers(env, Retries, ask)
    ensures Reply(result, calls) == ask(base, Request(CombinePrompt(source, parts, filename, namespace), CombineMaxTokens))
  {
    match source {
      case Module =>
        result, calls := CombineConvertedChunks(env, ask, base, parts, filename, namespace);
      case Class(className) =>
        result, calls := CombineClassChunks(env, ask, base, parts, filename, className, namespace);
    }
  }

  /** `if not parts: return {"error": ...}`, else the combining request. */
  method Finish(env: Env, ghost ask: Ask, base: nat, source: Source, parts: seq<Object>, used: nat, filename: string,
                namespace: string)
    returns (result: Object, calls: nat)
    requires Answers(env, Retries, ask)
    ensures Reply(result, calls) == Finished(ask, base, source, parts, used, filename, namespace)
  {
    if parts == [] {
      return ErrorObject(AllChunksFailedPrefix + filename), used;
    }
    var combined, more := Combine(env, ask, base + used, source, parts, filename, namespace);
    return combined, used + more;
  }

  /**
   * The chunked branch of `convert_bas_file` and `convert_cls_file`: convert every chunk, then
   * combine the successful answers, or fail when there are none.
   */
  method ConvertInChunks(env: Env, ghost ask: Ask, base: nat, source: Source, chunks: seq<string>, filename: string,
                         namespace: string)
    returns (result: Object, calls: nat)
    requires Answers(env, Retries, ask)
    ensures Reply(result, calls) == Chunked(ask, base, source, chunks, filename, namespace)
  {
    var parts, used := ConvertChunks(env, ask, base, source, chunks, namespace);
    result, calls := Finish(env, ask, base, source, parts, used, filename, namespace);
  }

  method ConvertBasFile(env: Env, ghost ask: Ask, base: nat, content: string, filename: string, namespace: string)
    returns (result: Object, calls: nat)
    requires Answers(env, Retries, ask)
    ensures Reply(result, calls) == ConvertModule(ask, base, content, filename, namespace)
  {
    if content == [] || Strip(content) == [] {
      return ErrorObject(EmptyContentPrefix + filename), 0;
    }
    if |content| > BasChunkThreshold {
      var chunks := ChunkLargeFile(content, BasChunkSize, "bas");
      assert chunks == ModuleChunks(content);
      result, calls := ConvertInChunks(env, ask, base, Module, chunks, filename, namespace);
    } else {
      result, calls := SendPrompt(env, ask, base, ModuleBas(content, namespace), DefaultMaxTokens);
    }
  }

  method ConvertClsFile(env: Env, ghost ask: Ask, base: nat, content: string, filename: string, namespace: string)
    returns (result: Object, calls: nat)
    requires Answers(env, Retries, ask)
    ensures Reply(result, calls) == ConvertClass(ask, base, content, filename, namespace)
  {
    if content == [] || Strip(content) == [] {
      return ErrorObject(EmptyContentPrefix + filename), 0;
    }
    var className := ExtractClassName(content);
    var purpose := ClassifyClsPurpose(content);
    if |content| > ClsChunkThreshold {
      var chunks := ChunkLargeFile(content, ClsChunkSize, "cls");
      assert chunks == ClassChunks(content);
      result, calls := ConvertInChunks(env, ask, base, Class(className), chunks, filename, namespace);
    } else {
      result, calls := SendPrompt(env, ask, base, ClassCls(content, namespace), DefaultMaxTokens);
    }
  }

  // ---------------------------------------------------------------------------------------
  // Properties of the chunk loop

  /** `prev_ctx` is the context summary of the last successful answer, or "" while none has succeeded. */
  lemma {:induction false} ContextIsLastSuccess(results: seq<Object>)
    ensures var parts := Successes(results);
      ContextAfter(results) == if parts == [] then "" else ContextOf(parts[|parts| - 1])
    decreases |results|
  {
    if results != [] {
      ContextIsLastSuccess(results[..|results| - 1]);
    }
  }

  /**
   * How one answer moves `prev_ctx`: an error dict leaves it as it was; any other answer replaces
   * it with the first 500 characters of its summary, or with "" when it has no "ContextSummary" key.
   */
  lemma ContextUpdate(results: seq<Object>, last: Object)
    ensures HasKey(last, "error") ==> ContextAfter(results + [last]) == ContextAfter(results)
    ensures !HasKey(last, "error") && !HasKey(last, "ContextSummary") ==> ContextAfter(results + [last]) == ""
    ensures !HasKey(last, "error") && Get(last, "ContextSummary").Some? && Get(last, "ContextSummary").value.JString? ==>
      ContextAfter(results + [last]) == Take(Get(last, "ContextSummary").value.str, ContextLimit)
  {
    assert (results + [last])[..|results|] == results;
  }

  /** `parts` holds every answer without an "error" key, in the order of the chunks. */
  lemma {:induction false} SuccessesKeepEveryAnswer(results: seq<Object>, i: nat)
    requires i < |results| && !HasKey(results[i], "error")
    ensures results[i] in Successes(results)
    ensures Successes(results[..i]) + [results[i]] <= Successes(results)
    decreases |results|
  {
    var init := results[..|results| - 1];
    if i < |results| - 1 {
      assert init[i] == results[i] && init[..i] == results[..i];
      SuccessesKeepEveryAnswer(init, i);
    } else {
      assert results[..i] == init;
    }
  }

  /** No answer is kept exactly when every chunk's answer carries an "error" key. */
  lemma {:induction false} NoSuccessIffAllFailed(results: seq<Object>)
    ensures Successes(results) == [] <==> forall i :: 0 <= i < |results| ==> HasKey(results[i], "error")
    decreases |results|
  {
    if results != [] {
      var init := results[..|results| - 1];
      NoSuccessIffAllFailed(init);
      assert forall i :: 0 <= i < |init| ==> init[i] == results[i];
    }
  }

  /** What turn `i` of the loop recorded in `p`. */
  ghost predicate Turn(ask: Ask, base: nat, source: Source, chunks: seq<string>, namespace: string, p: Progress, i: nat)
    requires i < |p.results| == |p.prompts| && i < |chunks|
  {
    var before := ChunkLoop(ask, base, source, chunks, namespace, i);
    && before.results == p.results[..i]
    && p.prompts[i] == ChunkPrompt(source, i + 1, |chunks|, ContextAfter(before.results), chunks[i], namespace)
    && p.results[i] == ask(base + before.calls, Request(p.prompts[i], ChunkMaxTokens)).result
  }

  /**
   * Turn `i` sends chunk `i` as chunk number `i + 1` of `|chunks|`, with the context left by the
   * answers before it, on the backend call that follows the calls those answers used; its answer
   * is the driver's answer to that prompt.
   */
  lemma {:induction false} ChunkTurns(ask: Ask, base: nat, source: Source, chunks: seq<string>, namespace: string, n: nat)
    requires n <= |chunks|
    ensures forall i :: 0 <= i < n ==>
      Turn(ask, base, source, chunks, namespace, ChunkLoop(ask, base, source, chunks, namespace, n), i)
    decreases n
  {
    if n > 0 {
      ChunkTurns(ask, base, source, chunks, namespace, n - 1);
      var p := ChunkLoop(ask, base, source, chunks, namespace, n);
      var q := ChunkLoop(ask, base, source, chunks, namespace, n - 1);
      forall i | 0 <= i < n
        ensures Turn(ask, base, source, chunks, namespace, p, i)
      {
        if i < n - 1 {
          TurnKept(ask, base, source, chunks, namespace, q, p, i);
        } else {
          assert p.results[..i] == q.results;
        }
      }
    }
  }

  /** A turn recorded in `q` stays recorded in any progress that extends `q`. */
  lemma TurnKept(ask: Ask, base: nat, source: Source, chunks: seq<string>, namespace: string, q: Progress,
                 p: Progress, i: nat)
    requires i < |q.results| == |q.prompts| && i < |chunks|
    requires |p.results| == |p.prompts| && q.results <= p.results && q.prompts <= p.prompts
    requires Turn(ask, base, source, chunks, namespace, q, i)
    ensures Turn(ask, base, source, chunks, namespace, p, i)
  {
    assert p.results[..i] == q.results[..i];
    assert p.prompts[i] == q.prompts[i] && p.results[i] == q.results[i];
  }

  /**
   * With a sound driver the first `n` turns use between `n` and `(retries + 1) * n` backend calls,
   * and every answer is an error dict or holds an expected file key.
   */
  lemma {:induction false} ChunkLoopBounds(ask: Ask, base: nat, source: Source, chunks: seq<string>, namespace: string,
                                           n: nat)
    requires n <= |chunks| && Sound(ask, Retries)
    ensures var p := ChunkLoop(ask, base, source, chunks, namespace, n);
      && n <= p.calls <= (Retries + 1) * n
      && forall o :: o in p.results ==> HasKey(o, "error") || HasExpectedKey(o)
    decreases n
  {
    if n > 0 {
      ChunkLoopBounds(ask, base, source, chunks, namespace, n - 1);
    }
  }

  /**
   * The chunked branch: it fails with "All chunks failed for <file>" after the chunk calls exactly
   * when every chunk's answer was an error dict; otherwise it adds the combining request's calls.
   * Either way the answer is an error dict or holds an expected file key.
   */
  lemma ChunkedOutcome(ask: Ask, base: nat, source: Source, chunks: seq<string>, filename: string, namespace: string)
    requires Sound(ask, Retries)
    ensures var r := Chunked(ask, base, source, chunks, filename, namespace);
      var p := ChunkLoop(ask, base, source, chunks, namespace, |chunks|);
      && ((forall i :: 0 <= i < |chunks| ==> HasKey(p.results[i], "error"))
            <==> r == Reply(ErrorObject(AllChunksFailedPrefix + filename), p.calls))
      && |chunks| <= r.calls <= (Retries + 1) * (|chunks| + 1)
      && (HasKey(r.result, "error") || HasExpectedKey(r.result))
  {
    var p := ChunkLoop(ask, base, source, chunks, namespace, |chunks|);
    ChunkLoopBounds(ask, base, source, chunks, namespace, |chunks|);
    NoSuccessIffAllFailed(p.results);
  }

  /** A file that is not blank has at least one chunk. */
  lemma ChunksOfNonEmpty(content: string, maxChunkSize: int, fileType: string)
    requires content != []
    ensures |JoinEach(Segment(SplitLines(content), maxChunkSize, fileType))| >= 1
  {
    SegmentCoversLines(SplitLines(content), maxChunkSize, fileType);
  }

  /**
   * `convert_bas_file` with a sound driver: a blank file is refused without any backend call; any
   * other file makes at least one, at most `retries + 1` when it is sent whole; and the answer is
   * an error dict or holds an expected file key.
   */
  lemma ConvertModuleOutcome(ask: Ask, base: nat, content: string, filename: string, namespace: string)
    requires Sound(ask, Retries)
    ensures var r := ConvertModule(ask, base, content, filename, namespace);
      && (Blank(content) <==> r.calls == 0)
      && (Blank(content) ==> r.result == ErrorObject(EmptyContentPrefix + filename))
      && (!Blank(content) && |content| <= BasChunkThreshold ==> r.calls <= Retries + 1)
      && (HasKey(r.result, "error") || HasExpectedKey(r.result))
  {
    if !Blank(content) {
      assert content != [];
      if |content| > BasChunkThreshold {
        ChunksOfNonEmpty(content, BasChunkSize, "bas");
        ChunkedOutcome(ask, base, Module, ModuleChunks(content), filename, namespace);
      } else {
        assert ConvertModule(ask, base, content, filename, namespace)
            == ask(base, Request(ModuleBas(content, namespace), DefaultMaxTokens));
      }
    }
  }

  /** `convert_cls_file` with a sound driver, as `ConvertModuleOutcome` with the class thresholds. */
  lemma ConvertClassOutcome(ask: Ask, base: nat, content: string, filename: string, namespace: string)
    requires Sound(ask, Retries)
    ensures var r := ConvertClass(ask, base, content, filename, namespace);
      && (Blank(content) <==> r.calls == 0)
      && (Blank(content) ==> r.result == ErrorObject(EmptyContentPrefix + filename))
      && (!Blank(content) && |content| <= ClsChunkThreshold ==> r.calls <= Retries + 1)
      && (HasKey(r.result, "error") || HasExpectedKey(r.result))
  {
    if !Blank(content) {
      assert content != [];
      if |content| > ClsChunkThreshold {
        ChunksOfNonEmpty(content, ClsChunkSize, "cls");
        ChunkedOutcome(ask, base, Class(ClassNameOf(content)), ClassChunks(content), filename, namespace);
      } else {
        assert ConvertClass(ask, base, content, filename, namespace)
            == ask(base, Request(ClassCls(content, namespace), DefaultMaxTokens));
      }
    }
  }
}
