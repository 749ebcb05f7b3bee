/**
 * `VB6Converter.call_azure_openai`: up to `retries + 1` attempts against the model backend. Each
 * attempt either raises, returns an empty reply, or returns text that goes through the recoverer,
 * then through the `"error"`-key check and the expected-key gate.
 */
module RequestDriver {
  import opened Json
  import opened Recoverer

  /** Which values a prompt carries; the template wording around them is not part of the model. */
  datatype Prompt =
    | ModuleBas(vb6Code: string, namespace: string)
    | ClassCls(vb6Code: string, namespace: string)
    | ChunkConverter(chunkNumber: nat, totalChunks: nat, previousContext: string, vb6Code: string, namespace: string)
    | ClassChunkConverter(chunkNumber: nat, totalChunks: nat, previousContext: string, vb6Code: string,
                          namespace: string, className: string)
    | CombineModule(chunks: seq<Object>, filename: string, namespace: string)
    | CombineClass(chunks: seq<Object>, filename: string, className: string, namespace: string)

  datatype Request = Request(prompt: Prompt, maxTokens: int)

  /** One backend call: it raises (with the exception's text) or returns the reply's content ("" when there is none). */
  datatype Outcome = Raised(message: string) | Returned(content: string)

  /** The model backend: the outcome of the n-th backend call of a run, given what is sent. */
  type Backend = (nat, Request) -> Outcome

  /** The collaborators the converter calls into: the JSON parser and the backend. */
  datatype Env = Env(parse: Parser, backend: Backend)

  const ExpectedKeys: seq<string> :=
    ["Class.cs", "Constants.cs", "ModuleService.cs", "IModuleService.cs", "Chunk.cs", "ClassChunk.cs"]

  const ApiFailedPrefix: string := "API call failed: "
  const EmptyApiResponseMessage: string := "Empty response from Azure OpenAI API"
  const MissingKeysPrefix: string := "Missing expected keys. Found: "
  const ExhaustedMessage: string := "Exhausted all retry attempts"

  predicate HasExpectedKey(o: Object) {
    exists k :: k in ExpectedKeys && HasKey(o, k)
  }

  /** How one attempt ends: the dict to return on success, or the error dict of that attempt. */
  datatype Verdict = Accept(result: Object) | Reject(error: Object)

  function Judge(parse: Parser, outcome: Outcome): Verdict {
    match outcome
    case Raised(message) => Reject(ErrorObject(ApiFailedPrefix + message))
    case Returned(content) =>
      if content == [] then Reject(ErrorObject(EmptyApiResponseMessage))
      else
        var parsed := Recover(parse, content);
        if HasKey(parsed, "error") then Reject(parsed)
        else if !HasExpectedKey(parsed) then Reject(ErrorObject(MissingKeysPrefix + KeysRepr(parsed)))
        else Accept(parsed)
  }

  /** The verdict on backend call number `base + k`. */
  function VerdictAt(env: Env, base: nat, request: Request, k: nat): Verdict {
    Judge(env.parse, env.backend(base + k, request))
  }

  /** A reply the driver keeps: non-empty content whose recovered dict has no "error" key and an expected key. */
  predicate GoodReply(parse: Parser, outcome: Outcome) {
    && outcome.Returned?
    && outcome.content != []
    && !HasKey(Recover(parse, outcome.content), "error")
    && HasExpectedKey(Recover(parse, outcome.content))
  }

  /**
   * An attempt is accepted exactly when its reply is good, and then the answer is the recovered
   * dict; otherwise it is rejected with the error dict of its kind: the exception's text, the empty
   * reply, the recovered error dict itself, or the keys that were found.
   */
  lemma JudgeSound(parse: Parser, outcome: Outcome)
    ensures var v := Judge(parse, outcome);
      && (v.Accept? <==> GoodReply(parse, outcome))
      && (v.Accept? ==> v.result == Recover(parse, outcome.content))
      && (outcome.Raised? ==> v == Reject(ErrorObject(ApiFailedPrefix + outcome.message)))
      && (outcome.Returned? && outcome.content == [] ==> v == Reject(ErrorObject(EmptyApiResponseMessage)))
      && (outcome.Returned? && outcome.content != [] && HasKey(Recover(parse, outcome.content), "error") ==>
            v == Reject(Recover(parse, outcome.content)))
      && (outcome.Returned? && outcome.content != [] && !HasKey(Recover(parse, outcome.content), "error")
          && !HasExpectedKey(Recover(parse, outcome.content)) ==>
            v == Reject(ErrorObject(MissingKeysPrefix + KeysRepr(Recover(parse, outcome.content)))))
      && (v.Accept? ==> !HasKey(v.result, "error") && HasExpectedKey(v.result))
      && (v.Reject? ==> HasKey(v.error, "error"))
  {
    match outcome
    case Raised(message) =>
      assert Judge(parse, outcome) == Reject(ErrorObject(ApiFailedPrefix + message));
    case Returned(content) =>
      if content == [] {
        assert Judge(parse, outcome) == Reject(ErrorObject(EmptyApiResponseMessage));
      } else {
        var parsed := Recover(parse, content);
        if !HasKey(parsed, "error") && !HasExpectedKey(parsed) {
          assert Judge(parse, outcome) == Reject(ErrorObject(MissingKeysPrefix + KeysRepr(parsed)));
        }
      }
  }

  /** The returned dict and the number of backend calls made. */
  datatype Reply = Reply(result: Object, calls: nat)

  /**
   * The attempt loop from `attempt` on, given the verdict on each attempt: stop at the first
   * accepted attempt, retry a rejected one while `attempt < retries`, else return its error.
   */
  function Retry(verdict: nat -> Verdict, retries: int, attempt: nat): Reply
    decreases retries + 1 - attempt
  {
    if attempt > retries then Reply(ErrorObject(ExhaustedMessage), attempt)
    else
      match verdict(attempt)
      case Accept(result) => Reply(result, attempt + 1)
      case Reject(error) =>
        if attempt < retries then Retry(verdict, retries, attempt + 1)
        else Reply(error, attempt + 1)
  }

  /** What `call_azure_openai` returns; backend call number `base + k` serves attempt `k`. */
  function Call(env: Env, base: nat, request: Request, retries: int): Reply {
    Retry((k: nat) => VerdictAt(env, base, request, k), retries, 0)
  }

  method CallAzureOpenAI(env: Env, base: nat, prompt: Prompt, maxTokens: int, retries: int)
    returns (result: Object, calls: nat)
    ensures Reply(result, calls) == Call(env, base, Request(prompt, maxTokens), retries)
  {
    var request := Request(prompt, maxTokens);
    var attempt: nat := 0;
    while attempt <= retries
      invariant Retry((k: nat) => VerdictAt(env, base, request, k), retries, attempt) == Call(env, base, request, retries)
      decreases retries + 1 - attempt
    {
      var outcome := env.backend(base + attempt, request);
      if outcome.Raised? {
        if attempt < retries {
          attempt := attempt + 1;
          continue;
        }
        return ErrorObject(ApiFailedPrefix + outcome.message), attempt + 1;
      }
      var responseContent := outcome.content;
      if responseContent == [] {
        if attempt < retries {
          attempt := attempt + 1;
          continue;
        }
        return ErrorObject(EmptyApiResponseMessage), attempt + 1;
      }
      var parsedResponse := ExtractJsonFromResponse(env.parse, responseContent);
      if HasKey(parsedResponse, "error") {
        if attempt < retries {
          attempt := attempt + 1;
          continue;
        }
        return parsedResponse, attempt + 1;
      }
      var hasValidKey := HasExpectedKey(parsedResponse);
      if !hasValidKey {
        if attempt < retries {
          attempt := attempt + 1;
          continue;
        }
        return ErrorObject(MissingKeysPrefix + KeysRepr(parsedResponse)), attempt + 1;
      }
      return parsedResponse, attempt + 1;
    }
    return ErrorObject(ExhaustedMessage), attempt;
  }

  // ---------------------------------------------------------------------------------------
  // Properties of the retry loop

  /** The last attempt's verdict decides: its dict if accepted, else its error, and then the budget is spent. */
  predicate Settled(verdict: nat -> Verdict, retries: int, r: Reply)
    requires r.calls >= 1
  {
    var v := verdict(r.calls - 1);
    (v.Accept? ==> r.result == v.result) && (v.Reject? ==> r.calls == retries + 1 && r.result == v.error)
  }

  lemma {:induction false} RetryFromSpec(verdict: nat -> Verdict, retries: int, attempt: nat)
    requires attempt <= retries
    ensures var r := Retry(verdict, retries, attempt);
      && attempt + 1 <= r.calls <= retries + 1
      && (forall k :: attempt <= k < r.calls - 1 ==> verdict(k).Reject?)
      && Settled(verdict, retries, r)
    decreases retries + 1 - attempt
  {
    if verdict(attempt).Reject? && attempt < retries {
      RetryFromSpec(verdict, retries, attempt + 1);
    }
  }

  /**
   * With `retries >= 0` the loop makes between 1 and `retries + 1` attempts; every attempt but the
   * last was rejected; it returns the first accepted dict, or else the last attempt's error. With
   * `retries < 0` it makes none and answers "Exhausted all retry attempts".
   */
  lemma RetrySpec(verdict: nat -> Verdict, retries: int)
    ensures var r := Retry(verdict, retries, 0);
      && (retries < 0 ==> r == Reply(ErrorObject(ExhaustedMessage), 0))
      && (retries >= 0 ==>
            && 1 <= r.calls <= retries + 1
            && (forall k :: 0 <= k < r.calls - 1 ==> verdict(k).Reject?)
            && Settled(verdict, retries, r))
  {
    if retries >= 0 {
      RetryFromSpec(verdict, retries, 0);
    }
  }

  /** The loop ends in an error dict exactly when every one of the `retries + 1` attempts was rejected. */
  lemma RetryErrorIffAllRejected(verdict: nat -> Verdict, retries: int)
    requires retries >= 0
    requires forall k :: verdict(k).Accept? ==> !HasKey(verdict(k).result, "error")
    requires forall k :: verdict(k).Reject? ==> HasKey(verdict(k).error, "error")
    ensures HasKey(Retry(verdict, retries, 0).result, "error") <==> forall k :: 0 <= k <= retries ==> verdict(k).Reject?
  {
    RetrySpec(verdict, retries);
  }

  /** The driver's answer is an error dict exactly when all `retries + 1` backend calls were rejected. */
  lemma CallErrorIffAllRejected(env: Env, base: nat, request: Request, retries: int)
    requires retries >= 0
    ensures HasKey(Call(env, base, request, retries).result, "error")
        <==> forall k :: 0 <= k <= retries ==> VerdictAt(env, base, request, k).Reject?
  {
    var verdict := (k: nat) => VerdictAt(env, base, request, k);
    forall k: nat
      ensures verdict(k).Accept? ==> !HasKey(verdict(k).result, "error")
      ensures verdict(k).Reject? ==> HasKey(verdict(k).error, "error")
    {
      JudgeSound(env.parse, env.backend(base + k, request));
    }
    RetryErrorIffAllRejected(verdict, retries);
    assert Call(env, base, request, retries) == Retry(verdict, retries, 0);
    assert forall k: nat :: verdict(k) == VerdictAt(env, base, request, k);
  }

  lemma {:induction false} RetryFirstAccepted(verdict: nat -> Verdict, retries: int, attempt: nat, k: nat)
    requires attempt <= k <= retries
    requires forall j :: attempt <= j < k ==> verdict(j).Reject?
    requires verdict(k).Accept?
    ensures Retry(verdict, retries, attempt) == Reply(verdict(k).result, k + 1)
    decreases k - attempt
  {
    if attempt < k {
      RetryFirstAccepted(verdict, retries, attempt + 1, k);
    }
  }

  /**
   * When backend calls `0 .. k-1` of the budget are rejected and call `k` returns a good reply,
   * the driver answers that reply's recovered dict after `k + 1` calls.
   */
  lemma CallFirstGood(env: Env, base: nat, request: Request, retries: int, k: nat)
    requires k <= retries
    requires forall j :: 0 <= j < k ==> VerdictAt(env, base, request, j).Reject?
    requires GoodReply(env.parse, env.backend(base + k, request))
    ensures Call(env, base, request, retries)
         == Reply(Recover(env.parse, env.backend(base + k, request).content), k + 1)
  {
    var verdict := (j: nat) => VerdictAt(env, base, request, j);
    JudgeSound(env.parse, env.backend(base + k, request));
    RetryFirstAccepted(verdict, retries, 0, k);
  }

  /** A backend that always raises exhausts the budget: `retries + 1` calls, and the last exception's text. */
  lemma AlwaysRaisingBackend(env: Env, base: nat, request: Request, retries: int)
    requires retries >= 0
    requires forall n :: env.backend(n, request).Raised?
    ensures Call(env, base, request, retries)
         == Reply(ErrorObject(ApiFailedPrefix + env.backend(base + retries, request).message), retries + 1)
  {
    var verdict := (k: nat) => VerdictAt(env, base, request, k);
    RetrySpec(verdict, retries);
    var r := Retry(verdict, retries, 0);
    assert verdict(r.calls - 1).Reject?;
  }

  /** When every accepted dict holds an expected key and every error dict an "error" key, so does the answer. */
  lemma RetrySound(verdict: nat -> Verdict, retries: int)
    requires retries >= 0
    requires forall k :: verdict(k).Accept? ==> HasExpectedKey(verdict(k).result)
    requires forall k :: verdict(k).Reject? ==> HasKey(verdict(k).error, "error")
    ensures var r := Retry(verdict, retries, 0);
      1 <= r.calls <= retries + 1 && (HasKey(r.result, "error") || HasExpectedKey(r.result))
  {
    RetrySpec(verdict, retries);
  }

  /**
   * One driver call with a non-negative budget makes 1 to `retries + 1` backend calls and answers
   * either an error dict or a dict holding one of the expected file keys.
   */
  lemma CallOutcome(env: Env, base: nat, request: Request, retries: int)
    requires retries >= 0
    ensures var r := Call(env, base, request, retries);
      && 1 <= r.calls <= retries + 1
      && (HasKey(r.result, "error") || HasExpectedKey(r.result))
  {
    var verdict := (k: nat) => VerdictAt(env, base, request, k);
    forall k: nat
      ensures verdict(k).Accept? ==> HasExpectedKey(verdict(k).result)
      ensures verdict(k).Reject? ==> HasKey(verdict(k).error, "error")
    {
      JudgeSound(env.parse, env.backend(base + k, request));
    }
    RetrySound(verdict, retries);
    assert Call(env, base, request, retries) == Retry(verdict, retries, 0);
  }

  // ---------------------------------------------------------------------------------------
  // The driver seen from its callers

  /** A driver's input-output behaviour: the answer to a request whose first backend call is number `base`. */
  type Ask = (nat, Request) -> Reply

  /**
   * `ask` answers every request as `call_azure_openai` does with `retries` retries. (The fact is
   * only drawn on where a call to the driver appears, which keeps callers' proofs small.)
   */
  ghost predicate Answers(env: Env, retries: int, ask: Ask) {
    forall base: nat, request: Request {:trigger Call(env, base, request, retries)} ::
      ask(base, request) == Call(env, base, request, retries)
  }

  lemma CallAnswers(env: Env, retries: int)
    ensures Answers(env, retries, (base: nat, request: Request) => Call(env, base, request, retries))
  {
  }

  /** Every answer takes 1 to `retries + 1` backend calls and is an error dict or holds an expected key. */
  ghost predicate Sound(ask: Ask, retries: int) {
    forall base: nat, request: Request ::
      && 1 <= ask(base, request).calls <= retries + 1
      && (HasKey(ask(base, request).result, "error") || HasExpectedKey(ask(base, request).result))
  }

  lemma AnswersSound(env: Env, retries: int, ask: Ask)
    requires retries >= 0 && Answers(env, retries, ask)
    ensures Sound(ask, retries)
  {
    forall base: nat, request: Request
      ensures 1 <= ask(base, request).calls <= retries + 1
      ensures HasKey(ask(base, request).result, "error") || HasExpectedKey(ask(base, request).result)
    {
      CallOutcome(env, base, request, retries);
    }
  }

  /** `call_azure_openai` itself meets `Sound` for any non-negative retry budget. */
  lemma CallSound(env: Env, retries: int)
    requires retries >= 0
    ensures Sound((base: nat, request: Request) => Call(env, base, request, retries), retries)
  {
    var ask := (base: nat, request: Request) => Call(env, base, request, retries);
    CallAnswers(env, retries);
    AnswersSound(env, retries, ask);
  }
}
