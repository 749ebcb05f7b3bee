# VB6Converter conversion pipeline in Dafny

VB6Converter turns Visual Basic 6 modules (`.bas`) and class modules (`.cls`) into C# by
sending them to an Azure OpenAI deployment. This project models the part of `VB6Converter` that
sits between the HTTP handler and the model client, and proves what it promises:

- **Segmenter** (`chunk_large_file`): the line-by-line state machine that cuts a large source
  into chunks under a size budget. "cls" mode tracks whether a method or a `Type` block is open
  and classifies each line by substring containment of five keyword classes; every other mode
  cuts greedily on size. The loops are methods proved against a step function `Run`.
- **Recoverer** (`extract_json_from_response`): the cascade that recovers a JSON object from a
  model reply. It strips fences, parses directly, un-escapes and takes the first brace-balanced
  span, takes the greedy `{…}` span, and otherwise reports an error. The brace-counting loop is a
  method proved against `BalancedSpan`, and `BalancedSpan` against a declarative description of
  the first balanced span. `json.loads` is a parameter of type `string -> Option<Object>`.
- **RequestDriver** (`call_azure_openai`): the bounded attempt loop. The backend is a parameter
  that gives the outcome of the n-th backend call (an exception's text, or the reply text,
  possibly empty). Every attempt is judged by recovery, the `"error"`-key check and the gate on
  the six expected keys.
- **Classifiers** (`extract_class_name`, `classify_cls_purpose`) and **Sanitizer**
  (`sanitize_code`, its four regular-expression substitutions written as left-to-right scanners).
- **Converter** (`convert_bas_file`, `convert_cls_file`, `combine_converted_chunks`,
  `combine_class_chunks`): a blank file is refused. A small file is one request. A large file
  goes through the sequential chunk loop, which threads the last successful chunk's
  `ContextSummary[:500]` forward, and then through one combining request.

Backend calls are numbered. Every driver operation takes the number of its first backend call
(`base`) and returns how many calls it used, so a whole conversion is a function of the backend.
The converter's methods carry a ghost `ask: (nat, Request) -> Reply` that stands for the driver.
Their requirement `Answers(env, Retries, ask)` says that `ask` answers every request as
`RequestDriver.Call` does, and `RequestDriver.CallAnswers` shows that `Call` itself meets it.
The converter is specified by the functions `ConvertModule` and `ConvertClass` over `ask`. Their
properties are proved for any `ask` that is `Sound`, and `RequestDriver.CallSound` shows that the
driver is.

Files: `wrappers.dfy` (Option), `text.dfy` (the Python string operations used), `json.dfy`
(the values `json.loads` returns), `segmenter.dfy`, `recoverer.dfy`, `request_driver.dfy`,
`classifiers.dfy`, `sanitizer.dfy`, `converter.dfy`.

## Model

| member | source | states |
|---|---|---|
| Text.Strip | main.py:404 | `str.strip()`: the result is the infix of the input that starts after its leading whitespace run and is followed only by whitespace; it neither starts nor ends with whitespace, and is empty exactly when the input is all whitespace |
| Text.StripUnchanged | main.py:290 | text that neither starts nor ends with whitespace is its own strip |
| Text.SplitOnJoin | main.py:244 | joining the pieces of `s.split(c)` with `c` gives `s` back |
| Text.SplitLines | main.py:151 | `splitlines()`: no line holds a line break, and only the empty text has no lines |
| Text.SplitLinesJoin | main.py:151 | the lines joined by "\n" give the text back, up to one final line break |
| Text.Find | main.py:286 | the index of the first occurrence of a pattern: it occurs there and at no earlier index |
| Text.Words | main.py:252 | `split()`: every word is non-empty and holds no whitespace, and there are no words exactly when the text is all whitespace |
| Text.WordsKeepText | main.py:252 | the words, concatenated in order, are exactly the text's non-whitespace characters in order |
| Text.WordsOfJoin | main.py:252 | splitting words joined by single spaces gives back the same words, in the same order |
| Text.Replace | main.py:306 | `str.replace`: never longer when the replacement is no longer than the pattern, and the identity when the pattern does not occur |
| Text.ReplaceLeftmost | main.py:306 | where the pattern occurs, the text before its first occurrence is kept, that occurrence becomes the replacement, and the rest after it is replaced in turn |
| Text.ReplaceKeepsPrefix | main.py:306 | characters before the first index where the pattern matches are copied unchanged |
| Text.Take | main.py:330 | `s[:n]`: a prefix of `s` of length exactly n when `s` is longer than n, and the whole of `s` otherwise |
| Json.Get | main.py:428 | `dict.get`: present exactly when the key is, and then it is the value of a member with that key |
| Json.ErrorObject | main.py:332 | `{"error": message}` has the "error" key, and the key holds the message |
| Segmenter.ChunkLargeFile | main.py:149-241 | the chunks are the line groups of `Segment`, each joined with "\n" |
| Segmenter.ClsLoop | main.py:166-225 | the "cls" loop ends in the state `Run` gives after all lines, and its emitted chunks are the groups joined |
| Segmenter.BasLoop | main.py:228-235 | the "bas" loop ends in the state `Run` gives after all lines, and its emitted chunks are the groups joined |
| Segmenter.RunConsistent | main.py:151-238 | in both modes, after every line: emitted chunks plus the current chunk are exactly the lines read, no emitted chunk is empty, and `current_size` is the total length of `current_chunk` |
| Segmenter.SegmentCoversLines | main.py:151-241 | the chunks' line lists concatenated in order are `splitlines()`; no chunk is empty; there are no chunks exactly when there are no lines |
| Segmenter.ChunksRejoin | main.py:149-241 | the returned chunks joined with "\n" give the file back, without a final line break |
| Segmenter.JoinEachRejoins | main.py:171 | joining the joined chunks is joining all their lines, when no chunk is empty |
| Segmenter.BasChunksWithinBudget | main.py:228-235 | in "bas" mode every chunk is a single line or has total length at most `max_chunk_size` |
| Segmenter.BasCutPolicy | main.py:229-235 | in "bas" mode a chunk is emitted before a line exactly when that line would go over the budget of a non-empty chunk |
| Segmenter.ClsBoundaryPolicy | main.py:169-225 | in "cls" mode declare and plain lines never cut inside a method or `Type` block; a struct start never cuts inside a method; a method start never cuts inside a `Type` block; an end marker always joins the current chunk, which is emitted right after it exactly when its size exceeds 0.8 × `max_chunk_size`; no other chunk is emitted without the line going over the budget |
| Classifiers.QuoteFreeEnd | main.py:247 | the end of the run of non-quote characters from an index |
| Classifiers.NameAt | main.py:247 | a group found at a position is a match of `Attribute VB_Name = "([^"]+)"` there: non-empty, quote-free, and written out with the marker and both quotes |
| Classifiers.NameAtComplete | main.py:247 | wherever the pattern matches with some group, the group found at that position is that group |
| Classifiers.SearchVbName | main.py:247-249 | `re.search` for that pattern: a found group is non-empty, quote-free, and quoted after the marker in the line |
| Classifiers.SearchVbNameLeftmost | main.py:247-249 | the search returns the group of the leftmost match at or after the starting position |
| Classifiers.SearchVbNameNone | main.py:247-249 | the search finds nothing exactly when the pattern matches nowhere at or after the starting position |
| Classifiers.HeaderMatch | main.py:246-249 | a name from the first pass comes from a line whose stripped form starts with `Attribute VB_Name =`, and is non-empty and quoted after `Attribute VB_Name = ` in the line |
| Classifiers.HeaderMatchNone | main.py:246-249 | the first pass takes nothing from a line exactly when its stripped form does not start with the marker or the pattern matches nowhere in it |
| Classifiers.HeaderMatchLeftmost | main.py:246-249 | on a marked line, the first pass takes the group of the leftmost match |
| Classifiers.FirstClassIndex | main.py:253-254 | the first index from a position where the word is "Class" and another word follows, or the end when there is none |
| Classifiers.WordAfterClass | main.py:253-255 | nothing exactly when no "Class" word has a successor; otherwise the word right after the first "Class" word that has one |
| Classifiers.DeclarationMatch | main.py:251-255 | the second pass takes nothing from a line exactly when it does not mention "Class" and "Public" or "Private", or no "Class" word in it has a successor; otherwise it takes the non-empty word after the first such "Class" word |
| Classifiers.ExtractClassName | main.py:243-256 | the method returns `ClassNameOf`: the first header match among the first 20 lines, else the first declaration match among the first 50, else "UnknownClass" |
| Classifiers.ScanHeader | main.py:245-249 | the first loop returns the first header line's group |
| Classifiers.ScanDeclarations | main.py:250-255 | the second loop, with its inner word loop, returns the first declaration line's word after "Class" |
| Classifiers.ClassNameProvenance | main.py:243-256 | the name is never empty, and exactly one of three holds: it is what the header pass takes from the first of the first 20 lines it takes anything from; or the header pass takes from none of them and it is what the declaration pass takes from the first of the first 50 lines it takes anything from; or neither pass takes from any line and it is "UnknownClass" |
| Classifiers.FirstMatchWitness | main.py:245-255 | the first pass that takes something takes it from some line, and from no line before it |
| Classifiers.FirstMatchNone | main.py:245-255 | a pass over lines finds nothing exactly when it takes nothing from any line |
| Classifiers.FirstMatchWindow | main.py:245-255 | a pass over the first lines finds nothing exactly when it takes from none of them, and otherwise returns what it takes from the first line it takes anything from |
| Classifiers.VbNameHeaderWins | main.py:244-249 | a file whose first line is `Attribute VB_Name = "<name>"` is named `<name>`, whatever follows |
| Classifiers.FirstLineHeader | main.py:245-249 | a header match on the first line decides the name |
| Classifiers.SearchHeaderLine | main.py:247 | the pattern captures `<name>` from the line `Attribute VB_Name = "<name>"` |
| Classifiers.Kinds | main.py:265-272 | one counted kind per line |
| Classifiers.Count | main.py:261-272 | the method and property counters together never exceed the number of lines |
| Classifiers.ClassifyClsPurpose | main.py:258-281 | the purpose is "service" or "model", and it is "service" exactly when a declare line was seen or more than two method lines were |
| Classifiers.TallyLines | main.py:260-272 | the counting loop ends with the counters `Count` gives for the lines' kinds |
| Classifiers.CountIsKindTally | main.py:265-272 | each line counts toward at most one category: the counters are the numbers of method and property lines, and `has_declare` holds exactly when some line is a declare line |
| Classifiers.PropertyLinesNeverDecide | main.py:275-281 | one more property line never changes the verdict |
| Classifiers.ThreeMethodsMakeAService | main.py:275-276 | three method lines make the class a service, whatever else it holds |
| Sanitizer.StripLineComments | main.py:286 | removing line comments never makes the text longer |
| Sanitizer.StripBlockComments | main.py:287 | removing block comments never makes the text longer |
| Sanitizer.LastBreakBefore | main.py:288 | the last line break before an index, with none after it up to the index |
| Sanitizer.CollapseBlankLines | main.py:288 | collapsing blank lines never makes the text longer |
| Sanitizer.LetterRunEnd | main.py:289 | the end of the run of ASCII letters from an index (the fence's language tag) |
| Sanitizer.RemoveFences | main.py:289 | removing fences never makes the text longer |
| Sanitizer.Sanitize | main.py:283-290 | the result is no longer than the input, and neither starts nor ends with whitespace |
| Sanitizer.LineCommentFree | main.py:286 | text without "//" passes the first substitution unchanged |
| Sanitizer.BlockCommentFree | main.py:287 | text without "/*" passes the second substitution unchanged |
| Sanitizer.BlankLineFree | main.py:288 | text without blank lines passes the third substitution unchanged |
| Sanitizer.FenceFree | main.py:289 | text without fences passes the fourth substitution unchanged |
| Sanitizer.LineCommentsKeepPrefix | main.py:286 | the characters before the first "//" are copied unchanged and the substitution goes on from there |
| Sanitizer.LineCommentAtStart | main.py:286 | a "//" comment is removed up to its first line break, the break stays, and the scan resumes after it |
| Sanitizer.LineCommentLeftmost | main.py:286 | `a + "//" + c + "\n" + b` becomes `a + "\n"` followed by the substitution of `b`, when that "//" is the leftmost and `c` holds no line break |
| Sanitizer.LineCommentUnterminated | main.py:286 | a "//" with no line break after it is not matched: text holding no line break is returned unchanged |
| Sanitizer.LineCommentAtEnd | main.py:286 | a leftmost "//" comment on the last line, with no line break after it, is kept: `a + "//" + c` is unchanged when `c` holds no line break |
| Sanitizer.BlockCommentsKeepPrefix | main.py:287 | the characters before the first "/*" are copied unchanged |
| Sanitizer.BlockCommentAtStart | main.py:287 | a block comment is removed through the first "*/" after its opener, across lines |
| Sanitizer.BlockCommentLeftmost | main.py:287 | `a + "/*" + c + "*/" + b` becomes `a` followed by the substitution of `b`, when that opener is the leftmost and `c` holds no "*/" |
| Sanitizer.BlockCommentUnclosed | main.py:287 | text holding no "*/" is returned unchanged, so a "/*" that is never closed is kept |
| Sanitizer.BlankLineHereIff | main.py:288 | at a line break the pattern matches exactly when another line break follows after nothing but whitespace |
| Sanitizer.BlankLinesKeepPrefix | main.py:288 | the characters before a line break are copied unchanged when they and that break hold no blank line |
| Sanitizer.BlankLinesAtStart | main.py:288 | a break, whitespace and a break, followed by a line whose indentation holds no break, become one break, and the scan resumes at that line |
| Sanitizer.BlankRunLastBreak | main.py:288 | after a break, whitespace and a break, the greedy whitespace run backs off to that second break when the next line's indentation holds no break |
| Sanitizer.BlankLinesLeftmost | main.py:288 | `a + "\n" + w + "\n" + b` with `w` whitespace becomes `a + "\n"` followed by the substitution of `b`, when `a` and the first break hold no blank line and `b`'s indentation holds no break |
| Sanitizer.FencesKeepPrefix | main.py:289 | the characters before the first fence are copied unchanged |
| Sanitizer.FenceAtStart | main.py:289 | a fence goes with its whole ASCII-letter tag and with one line break if one follows |
| Sanitizer.FenceLineAtStart | main.py:289 | a fence line (fence, letter tag, line break) is removed entirely |
| Sanitizer.FenceLeftmost | main.py:289 | `a`, then a fence with an all-letter tag and a line break, then `b`, becomes `a` followed by the substitution of `b`, when that fence is the leftmost |
| Sanitizer.SanitizeSnippet | main.py:283-290 | a fenced one-line snippet ending in a "//" comment is sanitized to the bare line |
| Sanitizer.SanitizeExample | main.py:283-290 | a fence tagged "cs", the line "x = 1; // one" and a closing fence, on three lines, are sanitized to "x = 1;" |
| Text.StripTrailingSpace | main.py:290 | `strip()` removes whitespace that follows text starting and ending with non-whitespace |
| Sanitizer.CleanCodeUnchanged | main.py:283-290 | code with no comment openers, blank lines, fences or surrounding whitespace is returned unchanged |
| Recoverer.StripOpeningFences | main.py:296 | removing opening fences never makes the text longer |
| Recoverer.StripClosingFences | main.py:297 | removing closing fences never makes the text longer |
| Recoverer.OpeningFencesUpTo | main.py:296 | with no opening fence starting in a stretch of the text, that stretch is copied unchanged and the scan goes on after it |
| Recoverer.OpeningFenceMidLineKept | main.py:296 | a fence tagged json that does not start a line is kept: `a`, the tagged fence, then `b` is unchanged when `a` is non-empty, does not end in a line break, and neither `a` nor `b` holds a backquote |
| Recoverer.OpeningFenceAfterBreakStripped | main.py:296 | a fence tagged json that starts a line after a break is removed, with the whitespace after it, and the rest is kept, for text holding no other backquote |
| Recoverer.OpeningTailKept | main.py:296 | past an index, text holding no backquote has no opening fence removed |
| Recoverer.ClosingFenceMidLineKept | main.py:297 | a fence not at a line end is kept: `a`, the fence, then `b` is unchanged when `b` is non-empty, does not start with a line break, and neither `a` nor `b` holds a backquote |
| Recoverer.ClosingFenceAtLineEndStripped | main.py:297 | a fence alone on a line, ending it, is removed with the line break before it, for text holding no other backquote |
| Recoverer.ScanFrom | main.py:309-318 | a span the scan reaches is non-empty and within the text |
| Recoverer.BalancedSpanSpec | main.py:307-318 | the brace scan's span opens with '{' at count 0, ends with the first '}' that brings the count back to 0 after such a '{', and the count stays positive in between; when it finds none, no such '}' exists |
| Recoverer.ScanFromSpec | main.py:309-318 | the scan from any state that meets the loop invariant finds the first balanced span, or proves that there is none |
| Recoverer.FindBalancedSpan | main.py:305-318 | the loop over `fixed`, updating `brace_count` and `start_idx`, returns `BalancedSpan` |
| Recoverer.FirstIndexOf | main.py:322-323 | the first occurrence of a character, or proof that there is none |
| Recoverer.LastIndexOf | main.py:322-323 | the last occurrence of a character, or proof that there is none |
| Recoverer.GreedySpan | main.py:322-323 | the match of `\{[\s\S]*\}` runs from the first '{' to the last '}'; with no match, no '}' follows any '{' |
| Recoverer.ExtractJsonFromResponse | main.py:292-332 | the method returns `Recover`, the cascade |
| Recoverer.RecoverProvenance | main.py:293-332 | an empty reply gives "Empty response from API"; a cleaned text that parses is returned ahead of every later stage; otherwise the first balanced span of the un-escaped text if it parses; otherwise the greedy span of the cleaned text if it parses; and when all of these fail, the "Invalid JSON response" error with its preview; a span stage's answer is always what the parser made of a `{…}` window |
| Recoverer.BareIsClean | main.py:296-298 | a reply without fences or surrounding whitespace is its own `cleaned` |
| Recoverer.JsonFencedSameAsBare | main.py:296-301 | a reply wrapped in a ```json fence is recovered exactly as the same text sent bare |
| Recoverer.PlainFencedSameAsBare | main.py:296-301 | a reply wrapped in a bare ``` fence is recovered exactly as the same text sent bare |
| Recoverer.UnescapeNoBackslash | main.py:306 | text without a backslash holds neither escape pair, so un-escaping changes nothing |
| Recoverer.BalancedPrefixSpan | main.py:307-318 | the brace scan over a balanced object followed by anything stops at the end of that object |
| Recoverer.TrailingProseRecovered | main.py:305-318 | a balanced object followed by prose is recovered as that object, for a reply non-empty, holding no backquote anywhere, with no leading or trailing whitespace, and with no `\"` or `\\` pair |
| Recoverer.SecondObjectNeverTried | main.py:305-332 | for a reply non-empty, holding no backquote anywhere, with no leading or trailing whitespace, and with no `\"` or `\\` pair: when the first balanced object does not parse, no later balanced span is tried; if the greedy span of two objects fails too, the answer is the error, although the second object alone might parse |
| RequestDriver.JudgeSound | main.py:358-390 | an attempt is accepted exactly when the reply is non-empty and its recovered dict has no "error" key and holds an expected key, and then the answer is that dict; otherwise it is rejected with the exception's text after "API call failed: ", with "Empty response from Azure OpenAI API", with the recovered error dict itself, or with "Missing expected keys. Found: " and the keys found |
| RequestDriver.RetryFirstAccepted | main.py:337-390 | when attempts before `k` are rejected and attempt `k` is accepted within the budget, the loop answers attempt `k`'s dict after `k + 1` attempts |
| RequestDriver.CallFirstGood | main.py:334-390 | when backend calls before `k` are rejected and call `k` returns a good reply within the budget, the driver answers that reply's recovered dict after `k + 1` calls |
| RequestDriver.CallAzureOpenAI | main.py:334-399 | the method's answer and call count are `Call`'s, the attempt loop over the backend's outcomes |
| RequestDriver.RetryFromSpec | main.py:337-398 | from any attempt within the budget: the loop stops within the budget, every attempt but its last was rejected, and the last attempt's verdict decides |
| RequestDriver.RetrySpec | main.py:337-399 | with `retries < 0` no call is made and the answer is "Exhausted all retry attempts"; otherwise between 1 and `retries + 1` calls are made, all but the last rejected, and the answer is the first accepted dict or the last attempt's error |
| RequestDriver.RetryErrorIffAllRejected | main.py:337-399 | the loop ends in an error dict exactly when all `retries + 1` attempts were rejected |
| RequestDriver.CallErrorIffAllRejected | main.py:334-399 | the driver's answer is an error dict exactly when all `retries + 1` backend calls were rejected |
| RequestDriver.AlwaysRaisingBackend | main.py:392-397 | a backend that always raises uses the whole budget, and the answer carries the last exception's text |
| RequestDriver.RetrySound | main.py:337-399 | the answer takes 1 to `retries + 1` attempts and is an error dict or holds an expected key |
| RequestDriver.CallOutcome | main.py:334-399 | one driver call makes 1 to `retries + 1` backend calls and answers an error dict or a dict holding an expected key |
| RequestDriver.AnswersSound | main.py:334-399 | anything that answers as the driver does is `Sound` |
| RequestDriver.CallSound | main.py:334-399 | the driver itself is `Sound` for any non-negative budget |
| RequestDriver.CallAnswers | main.py:334-399 | the driver answers as itself, so the converter's requirement on `ask` can be met |
| Converter.ContextOf | main.py:428 | `result.get("ContextSummary", "")[:500]` is at most 500 characters |
| Converter.Successes | main.py:423-427 | `parts` is no longer than the answers, and holds only answers without an "error" key |
| Converter.ContextAfter | main.py:423-428 | `prev_ctx` is at most 500 characters |
| Converter.ChunkLoop | main.py:412-428 | after n turns there are n answers and n prompts |
| Converter.SendPrompt | main.py:421 | one driver call answers as `ask` |
| Converter.ConvertChunks | main.py:410-428 | the chunk loop returns the successful answers of `ChunkLoop` in order, and the backend calls it used |
| Converter.CombineConvertedChunks | main.py:441-465 | one driver call, with the module combining prompt and 16000 tokens |
| Converter.CombineClassChunks | main.py:467-492 | one driver call, with the class combining prompt (carrying the class name) and 16000 tokens |
| Converter.Combine | main.py:433 | the combining call for the chunks' source: the module or the class prompt |
| Converter.Finish | main.py:430-433 | no parts gives "All chunks failed for <file>" with no further call; otherwise exactly one combining call follows |
| Converter.ConvertInChunks | main.py:407-433 | the chunked branch answers as `Chunked`: the chunk loop, then `Finish` |
| Converter.ConvertBasFile | main.py:401-439 | the method answers as `ConvertModule`: blank content is refused, more than 15000 characters are converted in chunks of budget 5000, anything else is one request with 12000 tokens |
| Converter.ConvertClsFile | main.py:494-539 | the method answers as `ConvertClass`: blank content is refused, more than 12000 characters are converted in chunks of budget 4000 under the extracted class name, anything else is one request |
| Converter.ContextUpdate | main.py:423-428 | a failed chunk leaves `prev_ctx` unchanged; a success replaces it with the first 500 characters of its summary, or with "" when it has none |
| Converter.ContextIsLastSuccess | main.py:410-428 | `prev_ctx` is the summary of the last successful answer, or "" while none has succeeded |
| Converter.SuccessesKeepEveryAnswer | main.py:423-427 | every answer without an "error" key is kept in `parts`, after the ones kept before it |
| Converter.NoSuccessIffAllFailed | main.py:423-431 | `parts` is empty exactly when every chunk's answer has an "error" key |
| Converter.ChunkTurns | main.py:412-421 | turn i sends chunk i as number i + 1 of the total, with the context left by the answers before it, on the backend call after those the earlier turns used; its answer is the driver's answer to that prompt |
| Converter.TurnKept | main.py:412-421 | a recorded turn stays recorded as the loop goes on |
| Converter.ChunkLoopBounds | main.py:412-428 | n turns use between n and 4n backend calls, and every answer is an error dict or holds an expected key |
| Converter.ChunkedOutcome | main.py:407-433 | the chunked branch fails with "All chunks failed for <file>" exactly when every chunk failed; it uses between the number of chunks and 4 × (chunks + 1) calls; its answer is an error dict or holds an expected key |
| Converter.ChunksOfNonEmpty | main.py:409 | a non-empty file has at least one chunk |
| Converter.ConvertModuleOutcome | main.py:401-439 | blank content is refused with "Empty content in <file>" and exactly then no backend call is made; a small file makes at most 4 calls; the answer is an error dict or holds an expected key |
| Converter.ConvertClassOutcome | main.py:494-539 | the same for class files, with the class thresholds |

## Left out

- The FastAPI application, its handlers, zip and file handling, logging, environment loading and the construction of the client: these are I/O and process setup.
- The model request itself and the debug file written for every reply are not modelled. The backend is a parameter that gives each backend call's outcome: an exception's text or the reply text (an absent reply is the empty text). An exception from the debug write would take the same `except` branch as a raising backend.
- `json.loads` is a parameter (`Recoverer.Parser`), any partial function from text to a string-keyed object. A reply that parses to a JSON array or scalar at the top level is not modelled.
- The prompt templates' wording and the JSON rendering of the chunks in the combining prompts are left out: a `RequestDriver.Prompt` records only the values passed into the template.
- Converter.ConvertBasFile, Converter.ConvertClsFile: specified against a ghost `ask` that the requirement `Answers` ties to `RequestDriver.Call`, not by unfolding the driver inline; `RequestDriver.CallAnswers` shows the requirement is met by the driver.
- Converter.ConvertClsFile: the purpose `classify_cls_purpose` returns is computed and dropped, as in the source; it affects nothing.
- Converter.ContextOf: a `ContextSummary` that is not a string counts as ""; in the source it would be sliced as a list, or raise.
- Text.IsSpace: whitespace is the six ASCII whitespace characters. Python's `strip`, `split` and `\s` also accept Unicode whitespace.
- Text.SplitLines: only "\n" breaks lines. Python's `splitlines` also breaks on "\r", "\r\n" and other separators.
- Json.Get: an `Object` may list a key twice, and `Get` returns the first entry. `json.loads` keeps the last value for a repeated key and never returns one twice. The parser parameter is not required to produce unique keys.
- Json.KeysRepr: key names are quoted with single quotes as they are written; Python's escaping of quotes and backslashes inside a key's repr is not modelled.
- Sanitizer.StripLineComments, Sanitizer.StripBlockComments, Sanitizer.CollapseBlankLines, Sanitizer.RemoveFences: their own contracts state only that the text does not grow. What each substitution does is stated by the lemmas beside it: the prefix before the leftmost match is kept, the match is replaced, and the scan resumes after it (`LineCommentLeftmost`, `BlockCommentLeftmost`, `BlankLinesLeftmost`, `FenceLeftmost`). An opener with no closer is not a match and is kept: a "//" with no line break after it (`LineCommentUnterminated`, `LineCommentAtEnd`) and a "/*" with no "*/" after it (`BlockCommentUnclosed`).
- Recoverer.StripOpeningFences, Recoverer.StripClosingFences: their own contracts state only that the text does not grow. The line anchoring of the two patterns is stated by lemmas, for text holding no other backquote: a fence that does not start or end a line is kept (`OpeningFenceMidLineKept`, `ClosingFenceMidLineKept`), and one that does is removed (`OpeningFenceAfterBreakStripped`, `ClosingFenceAtLineEndStripped`).
- Sanitizer.BlankLinesLeftmost: stated for a following line whose indentation holds no line break. Otherwise the greedy `\s*` runs on to the last break of the whitespace, which `BlankLinesAtStart` does not spell out.
- Sanitizer.Sanitize: its own contract states the length bound and the stripped ends. The four substitutions composed are stated for a fenced one-line snippet (`SanitizeSnippet`), not in closed form for arbitrary text.
- Sanitizer.Sanitize: the input is a string by type, so the non-string case of `sanitize_code` has no counterpart.
- Recoverer.TrailingProseRecovered: stated for replies that are non-empty, hold no backquote anywhere, have no leading or trailing whitespace, and hold no `\"` or `\\` pair. A backquote or surrounding whitespace lets the fence-removal and stripping steps rewrite the reply, and a `\"` or `\\` pair lets the un-escaping step rewrite it, before the brace scan; for such replies the lemma does not say what is recovered.
- Recoverer.SecondObjectNeverTried: stated for the same replies as `TrailingProseRecovered` (non-empty, no backquote anywhere, no leading or trailing whitespace, no `\"` or `\\` pair), for the same reason.
- Strings are sequences of characters, so `cleaned[:200]` and `[:500]` count characters as Python does for code points.
