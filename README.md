# LLM relevance judging for MS MARCO qrels — a Dafny model

The repository behind this model judges the relevance labels ("qrels") of
the MS MARCO passage and document collections with a large language model,
stores every judgement in Postgres next to the official label, and reports
how often the model agrees with it. The Dafny project models its core:

- **Response parsing** (`response_parsing.dfy`, `greedy_parsing.dfy`): the
  balanced-brace JSON scanner, the case-insensitive `score`/`reason` reader
  and its textual `score: N` fallback, and the older greedy and strict parsers.
- **Calling the judge** (`retry.dfy`, `hf_client.dfy`, `config.dfy`):
  `call_with_retry`, the inline Ollama retry loops, the model pull loop, the
  Hugging Face endpoint client, the settings loader and the provider dispatch.
- **Planning and bookkeeping** (`window.dfy`, `registry.dfy`, `store.dfy`):
  the qrel window, run-key generation and the five-attempt run registration,
  and the audit tables (`runs`, `predictions`) with their commit/rollback.
- **Judging loops** (`pipeline.dfy`, `script_runs.dfy`, `notes.dfy`): the
  per-item loop of `run_once` and of the two scripts, their tallies,
  agreement and periodic commits, `_hms`/`_truncate`, and the run-notes
  payload with `drop_nones`.
- **Loading and exporting the corpus** (`etl_common.dfy`,
  `passage_loader.dfy`, `doc_loaders.dfy`): the qrels/queries parsers,
  the balanced sampler, batching, de-duplication, `_nt`, the passage v2
  sampler and the document v2 loader and exporters.
- **Manual labelling** (`labelling.dfy`): the grouped random order and the
  interactive `i`/`history` state machine.

`common.dfy` and `json.dfy` hold the shared vocabulary: `Option`/`Result`,
the Python exceptions, the string operations the code relies on
(`strip`, `lower`, `isdigit`, slicing, `str(int)`) and decoded JSON values
with Python's truthiness and `int()` coercion.

What the model cannot compute is a parameter: `json.loads` is a decoder
`string -> Option<Json>`, the LLM and HTTP calls are functions from the
attempt number to an outcome, random draws are functions from the step
number to a natural number, clocks are elapsed-millisecond inputs, and
`time.sleep` is a counter of pauses (or of slept milliseconds). Postgres
tables are maps or sequences of rows; a commit is an entry in a commit log
or a copy of the tables that a rollback restores.

## Model

| member | source | states |
|---|---|---|
| Common.Strip | llm_judging/bt/util/parsing.py:52 | `str.strip()` returns a text no longer than its input, neither starting nor ending with whitespace |
| Common.StripSpec | llm_judging/bt/util/parsing.py:52 | `str.strip()` returns the infix left after cutting only whitespace from both ends |
| Common.StripIdempotent | llm_judging/bt/util/parsing.py:53 | stripping a stripped text changes nothing |
| Common.Lower | llm_judging/run_personal_relevance_score.py:95 | `str.lower()` keeps the length and lowers each letter in place |
| Common.PyPrefix | llm_judging/bt/pipeline.py:34-37 | `s[:n]` keeps the first n elements, or all of them; a negative n drops that many from the end |
| Common.Pad2 | llm_judging/bt/pipeline.py:31 | `f"{n:02d}"` is at least two characters, and exactly two below 100 |
| Common.Pad2RoundTrip | llm_judging/bt/pipeline.py:28-31 | a padded numeral reads back as its number |
| Common.NatToDecimal | load_ms_marco_into_postgres/load_ms_marco_passage_to_postgres.py:182 | `str(n)` of a natural number is all digits |
| Common.FirstIndex | llm_judging/bt/parsing.py:14 | the first position holding a character, with none before it, or none when it is absent |
| Common.LastIndex | llm_judging/bt/parsing.py:14 | the last position holding a character, with none after it, or none when it is absent |
| Common.MapAll | llm_judging/bt/config.py:66-67 | a list comprehension that may raise: one result per element in order, or the exception of the first element that raises |
| PyJson.RemoveKey | llm_judging/bt/llm.py:54 | `pop("response", None)` leaves every other entry and no entry under that key |
| PyJson.WithoutUnderscores | llm_judging/bt/util/parsing.py:64-69 | dropping `int()`'s digit-group underscores leaves only digits, and leaves plain digits unchanged |
| PyJson.IntTextParses | llm_judging/bt/util/parsing.py:64-69 | `int(str(i)) == i` for every integer |
| PyJson.IntTextStripped | llm_judging/bt/util/parsing.py:64-69 | `str(i)` has no surrounding whitespace |
| PyJson.Get | llm_judging/llm.py:74-75 | `d[key]` finds a value exactly when the key is present, and the value is the one stored under it |
| PyJson.CoerceInt | llm_judging/bt/util/parsing.py:64-69 | Python's `int(v)` on a decoded value: booleans give 0/1, floats truncate toward zero, strings are stripped and read as a signed literal; None, NaN, infinities, lists and objects raise |
| PyJson.ScalarText | llm_judging/bt/util/parsing.py:32 | `str(v)` exists exactly for strings, numbers and booleans, and a string is its own text |
| PyJson.TruncateTowardZero | llm_judging/bt/util/parsing.py:66 | `int()` of a float is the integer between it and zero at distance below 1 |
| PyJson.ParseIntLiteral | llm_judging/bt/util/parsing.py:66 | `int(str)` succeeds exactly on an optional sign followed by digits with single underscores between them |
| PyJson.IntTextRoundTrip | llm_judging/bt/util/parsing.py:66 | `int(str(i)) == i` for every integer |
| PyJson.DigitsParse | llm_judging/bt/util/parsing.py:66 | a plain digit run, with or without a leading minus, reads back as its value |
| ResponseParsing.StripCodeFences | llm_judging/bt/util/parsing.py:47-53 | the text changes exactly when its stripped form opens and closes with three backticks, and then it loses at least the two fences |
| ResponseParsing.TaggedFenceRemoved | llm_judging/bt/util/parsing.py:47-53 | a fenced answer tagged `json` in any letter case becomes its stripped body |
| ResponseParsing.UntaggedFenceRemoved | llm_judging/bt/util/parsing.py:47-53 | an untagged fenced answer becomes its stripped body, unless the body itself begins with `json` |
| ResponseParsing.NoFenceUnchanged | llm_judging/bt/util/parsing.py:51-53 | text whose stripped form does not start with a fence is returned unchanged |
| ResponseParsing.StateAt | llm_judging/bt/util/parsing.py:77-102 | while a block is open, its recorded start is an earlier `{` |
| ResponseParsing.OpenBlockBalanced | llm_judging/bt/util/parsing.py:83-102 | an open block starts at depth 0 outside a string and the depth stays positive up to the current position, so blocks found are balanced and top-level |
| ResponseParsing.Candidate | llm_judging/bt/util/parsing.py:103-104 | a candidate block starts with `{` and ends with `}` |
| ResponseParsing.FirstBlockFrom | llm_judging/bt/util/parsing.py:72-112 | a block found decodes and is brace-delimited |
| ResponseParsing.FirstBlockIsLeftmost | llm_judging/bt/util/parsing.py:100-112 | the block returned is the one closed leftmost among those that decode; every block closed earlier fails to decode; nothing is returned exactly when no block decodes |
| ResponseParsing.FirstBlockFound | llm_judging/bt/util/parsing.py:100-111 | a block found is closed at some position and every earlier closed block fails to decode |
| ResponseParsing.FirstBlockNone | llm_judging/bt/util/parsing.py:108-112 | nothing is found exactly when no closed block decodes |
| ResponseParsing.SkipPosition | llm_judging/bt/util/parsing.py:82-111 | passing a character that does not close an accepted block keeps the scan's answer and advances its state by one step |
| ResponseParsing.FindFirstJsonObject | llm_judging/bt/util/parsing.py:72-112 | the single-pass scan over `depth`, `in_str`, `esc` and `start` returns the leftmost closed top-level block that decodes, or None |
| ResponseParsing.NoClosingBraceNoBlock | llm_judging/bt/util/parsing.py:100-112 | a text without `}` yields no block whatever the decoder accepts |
| ResponseParsing.ExtractJsonBlock | llm_judging/bt/util/parsing.py:6-12 | the block returned decodes and is brace-delimited |
| ResponseParsing.GetCiKey | llm_judging/bt/util/parsing.py:56-61 | a value is found exactly when some key equals the name ignoring case, and it is the value of the first such key |
| ResponseParsing.NormalizeScore | llm_judging/bt/util/parsing.py:64-69 | a score comes back exactly when `int(value)` succeeds and lies in 0..3, and it is that integer |
| ResponseParsing.JsonScoreAndReason | llm_judging/bt/util/parsing.py:21-35 | the JSON path gives a result exactly when the first decodable block is an object whose case-insensitive `score` normalises to 0..3; the reason is `str()` of a string, number or boolean `reason`, else none |
| ResponseParsing.NonScalarReasonDropped | llm_judging/bt/util/parsing.py:31-32 | a null, list or object reason is dropped |
| ResponseParsing.SkipSpaces | llm_judging/bt/util/parsing.py:48 | the `\s*` of the score pattern: skips exactly the whitespace run |
| ResponseParsing.ScoreKvAt | llm_judging/bt/util/parsing.py:48 | a match of the score pattern yields a digit in 0..3 |
| ResponseParsing.ScoreKvSearch | llm_judging/bt/util/parsing.py:38-40 | the fallback's score is in 0..3 |
| ResponseParsing.ScoreKvSearchSpec | llm_judging/bt/util/parsing.py:38-40 | the search returns the match starting leftmost, and nothing when no position starts a match |
| ResponseParsing.ScoreKvRecognised | llm_judging/bt/util/parsing.py:48 | `score: d` in any letter case, between non-word characters, is matched with digit d |
| ResponseParsing.ParseScoreAndReason | llm_judging/bt/util/parsing.py:15-42 | any score is in 0..3; a reason comes only from the JSON path; a usable JSON answer decides the result; otherwise the score is that of the leftmost textual match, and there is none exactly when the pattern occurs nowhere |
| ResponseParsing.UnusableJsonFallsBack | llm_judging/bt/util/parsing.py:26-42 | an object whose score is missing or out of range falls through to the textual fallback, which finds nothing in a text without the pattern |
| GreedyParsing.GreedySpan | llm_judging/bt/parsing.py:9-22 | the span runs from the first `{` to the last `}`, and there is none exactly when no `}` follows the first `{` |
| GreedyParsing.ExtractJsonBlockGreedy | llm_judging/llm.py:37-51 | the greedy span is returned exactly when it decodes |
| GreedyParsing.ReasonText | llm_judging/llm.py:75-77 | a reason is absent exactly when it is None, and a string reason is kept as is |
| GreedyParsing.ScoreFromObject | llm_judging/llm.py:73-82 | a score comes back exactly when `int(obj["score"])` succeeds in 0..3 and it is that value; once the score coerces, the reason is `str()` of a non-null `reason`, kept even when the score is out of range; otherwise (None, None) |
| GreedyParsing.OutOfRangeKeepsReason | llm_judging/llm.py:76-82 | an out-of-range score is dropped and its reason kept |
| GreedyParsing.OllamaRaw | llm_judging/llm.py:63-66 | the raw record has the two keys `ollama` and `response_text`, and the metadata has lost `response` |
| GreedyParsing.LegacySingleCall | llm_judging/llm.py:54-82 | raw record and elapsed time as produced; no greedy block gives (None, None); otherwise the result is the shared tail applied to the decoded greedy span |
| GreedyParsing.StrictSingleCall | scripts/llm_judging/llm.py:34-59 | raw record and elapsed time as produced; the result is the shared tail applied to the whole decoded answer, and (None, None) when it does not decode |
| GreedyParsing.StrictScore | scripts/llm_judging/passage_v2/llm.py:24-31 | the score of a strictly decoded answer is in 0..3 |
| GreedyParsing.StrictScoreAgrees | scripts/llm_judging/passage_v2/llm.py:24-31 | the score-only judge gives the same score as the strict `_single_call` |
| GreedyParsing.GreedySpanCoversBoth | llm_judging/bt/parsing.py:9-22 | with two objects in one answer the greedy span covers both and everything between them, and nothing is extracted when that whole span does not decode |
| Retry.Limit | llm_judging/bt/call.py:19-53 | at least one call is made: `max(1, attempts)` when retrying is on, one otherwise |
| Retry.RawOrEmpty | llm_judging/bt/call.py:59 | `raw or {}`: a truthy raw value is kept, a falsy one becomes `{}` |
| Retry.CallWithRetry | llm_judging/bt/call.py:9-59 | between 1 and `max(1, attempts)` calls (one when disabled), every earlier one a miss; the pauses sum to (calls − 1) × max(0, backoff); an exception escapes as ProviderError; the first prediction returns with the summed milliseconds; a non-dict raw without prediction raises AttributeError; when all miss, the last reason and `raw or {}` |
| Retry.JudgeWithOllama | llm_judging/llm.py:85-118 | exceptions count as misses recorded as `{"error": repr(e)}`; one pause between consecutive attempts; the first prediction returns with the summed milliseconds; all misses give the last reason and raw; a ValueError arises exactly when the backoff is negative and a second attempt is due |
| ModelPull.PullLimit | llm_judging/llm.py:19 | at least one pull is attempted |
| ModelPull.PullsFrom | llm_judging/llm.py:18-34 | the attempts stay within `max(1, retries)`; running out of pulls raises `RuntimeError("Failed to ensure model '<model>' is available: <repr of the last error>")` |
| ModelPull.PullLoop | llm_judging/bt/llm.py:12-40 | the pull loop produces the outcome, attempt count and pause count of its specification under the given pause rule |
| ModelPull.EnsureModelDownloaded | llm_judging/llm.py:6-34 | the loop follows the `i == retries` break rule |
| ModelPull.EnsureModelDownloadedBt | llm_judging/bt/llm.py:12-40 | the loop follows the `i < retries` pause rule |
| ModelPull.PullsFromOutcome | llm_judging/llm.py:18-34 | with a non-negative backoff, success exactly when some remaining pull succeeds (and it is the first that does); failure is the RuntimeError naming the model and the repr of the last pull's error, after all attempts |
| ModelPull.PullRunOutcome | llm_judging/bt/llm.py:12-40 | the model is available exactly when it was present or one of the first `max(1, retries)` pulls succeeds; otherwise, after every attempt, the RuntimeError naming the model and the repr of the last pull's error |
| ModelPull.BelowRetriesPausesBetweenPulls | llm_judging/bt/llm.py:36-38 | under the `i < retries` rule a failed run pauses between pulls only, never after the last |
| ModelPull.RulesAgreeForPositiveRetries | llm_judging/bt/llm.py:36-38 | for `retries >= 1` both pause rules give the same report |
| ModelPull.ZeroRetriesPauseAfterLastPull | llm_judging/llm.py:28-33 | with `retries <= 0` and a failing pull, the `i == retries` rule pauses once after the only pull, the `i < retries` rule not at all |
| HfClient.ModelLabel | llm_judging/bt/llm/hf_client.py:16-19 | the label is `hf_endpoint:` followed by the endpoint URL, or by the model when the URL is empty or unset |
| HfClient.ReadTimeout | llm_judging/bt/llm/hf_client.py:56 | a read timeout exists exactly when the millisecond setting is positive, and it is that many seconds over 1000 |
| HfClient.Headers | llm_judging/bt/llm/hf_client.py:39-41 | `Accept: application/json` always; a bearer `Authorization` header exactly when the token is non-empty |
| HfClient.BuildRequest | llm_judging/bt/llm/hf_client.py:42-57 | the POST goes to the endpoint URL with the prompt as `inputs`, the settings' temperature and token budget, `return_full_text` off, each optional sampling parameter as set, 5 s to connect and the read timeout above |
| HfClient.OrEmpty | llm_judging/bt/llm/hf_client.py:25-34 | `d.get(key) or ""` is `""` or a truthy value found under the key |
| HfClient.ExtractText | llm_judging/bt/llm/hf_client.py:21-35 | the extracted text is `""` or a truthy value |
| HfClient.ExtractTextShapes | llm_judging/bt/llm/hf_client.py:21-35 | each recognised response shape (list item `generated_text`/`text`, dict `generated_text`/`output_text`, `outputs[0].content`) yields its text |
| HfClient.SingleCall | llm_judging/bt/llm/hf_client.py:37-67 | a read timeout gives no score with the `{"provider": "hf_endpoint", "error": "timeout"}` marker; another transport error escapes; a string text is parsed by `parse_score_and_reason`; a non-string text raises; a returned raw value is a non-empty dict; a score is in 0..3 |
| HfClient.ReturnedIsMissed | llm_judging/bt/llm/hf_client.py:60-67 | a single call returning without a score is a miss `call_with_retry` moves past |
| HfClient.Judge | llm_judging/bt/llm/hf_client.py:69-75 | within the settings' retry limit, every earlier attempt returned without a score; a failure is an escaped exception; a score is in 0..3; when every attempt times out, the timeout marker after all attempts |
| Config.Elements | llm_judging/bt/config.py:73 | iterating a string yields its characters, a list its elements, a dict its keys |
| Config.UpdatePair | llm_judging/bt/config.py:73 | an element of the pair sequence is accepted exactly when it iterates to two items whose first is hashable; otherwise the TypeError or ValueError `dict` raises, naming the element's position and length |
| Config.UpdateAll | llm_judging/bt/config.py:73 | the pair sequence loads exactly when every element is a pair; otherwise it fails with the error of the first element that is not |
| Config.DictOf | llm_judging/bt/config.py:73 | `dict(d)` of a dict has exactly its keys |
| Config.PyDict | llm_judging/bt/config.py:73 | `dict(x)` copies a dict, reads a list or a string as a sequence of pairs, and raises TypeError naming the type for a number, boolean or null |
| Config.EmptySequencesGiveEmptyDict | llm_judging/bt/config.py:73 | `dict("")` and `dict([])` are empty |
| Config.NonEmptyStringRaises | llm_judging/bt/config.py:73 | `dict(s)` of a non-empty string raises the ValueError for element #0 of length 1 |
| Config.TwoCharStringPair | llm_judging/bt/config.py:73 | a two-character string is a pair of its characters |
| Config.PairListLikeObject | llm_judging/bt/config.py:73 | a list of `[key, value]` lists loads like the object with those members |
| Config.UpdatePairs | llm_judging/bt/config.py:73 | adding such pairs from a position on merges the dict of the remaining members over what was built so far |
| Config.PairStep | llm_judging/bt/config.py:73 | a `[key, value]` list with a string key is an accepted pair |
| Config.DictOfCons | llm_judging/bt/config.py:73 | in a dict built from members, a later member overrides the first |
| Config.WithToken | llm_judging/bt/config.py:74-75 | the merged dict always holds `hf_api_token`: a truthy one is kept, anything else is replaced by the environment's token or None |
| Config.Filtered | llm_judging/bt/config.py:77-78 | exactly the declared fields among the keys are kept, with their values |
| Config.FromDict | llm_judging/bt/config.py:71-79 | `_from_dict` fails exactly when `dict(d)` does, with its error; otherwise the record holds only declared fields, always the token, and every declared field `dict(d)` sets with exactly the value given, whatever its type |
| Config.AsSettings | llm_judging/bt/config.py:18-50 | the typed view of a record exists exactly when every field set holds a value of its declared type, and reads each field or its default |
| Config.AnyValueKept | llm_judging/bt/config.py:71-79 | an object always loads, and a declared field keeps the value it was given, whatever its type |
| Config.UnknownKeyIgnored | llm_judging/bt/config.py:77-79 | adding a key `Settings` does not declare changes nothing |
| Config.FilteredIgnores | llm_judging/bt/config.py:77-78 | setting an undeclared key leaves the filtered dict as it was |
| Config.EmptyGivesDefaults | llm_judging/bt/config.py:71-79 | an empty object, an empty list and an empty string each give the declared defaults, with the token from the environment |
| Config.TokenKind | llm_judging/bt/config.py:18-50 | `hf_api_token` is declared as an optional string |
| Config.TokenOnly | llm_judging/bt/config.py:73-79 | a dict holding only a token gives the defaults with that token |
| Config.FileTokenWins | llm_judging/bt/config.py:74-75 | a non-empty token in the file is kept over the environment's |
| Config.EnvTokenFills | llm_judging/bt/config.py:74-75 | an empty or missing token is replaced by the environment's, or None |
| Config.LastComponent | llm_judging/bt/config.py:60 | the component found has no `/` and is neither empty nor `.` |
| Config.Basename | llm_judging/bt/config.py:60 | `Path(p).name` has no `/` |
| Config.BasenameDropsDirectory | llm_judging/bt/config.py:60 | a directory prefix of the argument is dropped |
| Config.FromDictAll | llm_judging/bt/config.py:67 | a list loads exactly when every element does, one record per element in order; otherwise the first element's error |
| Config.LoadSettingsFile | llm_judging/bt/config.py:52-69 | an empty file name opens the `run_configs` folder itself, and what that raises is up to the file system; a read error propagates; an object always gives one record; a list gives one record per element, in order, exactly when every element passes `dict()`; anything else is the ValueError with the source's message |
| Factory.BuildLlmClient | llm_judging/bt/llm/factory.py:8-17 | "ollama" gives the Ollama client, "hf_hub" the hub client, "hf_endpoint" with a non-empty URL the endpoint client, each exactly then; anything else is a ValueError |
| Window.ValidateRangeAndLimit | llm_judging/bt/util/helpers.py:6-14 | an error exactly when the limit, start or end is given and non-positive, or the start exceeds the end; the first violated rule names the ValueError |
| Window.Clamp | llm_judging/bt/util/helpers.py:36-37 | with qrels available the bound is clamped into [1, total] and a bound already inside is kept; with none it is 1 |
| Window.ComputeQrelWindow | llm_judging/bt/util/helpers.py:24-49 | both bounds lie in [1, total]; the intended count is the size of the clamped range (0 when nothing is available); the processed target is the intended count capped by the limit; a subset exactly when the target is below the total |
| Window.WindowRanges | llm_judging/bt/util/helpers.py:32-39 | a range inside the data is kept as given; no bounds mean the whole data |
| Window.StartBeyondTotal | llm_judging/bt/util/helpers.py:32-41 | a start past the data clamps to the last qrel, a window of one |
| Window.EmptyWindow | llm_judging/bt/util/helpers.py:36-41 | with nothing available the window is empty and not a subset |
| Window.SubsetByLimit | llm_judging/bt/util/helpers.py:40-41 | a positive limit below the number available makes a subset of exactly that size; the whole range without a limit is not a subset |
| Window.EnsureOfficialGuard | llm_judging/bt/util/helpers.py:62-64 | a ValueError exactly when an official run processes a subset |
| Window.ChoosePromptTemplate | llm_judging/bt/util/helpers.py:66-67 | the template with a reason exactly when reasoning is enabled |
| RunRegistry.IncreasingDistinct | llm_judging/bt/db.py:15 | in a strictly increasing alphabet two positions hold different symbols |
| RunRegistry.AlphabetShape | llm_judging/bt/db.py:14-15 | the alphabet has 30 distinct symbols, none of I, L, O, U, 0, 1, all in [A-Z2-9] |
| RunRegistry.AlphabetIncreasing | llm_judging/bt/db.py:15 | the alphabet lists letters first, each part in increasing order |
| RunRegistry.AlphabetSymbols | llm_judging/bt/db.py:14-15 | every symbol lies in [A-Z2-9] and is none of I, L, O, U, 0, 1 |
| RunRegistry.GenRunKey | llm_judging/bt/db.py:17-18 | a key of the requested length whose every symbol is the alphabet entry drawn for it |
| RunRegistry.GeneratedKeyFormat | llm_judging/bt/db.py:69 | every generated key passes the table's `^[A-Z2-9]{12}$` check |
| RunRegistry.DrawFor | llm_judging/bt/db.py:17-18 | each alphabet symbol has a draw that picks it |
| RunRegistry.ReachOne | llm_judging/bt/db.py:17-18 | the draw for a symbol picks that symbol |
| RunRegistry.ModBelow | llm_judging/bt/db.py:18 | a draw within the alphabet picks its own position |
| RunRegistry.EveryKeyReachable | llm_judging/bt/db.py:17-18 | every twelve-symbol string over the alphabet can be generated |
| RunRegistry.AttemptKey | llm_judging/bt/db.py:158 | the key tried on each attempt has the table's format |
| RunRegistry.StartRun | llm_judging/bt/db.py:132-199 | at most five attempts, each earlier one a collision; success inserts the run under a fresh well-formed key and commits it; a collision rolls back to the last commit; another error rolls back and escapes; five collisions raise RuntimeError and leave the tables as last committed |
| RunRegistry.TryInsertRun | llm_judging/bt/db.py:159-195 | the insert succeeds exactly when the key is new, and then adds only that run and commits; a collision restores the last committed tables |
| SerialRegistry.IdSequence.constructor | scripts/llm_judging/db.py:130-140 | the serial sequence starts at 1 |
| SerialRegistry.StartRunSerial | scripts/llm_judging/db.py:107-151 | exactly one new run row under the next id, which was not in use, committed at once; the predictions are untouched |
| AuditStore.NewRun | llm_judging/bt/db.py:161-183 | a freshly inserted run carries its metadata, is not finished and has no invalid percentage yet |
| AuditStore.InvalidPct | llm_judging/bt/db.py:115 | the percentage lies in [0, 100], is 0 without rows, and is otherwise invalid/total × 100 |
| AuditStore.InvalidKeys | llm_judging/bt/db.py:106-110 | the NULL-prediction rows of a run are among that run's rows |
| AuditStore.SubsetCardinality | llm_judging/bt/db.py:106-110 | a subset has at most as many rows, so invalid never exceeds total |
| AuditStore.InvalidPctOf | llm_judging/bt/db.py:103-115 | the percentage a run's rows give lies in [0, 100], and is 0 for a run without rows |
| AuditStore.AuditTables.constructor | llm_judging/bt/db.py:30-95 | the freshly created audit schema has empty, committed tables |
| AuditStore.AuditTables.Commit | llm_judging/bt/db.py:184 | a commit changes no data and makes the current state the one a rollback returns to |
| AuditStore.AuditTables.Rollback | llm_judging/bt/db.py:194-196 | a rollback restores the last committed tables |
| AuditStore.AuditTables.InsertRun | llm_judging/bt/db.py:161-183 | the insert succeeds exactly when the key is new; a present key is a unique violation that changes nothing; predictions and the committed state are untouched |
| AuditStore.AuditTables.InsertPrediction | llm_judging/bt/db.py:243-259 | exactly one row is added when (run, idx) is new and the run exists; a repeated (run, idx) is a primary-key violation and an unknown run a foreign-key violation, both leaving the table unchanged; nothing is committed |
| AuditStore.AuditTables.FinalizeRun | llm_judging/bt/db.py:98-129 | returns the run's share of NULL predictions, stores it with `finished` on that run's row only (an unknown run changes nothing), leaves the predictions alone and commits |
| AuditStore.Joined | llm_judging/bt/db.py:226-228 | every joined row has a query and a document and comes from a qrel, with their texts |
| AuditStore.CountAvailable | llm_judging/bt/db.py:202-214 | the join holds at most as many rows as there are qrels |
| AuditStore.StrLeTotal | llm_judging/bt/db.py:229 | text order is total |
| AuditStore.ItemLeTotal | llm_judging/bt/db.py:229 | the (query_id, doc_id) order is total |
| AuditStore.InsertItem | llm_judging/bt/db.py:229 | inserting into a sorted list keeps it sorted and adds exactly that row |
| AuditStore.SortItems | llm_judging/bt/db.py:229 | `ORDER BY query_id, doc_id` gives a sorted permutation of the joined rows |
| AuditStore.PrefixSorted | llm_judging/bt/db.py:229-230 | a prefix of a sorted list is sorted |
| AuditStore.FetchQrels | llm_judging/bt/db.py:217-240 | a negative limit is refused; otherwise the rows are a sorted prefix of the sorted join, of the limit's length or the whole join, and without a limit exactly the joined rows |
| Pipeline.WholeSeconds | llm_judging/bt/pipeline.py:27 | negative time counts as 0 seconds; otherwise the whole seconds not above it |
| Pipeline.Hms | llm_judging/bt/pipeline.py:26-31 | `HH:MM:SS` with colons in place, eight characters below 100 hours |
| Pipeline.HmsArithmetic | llm_judging/bt/pipeline.py:28-30 | hours, minutes and seconds add back up to the whole seconds, minutes and seconds below 60 |
| Pipeline.ColonLayout | llm_judging/bt/pipeline.py:31 | the three fields can be read back from their places around the colons |
| Pipeline.HmsRoundTrip | llm_judging/bt/pipeline.py:26-31 | reading the text back gives the whole seconds, and the minute and second fields are two digits below 60 |
| Pipeline.FieldsRoundTrip | llm_judging/bt/pipeline.py:26-31 | three padded fields joined by colons read back as hours × 3600 + minutes × 60 + seconds |
| Pipeline.HmsNegative | llm_judging/bt/pipeline.py:27 | negative time prints as `00:00:00` |
| Pipeline.Truncate | llm_judging/bt/pipeline.py:34-37 | the result is a prefix of the text; the text itself without a limit or when it fits; exactly `limit` characters when cut; a negative limit drops that many from the end |
| Pipeline.TruncateIdempotent | llm_judging/bt/pipeline.py:34-37 | truncating twice to the same non-negative limit is truncating once |
| Pipeline.TruncateNegativeShrinks | llm_judging/bt/pipeline.py:37 | with a negative limit a second truncation cuts the same number of characters again, so truncation is not idempotent |
| Pipeline.TextOf | llm_judging/bt/pipeline.py:107-108 | `(x or "").strip()` is no longer than the text |
| Pipeline.PromptFor | llm_judging/bt/pipeline.py:107-111 | the prompt gets the chosen template, the stripped query, and a prefix of the stripped document within `max_text_chars` |
| Pipeline.Isolated | llm_judging/bt/pipeline.py:115-122 | a call that raises, or returns a raw value without `.get`, becomes no prediction with the `exception during LLM call` marker and 0 ms; any other result is kept |
| Pipeline.RecordOf | llm_judging/bt/pipeline.py:124-139 | the row carries the item's ids and gold grade and the call's prediction, reason, ms and raw value; `is_correct` is NULL exactly when the prediction is, and true exactly when it equals the gold grade |
| Pipeline.Records | llm_judging/bt/pipeline.py:106-139 | one row per fetched item |
| Pipeline.RecordsConsistent | llm_judging/bt/pipeline.py:124-129 | every row has `is_correct` NULL exactly when its prediction is NULL |
| Pipeline.RowsSpec | llm_judging/bt/pipeline.py:106-139 | the first n rows sit under (run, 1) … (run, n) and nowhere else |
| Pipeline.RowsStep | llm_judging/bt/pipeline.py:139 | inserting row n+1 under idx n+1 extends the first n rows by that row |
| Pipeline.TallyStep | llm_judging/bt/pipeline.py:124-129 | one more row adds one to `counted` when it has a prediction, and one to `correct` when it is correct |
| Pipeline.CorrectAtMostCounted | llm_judging/bt/pipeline.py:124-129 | over consistent rows, correct ≤ counted ≤ items |
| Pipeline.Agreement | llm_judging/bt/pipeline.py:147 | agreement lies in [0, 100], is 0 when nothing was counted, and is otherwise 100 × correct / counted |
| Pipeline.LastCommit | llm_judging/bt/pipeline.py:141-142 | the last commit point is among the items processed |
| Pipeline.LastCommitSpec | llm_judging/bt/pipeline.py:141-142 | it is a commit point (or 0), and no later processed item is one |
| Pipeline.CommitEveryExtremes | llm_judging/bt/pipeline.py:141 | `commit_every` 0 never commits inside the loop; 1 commits after every item |
| Pipeline.InsertStep | llm_judging/bt/pipeline.py:139-142 | inserting row i+1 adds it under idx i+1 and commits when i+1 is a commit point; a repeated idx or unknown run fails and changes nothing |
| Pipeline.JudgeStep | llm_judging/bt/pipeline.py:106-142 | one item judged, tallied and inserted: the tables hold one more row and the tallies count it |
| Pipeline.JudgeItems | llm_judging/bt/pipeline.py:102-145 | items are inserted in fetch order under idx 1..n, one row each; on completion everything is committed and the tally is (counted, correct) with correct ≤ counted ≤ n; a failing insert stops the loop with its error, the rows so far left in place and committed up to the last commit point |
| Pipeline.JudgeLoop | llm_judging/bt/pipeline.py:102-143 | the `for` loop alone: after i items the rows 1..i are in place and committed up to the last commit point; it runs to the end with the running tally exactly when no insert fails, and otherwise stops at the first failing idx with UniqueViolation or ForeignKeyViolation as the old tables decide |
| Pipeline.FullTally | llm_judging/bt/pipeline.py:102-145 | once every item is seen, the running tally is the whole batch's, with correct ≤ counted ≤ items |
| Pipeline.MetaFor | llm_judging/bt/util/helpers.py:69-104 | the run row records the client label, the chosen template and runner `pipeline.run_once` |
| Pipeline.RunOnce | llm_judging/bt/pipeline.py:40-66 | as written every run fails: with the client's own error when the provider is unknown, else AttributeError on `cfg.start_qrel` |
| Pipeline.DefaultRunFails | llm_judging/bt/pipeline.py:52-60 | the default settings build a client and still fail with AttributeError on `start_qrel` |
| Pipeline.FreshKeyNoRows | llm_judging/bt/db.py:80-91 | under the foreign key, a run key that is not yet in `llm_runs` has no prediction rows |
| Pipeline.Preflight | llm_judging/bt/pipeline.py:52-88 | the run may start exactly when the client builds and the limit is valid; then the run row records the client label and the template reasoning selects |
| Pipeline.OfficialSubsetNotRefused | llm_judging/bt/pipeline.py:58-66 | an official run over a subset, which `ensure_official_guard` would refuse, still passes the checks, because the window is only logged |
| Pipeline.JudgeRun | llm_judging/bt/pipeline.py:91-149 | every item is inserted under the run, all committed; the run row is finalized with the share of NULL predictions; the summary's counts and agreement are those of the rows |
| Pipeline.UpdateTwice | llm_judging/bt/pipeline.py:149 | finalizing overwrites the freshly started run row |
| Pipeline.StartAndJudge | llm_judging/bt/pipeline.py:80-149 | a started run gets a fresh well-formed key, one row per item, a finalized run row and its summary; failing to start changes nothing; earlier predictions are untouched |
| Pipeline.RunOnceIntended | llm_judging/bt/pipeline.py:40-166 | `run_once` as intended: a failed preflight writes nothing and returns its error; otherwise a fresh run holds one row per fetched item and is finalized, with counts, agreement and invalid share matching its rows |
| ScriptRuns.StrictJudge | scripts/llm_judging/doc_v2/llm_judge_doc_v2.py:131-157 | a score exactly when the whole answer decodes and `int(obj["score"])` lies in 0..3, and it is that integer; never a reason; the raw record and ms as produced |
| ScriptRuns.StrictJudgeRejects | scripts/llm_judging/passage_v2/llm.py:24-31 | an answer that does not decode, or a score above 3, gives no score but still a raw record |
| ScriptRuns.ReachedFrom | scripts/llm_judging/passage_v2/run.py:55-60 | every call up to the count returns, and the next one raises |
| ScriptRuns.Reached | scripts/llm_judging/passage_v2/run.py:55-60 | the script gets through exactly the items before the first call that raises |
| ScriptRuns.ReachedStep | scripts/llm_judging/passage_v2/run.py:55-60 | an item within reach is passed exactly when its call returns |
| ScriptRuns.ScriptRecordAt | scripts/llm_judging/passage_v2/run.py:62-79 | the row written for an item is consistent, has no reason, and any score is in 0..3 |
| ScriptRuns.ScriptRecords | scripts/llm_judging/passage_v2/run.py:55-79 | one row per item reached |
| ScriptRuns.ScriptRecordsConsistent | scripts/llm_judging/doc_v2/llm_judge_doc_v2.py:198-203 | every row has `is_correct` NULL exactly when its prediction is NULL |
| ScriptRuns.ScriptStep | scripts/llm_judging/passage_v2/run.py:55-82 | one item tallied, inserted under idx i+1 and committed when i+1 is a commit point |
| ScriptRuns.JudgeScriptItems | scripts/llm_judging/passage_v2/run.py:51-84 | items inserted in order under idx 1..n, one each; success exactly when no call raises, and then all committed with correct ≤ counted ≤ n; otherwise the call's exception, with the rows reached inserted and committed up to the last commit point |
| ScriptRuns.FinishScript | scripts/llm_judging/doc_v2/llm_judge_doc_v2.py:231 | the final commit saves everything and the tallies satisfy correct ≤ counted ≤ n |
| ScriptRuns.RunScript | scripts/llm_judging/passage_v2/run.py:28-93 | the run row is inserted under the next id and committed, and never finalized; a refused fetch leaves the predictions as they were; otherwise the items are judged as above |
| ScriptRuns.JudgeFetched | scripts/llm_judging/doc_v2/llm_judge_doc_v2.py:174-240 | with the items fetched: success exactly when no call raises, with one row per item and counts and agreement matching the rows; otherwise the exception, keeping only what was committed |
| ScriptRuns.EffectiveModel | scripts/llm_judging/passage_v2/run.py:33 | the CLI model overrides the setting only when non-empty |
| ScriptRuns.EffectiveCommitEvery | scripts/llm_judging/passage_v2/run.py:34 | the CLI commit interval overrides the setting only when non-zero |
| ScriptRuns.NoteFor | scripts/llm_judging/passage_v2/run.py:39 | given notes unless empty, else the sentence naming the limit |
| ScriptRuns.PassagePromptOf | scripts/llm_judging/passage_v2/run.py:56-58 | the stripped query, and the stripped passage sliced to `max_text_chars` (whole when None) |
| ScriptRuns.PassagePlan | scripts/llm_judging/passage_v2/run.py:33-42 | the run records the effective model, template and note; the fetch uses the CLI limit; the commit interval is the effective one |
| ScriptRuns.PassageDefaultsPlan | scripts/llm_judging/passage_v2/config.py:13-25 | without a model or commit-interval override the configured model is used and a commit comes every 20 items |
| ScriptRuns.DocPromptOf | scripts/llm_judging/doc_v2/llm_judge_doc_v2.py:45-46 | the prompt carries the stripped query; its document part is the stripped title cut to its first 500 characters, a line break, then the stripped body cut to its first 40000000, with exactly those lengths |
| ScriptRuns.DocFieldsWhole | scripts/llm_judging/doc_v2/llm_judge_doc_v2.py:190-194 | a title and body within both caps reach the prompt whole, as `{title}\n{body}` |
| ScriptRuns.DocPlan | scripts/llm_judging/doc_v2/llm_judge_doc_v2.py:165-196 | the run row and every call use the fixed model "llama3.2:3b" under the given template; the note is `--notes` when non-empty, else `Run with limit=…; no rationale; strict JSON; NULL on parse fail.`; the fetch uses the CLI limit; a commit after every 50th item |
| ScriptRuns.DocCommitsKept | scripts/llm_judging/doc_v2/llm_judge_doc_v2.py:228-229 | under that plan a run stopped after k items has committed exactly its first `50 * (k // 50)` rows |
| ScriptRuns.TimedeltaMatchesHms | scripts/llm_judging/doc_v2/llm_judge_doc_v2.py:161-162 | below ten hours `str(timedelta)` differs from `_hms` only by the hours' leading zero |
| ScriptRuns.TimedeltaOneDay | scripts/llm_judging/doc_v2/llm_judge_doc_v2.py:161-162 | between one and two days the text is `1 day, ` followed by the clock of the rest |
| ScriptRuns.TimedeltaUnderASecond | scripts/llm_judging/doc_v2/llm_judge_doc_v2.py:161-162 | less than a second, negative time included, prints as `0:00:00` |
| RunNotesPayload.DropNonesSpec | scripts/llm_judging/passage_v2/notes.py:76-81 | the result has no `None` member at any depth; it is `None`, a list or a dict exactly when the input is; a list keeps its length with each element cleaned; any other value is unchanged |
| RunNotesPayload.DropMembersSpec | scripts/llm_judging/passage_v2/notes.py:78 | exactly the non-`None` members are kept, each with its value cleaned |
| RunNotesPayload.DropItemsSpec | scripts/llm_judging/passage_v2/notes.py:80 | a list keeps its length, each element cleaned in place |
| RunNotesPayload.DropNonesFixed | scripts/llm_judging/passage_v2/notes.py:76-81 | a value without `None` members is left exactly as it is |
| RunNotesPayload.DropMembersFixed | scripts/llm_judging/passage_v2/notes.py:78 | members that are all clean are kept as they are |
| RunNotesPayload.DropNonesIdempotent | scripts/llm_judging/passage_v2/notes.py:76-81 | cleaning twice is cleaning once |
| RunNotesPayload.UpToLineBreak | scripts/llm_judging/passage_v2/notes.py:43 | the prefix before the first line break holds no line break |
| RunNotesPayload.FirstLine | scripts/llm_judging/passage_v2/notes.py:43 | an empty template gives ""; a whitespace-only one raises IndexError; anything else gives the stripped template up to its first line break or its 160th character, whichever comes first |
| RunNotesPayload.NotesValue | scripts/llm_judging/passage_v2/notes.py:70 | `None` exactly when the notes are missing or blank, else the stripped notes |
| RunNotesPayload.PromptSection | scripts/llm_judging/passage_v2/notes.py:41-45 | the prompt section holds the first line and the template's length before stripping |
| RunNotesPayload.ExtrasSection | scripts/llm_judging/passage_v2/notes.py:71 | `None` exactly when the extras are missing or empty, else the extras |
| RunNotesPayload.SystemSection | scripts/llm_judging/passage_v2/notes.py:47-55 | `None` exactly when the system facts were not asked for |
| RunNotesPayload.Payload | scripts/llm_judging/passage_v2/notes.py:57-73 | the six sections run, data, prompt, notes, extras, system in that order; fails exactly when the first line does |
| RunNotesPayload.Render | scripts/llm_judging/passage_v2/notes.py:35-83 | fails exactly when the first line does; otherwise a dict without any `None` member |
| RunNotesPayload.RenderKeys | scripts/llm_judging/passage_v2/notes.py:57-78 | run, data and prompt always survive; notes exactly when non-blank, extras exactly when non-empty, system exactly when asked for |
| RunNotesPayload.RenderedMembers | scripts/llm_judging/passage_v2/notes.py:76-83 | the rendered members are the payload's, cleaned |
| RunNotesPayload.RenderIsCleanPayload | scripts/llm_judging/passage_v2/notes.py:83 | `render` is `drop_nones` of the payload |
| RunNotesPayload.CleanObject | scripts/llm_judging/passage_v2/notes.py:77-78 | cleaning a dict cleans its members |
| RunNotesPayload.SectionKeysKept | scripts/llm_judging/passage_v2/notes.py:57-78 | the surviving top-level keys in terms of the notes, extras and system flag |
| RunNotesPayload.PayloadKeysKept | scripts/llm_judging/passage_v2/notes.py:57-78 | each top-level key survives exactly when its value is not `None` |
| RunNotesPayload.PayloadKeysDistinct | scripts/llm_judging/passage_v2/notes.py:57-73 | the six section keys are distinct |
| RunNotesPayload.KeptUnique | scripts/llm_judging/passage_v2/notes.py:78 | with distinct keys, a key survives exactly when its value is not `None` |
| RunNotesPayload.KeptKey | scripts/llm_judging/passage_v2/notes.py:78 | a key survives exactly when some member under it is not `None` |
| Etl.RemoveNul | scripts/load_ms_marco_into_postgres/load_ms_marco_doc_v2_subset_to_postgres.py:147 | the result holds no NUL, is no longer than the input, and a text without NUL is unchanged |
| Etl.RemoveNulKeepsOthers | scripts/load_ms_marco_into_postgres/load_ms_marco_doc_v2_subset_to_postgres.py:147 | removing NULs works piecewise, keeping every other character in order |
| Etl.Nt | load_ms_marco_into_postgres/load_ms_marco_passage_v2_to_postgres.py:44-52 | the result holds no NUL; None gives ""; a NUL-free text is kept; bytes are decoded, then cleaned |
| Etl.NtIdempotent | scripts/load_ms_marco_into_postgres/load_ms_marco_doc_v2_subset_to_postgres.py:139-147 | normalising twice is normalising once |
| Etl.NtGet | ms_marco_doc_v2_to_parquet_subset.py:46-50 | a missing attribute gives "", bytes are decoded, any other value is returned unchanged |
| Etl.KeysOfAppend | scripts/load_ms_marco_into_postgres/load_ms_marco_doc_v2_subset_to_postgres.py:167-168 | one more element adds its key to the seen set |
| Etl.FirstWithKeyExtends | scripts/load_ms_marco_into_postgres/load_ms_marco_doc_v2_subset_to_postgres.py:164-169 | the first element with a key stays first when more follow |
| Etl.DedupByFirstOccurrence | scripts/load_ms_marco_into_postgres/load_ms_marco_doc_v2_subset_to_postgres.py:161-174 | de-duplication keeps exactly one element per key, the first one with that key, and loses no key |
| Etl.DedupByIdempotent | scripts/load_ms_marco_into_postgres/load_ms_marco_doc_v2_subset_to_postgres.py:161-174 | de-duplicating again changes nothing |
| Etl.DistinctDedupNoop | scripts/load_ms_marco_into_postgres/load_ms_marco_doc_v2_subset_to_postgres.py:161-174 | a sequence with distinct keys is kept whole |
| Etl.FirstOccurrences | scripts/load_ms_marco_into_postgres/load_ms_marco_doc_v2_subset_to_postgres.py:161-169 | the `seen`-set loop keeps exactly the first element of each key, and its `seen` set is every key that occurred |
| Etl.DedupMembers | scripts/load_ms_marco_into_postgres/load_ms_marco_doc_v2_subset_to_postgres.py:181-187 | a value is in the de-duplicated list exactly when it occurs |
| Etl.DedupIdStep | scripts/load_ms_marco_into_postgres/load_ms_marco_doc_v2_subset_to_postgres.py:186 | reading one more value appends it exactly when it is new |
| Etl.DistinctInOrder | scripts/load_ms_marco_into_postgres/load_ms_marco_doc_v2_subset_to_postgres.py:181-187 | the unique values hold no duplicate, exactly the values that occur, in first-seen order |
| Etl.ChunksOfShape | ms_marco_doc_v2_to_parquet_subset.py:52-60 | the batches put back together give the input; none is empty; all but the last have exactly n rows; the last is shorter exactly when the length is not a multiple of n |
| Etl.ChunksOfFlatten | ms_marco_doc_v2_to_csv_subset.py:57-65 | the batches put back together give the input |
| Etl.ChunksOfSizes | ms_marco_doc_v2_to_csv_subset.py:57-65 | no batch is empty and all but the last have exactly n rows |
| Etl.ChunksOfLast | scripts/load_ms_marco_into_postgres/load_ms_marco_doc_v2_subset_to_postgres.py:94-96 | there is a final shorter batch exactly when the length is not a multiple of n |
| Etl.ChunksAppend | scripts/load_ms_marco_into_postgres/load_ms_marco_doc_v2_subset_to_postgres.py:88-93 | whole batches already flushed stay as they are when more rows follow |
| Etl.WholeStep | scripts/load_ms_marco_into_postgres/load_ms_marco_doc_v2_subset_to_postgres.py:90-93 | a flushed full batch keeps the count a multiple of n |
| Etl.Batches | scripts/load_ms_marco_into_postgres/load_ms_marco_doc_v2_subset_to_postgres.py:82-96 | the buffer loop of `exec_batch` and `batched` yields the input cut into consecutive pieces of `page` rows (of one row when `page` is 0 or less) |
| Etl.ChunkCut | scripts/load_ms_marco_into_postgres/load_ms_marco_doc_v2_subset_to_postgres.py:90-96 | flushing the buffer appends it as the next piece |
| Etl.Swap | load_ms_marco_into_postgres/load_ms_marco_passage_to_postgres.py:123 | a swap permutes the list |
| Etl.ShuffleDown | load_ms_marco_into_postgres/load_ms_marco_passage_to_postgres.py:123 | the swaps of `random.shuffle` permute the list |
| Etl.Shuffle | load_ms_marco_into_postgres/load_ms_marco_passage_v2_to_postgres.py:133 | `random.shuffle` gives a permutation of the input |
| Etl.Sample | load_ms_marco_into_postgres/load_ms_marco_passage_v2_to_postgres.py:131 | `random.sample` raises ValueError exactly when k is negative or above the pool size; otherwise k elements drawn without replacement from the pool |
| Etl.SampleMembers | load_ms_marco_into_postgres/load_ms_marco_passage_v2_to_postgres.py:131 | a sample holds only elements of its pool |
| Etl.Bucket | load_ms_marco_into_postgres/load_ms_marco_passage_to_postgres.py:110-113 | a bucket is no larger than the input |
| Etl.BucketMembers | load_ms_marco_into_postgres/load_ms_marco_passage_to_postgres.py:110-113 | a bucket holds only input elements with its label |
| Etl.BucketCount | load_ms_marco_into_postgres/load_ms_marco_passage_to_postgres.py:110-113 | a bucket holds every copy of each input element with its label, and nothing else |
| Etl.MultisetExt | load_ms_marco_into_postgres/load_ms_marco_passage_to_postgres.py:110-113 | bags with equal counts are equal |
| Etl.BucketPermutation | load_ms_marco_into_postgres/load_ms_marco_passage_to_postgres.py:122-124 | permuted inputs have permuted buckets of the same size |
| Etl.BucketConcat | load_ms_marco_into_postgres/load_ms_marco_passage_to_postgres.py:121-124 | the bucket of a concatenation is the concatenation of the buckets |
| Etl.BucketUniform | load_ms_marco_into_postgres/load_ms_marco_passage_to_postgres.py:121-124 | a list of one label is its own bucket and has no other |
| Etl.DictLastWins | load_ms_marco_into_postgres/load_ms_marco_passage_to_postgres.py:79-84 | `out[k] = v` in a loop: every key named is present, mapped to the value of its last entry |
| Etl.DictFirstWins | load_ms_marco_into_postgres/load_ms_marco_passage_v2_to_postgres.py:107-111 | `if k not in out: out[k] = v`: every key named is present, mapped to the value of its first entry |
| Etl.PrefixSnoc | load_ms_marco_into_postgres/load_ms_marco_passage_v2_to_postgres.py:107-111 | extending the consumed prefix by one entry |
| Etl.FirstDictStep | load_ms_marco_into_postgres/load_ms_marco_passage_v2_to_postgres.py:110-111 | one more entry is added exactly when its key is new |
| Etl.FirstPos | scripts/load_ms_marco_into_postgres/load_ms_marco_doc_v2_subset_to_postgres.py:167 | the first position holding a key: no earlier element has it |
| Etl.FirstPosInside | scripts/load_ms_marco_into_postgres/load_ms_marco_doc_v2_subset_to_postgres.py:167 | a key occurs exactly when its first position lies inside the sequence |
| Etl.FirstPosAppend | scripts/load_ms_marco_into_postgres/load_ms_marco_doc_v2_subset_to_postgres.py:167-169 | appending an element does not move any existing first position |
| Etl.DedupByOrder | scripts/load_ms_marco_into_postgres/load_ms_marco_doc_v2_subset_to_postgres.py:181-187 | each kept element sits at its key's first position, and they are listed in increasing order of first position |
| Etl.ShuffleInPlace | load_ms_marco_into_postgres/load_ms_marco_passage_to_postgres.py:123 | the in-place Fisher–Yates loop leaves the array holding the shuffle of its old contents |
| Etl.ShuffleDownStep | load_ms_marco_into_postgres/load_ms_marco_passage_to_postgres.py:123 | one swap, then the shuffle of the positions below |
| Etl.SwapInPlace | load_ms_marco_into_postgres/load_ms_marco_passage_to_postgres.py:123 | the array afterwards is the old contents with the two positions swapped |
| PassageLoader.TakeWord | load_ms_marco_into_postgres/load_ms_marco_passage_to_postgres.py:98 | the first word is a whitespace-free prefix of the text, ended by whitespace or the end |
| PassageLoader.TakeWordOf | load_ms_marco_into_postgres/load_ms_marco_passage_to_postgres.py:98 | a whitespace-free run followed by whitespace is taken whole |
| PassageLoader.WordsCons | load_ms_marco_into_postgres/load_ms_marco_passage_to_postgres.py:98 | `split()` of a word, then whitespace, is that word followed by the split of the rest |
| PassageLoader.WordsSpace | load_ms_marco_into_postgres/load_ms_marco_passage_to_postgres.py:98 | leading whitespace adds no field |
| PassageLoader.NoDashParses | load_ms_marco_into_postgres/load_ms_marco_passage_to_postgres.py:102-103 | a relevance of plain digits passes `int()` |
| PassageLoader.OneDashParses | load_ms_marco_into_postgres/load_ms_marco_passage_to_postgres.py:102-103 | a relevance of one minus sign and digits passes `int()` |
| PassageLoader.DashedRelRaises | load_ms_marco_into_postgres/load_ms_marco_passage_to_postgres.py:102-103 | a relevance that passes the `lstrip("-").isdigit()` filter but fails `int()` starts with two minus signs |
| PassageLoader.FieldsOutcome | load_ms_marco_into_postgres/load_ms_marco_passage_to_postgres.py:99-103 | a line of at least four fields is kept exactly when the query id is all digits, the doc id non-empty and the relevance digits behind minus signs that `int()` accepts, with fields 0, 2 and `int(rel)`; it raises `int()`'s ValueError exactly when `int()` refuses such a relevance, which needs two leading minus signs |
| PassageLoader.WordThenRest | load_ms_marco_into_postgres/load_ms_marco_passage_to_postgres.py:98 | a word and a space split into the word and the split of the rest |
| PassageLoader.SplitSpaced | load_ms_marco_into_postgres/load_ms_marco_passage_to_postgres.py:98 | words joined by single spaces split back into those words |
| PassageLoader.WordsEmpty | load_ms_marco_into_postgres/load_ms_marco_passage_to_postgres.py:98 | the empty line has no fields |
| PassageLoader.SpacedEnds | load_ms_marco_into_postgres/load_ms_marco_passage_to_postgres.py:95 | a line of words begins and ends with a word character |
| PassageLoader.StripSpaced | load_ms_marco_into_postgres/load_ms_marco_passage_to_postgres.py:95 | a line of words is unchanged by `strip()` |
| PassageLoader.SplitLine | load_ms_marco_into_postgres/load_ms_marco_passage_to_postgres.py:95-98 | a line of words is non-blank after `strip()` and splits back into its words |
| PassageLoader.RelFieldParses | load_ms_marco_into_postgres/load_ms_marco_passage_to_postgres.py:103 | the decimal text of any relevance reads back through `int()` as that relevance |
| PassageLoader.RelFieldDigits | load_ms_marco_into_postgres/load_ms_marco_passage_to_postgres.py:102 | the decimal text of any relevance passes the `lstrip("-").isdigit()` filter |
| PassageLoader.RelFieldIsWord | load_ms_marco_into_postgres/load_ms_marco_passage_to_postgres.py:98 | the decimal text of a relevance is one field |
| PassageLoader.QrelsLineRoundTrip | load_ms_marco_into_postgres/load_ms_marco_passage_to_postgres.py:87-104 | every judgement with a numeric query id and a one-word doc id, written as `qid 0 docid rel`, is read back as itself |
| PassageLoader.DoubleDashWord | load_ms_marco_into_postgres/load_ms_marco_passage_to_postgres.py:98 | "--" followed by digits is one field |
| PassageLoader.DoubleDashFiltered | load_ms_marco_into_postgres/load_ms_marco_passage_to_postgres.py:102 | "--" followed by digits passes the relevance filter |
| PassageLoader.DoubleDashRejected | load_ms_marco_into_postgres/load_ms_marco_passage_to_postgres.py:103 | "--" followed by anything fails `int()` |
| PassageLoader.DoubleMinusRaises | load_ms_marco_into_postgres/load_ms_marco_passage_to_postgres.py:101-103 | a line `qid 0 docid --N` passes the filter and then raises `int()`'s ValueError |
| PassageLoader.CollectStep | load_ms_marco_into_postgres/load_ms_marco_passage_to_postgres.py:94-103 | reading one more line extends the run by that line's outcome |
| PassageLoader.CollectSpec | load_ms_marco_into_postgres/load_ms_marco_passage_to_postgres.py:92-104 | the file parses exactly when no line raises; every returned triple comes from a kept line; a failure is an exception some line raised |
| PassageLoader.Outcomes | load_ms_marco_into_postgres/load_ms_marco_passage_to_postgres.py:94-103 | one outcome per line, each that line's own |
| PassageLoader.ParseQrelsFile | load_ms_marco_into_postgres/load_ms_marco_passage_to_postgres.py:87-104 | the line loop returns the kept triples in file order, or the first exception |
| PassageLoader.CollectFailureSticks | load_ms_marco_into_postgres/load_ms_marco_passage_to_postgres.py:103 | once a line has raised, later lines change nothing |
| PassageLoader.QueryEntry | load_ms_marco_into_postgres/load_ms_marco_passage_to_postgres.py:80-83 | a row names a query only under a numeric stripped id |
| PassageLoader.QueryEntries | load_ms_marco_into_postgres/load_ms_marco_passage_to_postgres.py:79-83 | one entry per row, each that row's own |
| PassageLoader.ParseQueriesTsv | load_ms_marco_into_postgres/load_ms_marco_passage_to_postgres.py:74-84 | the row loop builds the queries dict, a later row for the same id overwriting an earlier one |
| PassageLoader.QueryIdsNumeric | load_ms_marco_into_postgres/load_ms_marco_passage_to_postgres.py:82 | every key of the queries dict is all digits |
| PassageLoader.ShortagesExact | load_ms_marco_into_postgres/load_ms_marco_passage_to_postgres.py:115 | the shortage list names exactly the classes with fewer than `per_class` judgements, each with its true count |
| PassageLoader.TripleLeTotal | load_ms_marco_into_postgres/load_ms_marco_passage_to_postgres.py:126 | any two triples are ordered by the sort key |
| PassageLoader.InsertTriple | load_ms_marco_into_postgres/load_ms_marco_passage_to_postgres.py:126 | inserting into a sorted list keeps it sorted and adds exactly the one triple |
| PassageLoader.SortTriples | load_ms_marco_into_postgres/load_ms_marco_passage_to_postgres.py:126 | `sort(key=(rel, qid, did))` yields a sorted permutation of its input |
| PassageLoader.FillBuckets | load_ms_marco_into_postgres/load_ms_marco_passage_to_postgres.py:110-113 | the bucket loop gives every class its judgements in file order, and no other key |
| PassageLoader.FindShortages | load_ms_marco_into_postgres/load_ms_marco_passage_to_postgres.py:115 | the comprehension computes the shortage list |
| PassageLoader.GatherPicks | load_ms_marco_into_postgres/load_ms_marco_passage_to_postgres.py:121-124 | the extend loop appends each class's shuffled head in class order |
| PassageLoader.BalancedSampleQrels | load_ms_marco_into_postgres/load_ms_marco_passage_to_postgres.py:107-127 | the method computes the balanced sample: an error naming every short class, else the picks sorted |
| PassageLoader.PickedShape | load_ms_marco_into_postgres/load_ms_marco_passage_to_postgres.py:123-124 | a class's pick is a sub-bag of its bucket, of exactly `per_class` when the bucket is large enough |
| PassageLoader.PickedRels | load_ms_marco_into_postgres/load_ms_marco_passage_to_postgres.py:123-124 | everything a class picks carries that class |
| PassageLoader.GatheredRels | load_ms_marco_into_postgres/load_ms_marco_passage_to_postgres.py:122-124 | everything gathered carries one of the classes |
| PassageLoader.GatheredBuckets | load_ms_marco_into_postgres/load_ms_marco_passage_to_postgres.py:122-124 | for distinct classes, class c's share of the gathered list is exactly its pick |
| PassageLoader.BalancedSampleShape | load_ms_marco_into_postgres/load_ms_marco_passage_to_postgres.py:107-127 | a successful sample is sorted, holds only the requested classes, exactly `per_class` of each, each drawn from that class without repetition |
| PassageLoader.BalancedSampleFails | load_ms_marco_into_postgres/load_ms_marco_passage_to_postgres.py:115-118 | the sample raises exactly when some class has fewer than `per_class` judgements |
| PassageLoader.FirstText | load_ms_marco_into_postgres/load_ms_marco_passage_to_postgres.py:167-185 | an id's text is present exactly when the collection carries the id, and is the text of its first row |
| PassageLoader.FirstTextPrefix | load_ms_marco_into_postgres/load_ms_marco_passage_to_postgres.py:176-181 | a text found in a prefix of the collection is the text of the whole collection; one more row sets it only when new |
| PassageLoader.ScanStep | load_ms_marco_into_postgres/load_ms_marco_passage_to_postgres.py:176-179 | keeping a row only when its id is wanted and unseen keeps the found map equal to the first texts so far |
| PassageLoader.ScanComplete | load_ms_marco_into_postgres/load_ms_marco_passage_to_postgres.py:180-181 | once every wanted id is found, stopping early loses nothing |
| PassageLoader.ScanCollection | load_ms_marco_into_postgres/load_ms_marco_passage_to_postgres.py:167-181 | the early-stopping scan finds for each wanted id the text of its first row, and misses only ids the collection lacks |
| PassageLoader.CollectDocsSubset | load_ms_marco_into_postgres/load_ms_marco_passage_to_postgres.py:167-185 | success exactly when every needed id occurs; then one row per needed id with its first text; else a RuntimeError counting the missing ids |
| PassageLoader.DistinctCardinality | load_ms_marco_into_postgres/load_ms_marco_passage_to_postgres.py:180 | distinct ids number as many as the list |
| PassageLoader.SubsetSameSize | load_ms_marco_into_postgres/load_ms_marco_passage_to_postgres.py:180 | a found set as large as the wanted set is the wanted set |
| PassageLoader.ExecuteValuesUpsert | load_ms_marco_into_postgres/load_ms_marco_passage_to_postgres.py:235-268 | rows are sent in consecutive pages of `page_size`, in order, none lost; a page size of 0 or less sends nothing; one commit |
| DocLoaders.DatasetRows | scripts/load_ms_marco_into_postgres/load_ms_marco_doc_v2_subset_to_postgres.py:103-105 | one `(dataset_id, dataset_key)` row per split, in order |
| DocLoaders.QueryPairs | scripts/load_ms_marco_into_postgres/load_ms_marco_doc_v2_subset_to_postgres.py:107-112 | at most one pair per record; every pair has a non-empty id and neither id nor text holds a NUL |
| DocLoaders.QueryPairsAppend | scripts/load_ms_marco_into_postgres/load_ms_marco_doc_v2_subset_to_postgres.py:107-112 | the query stream of consecutive records is the concatenation of their streams |
| DocLoaders.QrelRows | scripts/load_ms_marco_into_postgres/load_ms_marco_doc_v2_subset_to_postgres.py:114-121 | at most one row per qrel record |
| DocLoaders.QrelRowsIds | scripts/load_ms_marco_into_postgres/load_ms_marco_doc_v2_subset_to_postgres.py:120 | every yielded qrel row has a non-empty query id and doc id |
| DocLoaders.QrelRowsAppend | scripts/load_ms_marco_into_postgres/load_ms_marco_doc_v2_subset_to_postgres.py:114-121 | the qrel stream of consecutive records is the concatenation of their streams |
| DocLoaders.Tag | scripts/load_ms_marco_into_postgres/load_ms_marco_doc_v2_subset_to_postgres.py:169 | each query pair becomes a row carrying its split's dataset id |
| DocLoaders.PendingSkip | scripts/load_ms_marco_into_postgres/load_ms_marco_doc_v2_subset_to_postgres.py:167 | a query id already seen leaves the batches and the pending rows as they are |
| DocLoaders.PendingKeep | scripts/load_ms_marco_into_postgres/load_ms_marco_doc_v2_subset_to_postgres.py:167-171 | a new query id is recorded and queued, and a full buffer is sent as one batch and cleared |
| DocLoaders.QueueQuery | scripts/load_ms_marco_into_postgres/load_ms_marco_doc_v2_subset_to_postgres.py:166-171 | one step of the loop keeps sent batches plus pending rows equal to the de-duplicated queries so far cut into batches of 2000 |
| DocLoaders.PendingFlush | scripts/load_ms_marco_into_postgres/load_ms_marco_doc_v2_subset_to_postgres.py:172-173 | sending the remaining rows completes the batches of the de-duplicated queries |
| DocLoaders.QueueSplit | scripts/load_ms_marco_into_postgres/load_ms_marco_doc_v2_subset_to_postgres.py:164-171 | one split's queries keep that invariant |
| DocLoaders.InsertQueries | scripts/load_ms_marco_into_postgres/load_ms_marco_doc_v2_subset_to_postgres.py:155-174 | the statements sent are the first occurrence of every query id across all splits, in order, in batches of 2000; the returned set is every query id seen |
| DocLoaders.InsertQueriesInsertsOnce | scripts/load_ms_marco_into_postgres/load_ms_marco_doc_v2_subset_to_postgres.py:155-174 | the batches lose nothing, are non-empty and at most 2000 rows; each query id is inserted once, from its first split, and every id is inserted |
| DocLoaders.Dids | scripts/load_ms_marco_into_postgres/load_ms_marco_doc_v2_subset_to_postgres.py:186 | the doc id of each qrel row, in order |
| DocLoaders.CollectRows | scripts/load_ms_marco_into_postgres/load_ms_marco_doc_v2_subset_to_postgres.py:184-186 | one split's loop appends its qrel rows and keeps the doc ids equal to their first-seen de-duplication |
| DocLoaders.CollectQrelsAndDocIds | scripts/load_ms_marco_into_postgres/load_ms_marco_doc_v2_subset_to_postgres.py:176-187 | all qrel rows of all splits in order, and their doc ids de-duplicated in first-seen order |
| DocLoaders.DocIdsFirstSeen | scripts/load_ms_marco_into_postgres/load_ms_marco_doc_v2_subset_to_postgres.py:181-187 | the doc id list has no duplicate, holds exactly the referenced doc ids, ordered by first reference |
| DocLoaders.DocRows | scripts/load_ms_marco_into_postgres/load_ms_marco_doc_v2_subset_to_postgres.py:130-137 | one normalised `(doc_id, url, title, body)` row per fetched document |
| DocLoaders.InsertDocs | scripts/load_ms_marco_into_postgres/load_ms_marco_doc_v2_subset_to_postgres.py:189-204 | fails with the no-docstore RuntimeError exactly when the first split has no docstore; otherwise every fetched document is sent once, in order, in non-empty batches of at most 2000 |
| DocLoaders.V2QueryEntriesOf | load_ms_marco_into_postgres/load_ms_marco_passage_v2_to_postgres.py:107-111 | one candidate entry per query record, each that record's own |
| DocLoaders.AddV2Queries | load_ms_marco_into_postgres/load_ms_marco_passage_v2_to_postgres.py:107-111 | one split's query loop keeps `queries_all` equal to the first entry of every query id so far |
| DocLoaders.BucketedStep | load_ms_marco_into_postgres/load_ms_marco_passage_v2_to_postgres.py:119-120 | appending a labelled row to its label's pool keeps every pool equal to that label's rows so far |
| DocLoaders.QrelRowsStep | load_ms_marco_into_postgres/load_ms_marco_passage_v2_to_postgres.py:114-120 | one more qrel record extends the rows by at most that record's row |
| DocLoaders.QrelStep | load_ms_marco_into_postgres/load_ms_marco_passage_v2_to_postgres.py:114-120 | one step of the qrels loop keeps every label's pool equal to that label's rows so far |
| DocLoaders.AddV2Qrels | load_ms_marco_into_postgres/load_ms_marco_passage_v2_to_postgres.py:114-120 | one split's qrels loop keeps the pools invariant |
| DocLoaders.CollectPassageV2 | load_ms_marco_into_postgres/load_ms_marco_passage_v2_to_postgres.py:103-120 | after all splits, `queries_all` is the first-wins dict of every query and each label's pool is exactly that label's qrels in order |
| DocLoaders.PicksStep | load_ms_marco_into_postgres/load_ms_marco_passage_v2_to_postgres.py:130-132 | one more label either appends its sample or ends the run with the sample's error |
| DocLoaders.SampleByLabel | load_ms_marco_into_postgres/load_ms_marco_passage_v2_to_postgres.py:128-132 | the per-label loop computes the picks: each label's `random.sample` of 250 in label order, or the first error |
| DocLoaders.PicksFailSticks | load_ms_marco_into_postgres/load_ms_marco_passage_v2_to_postgres.py:131 | once a label's sample has raised, later labels change nothing |
| DocLoaders.PicksOutcome | load_ms_marco_into_postgres/load_ms_marco_passage_v2_to_postgres.py:128-132 | sampling succeeds exactly when every label has at least 250 qrels, then gives 250 per label; else `random.sample`'s ValueError |
| DocLoaders.PicksBuckets | load_ms_marco_into_postgres/load_ms_marco_passage_v2_to_postgres.py:128-132 | for distinct labels, a label's share of the picks is exactly its sample, and other labels have none |
| DocLoaders.SampleRels | load_ms_marco_into_postgres/load_ms_marco_passage_v2_to_postgres.py:131 | a label's sample carries that label |
| DocLoaders.PicksLabels | load_ms_marco_into_postgres/load_ms_marco_passage_v2_to_postgres.py:128-132 | every pick carries one of the labels |
| DocLoaders.FetchedEntries | load_ms_marco_into_postgres/load_ms_marco_passage_v2_to_postgres.py:149-154 | one candidate entry per fetched passage, each that passage's own |
| DocLoaders.FetchDocs | load_ms_marco_into_postgres/load_ms_marco_passage_v2_to_postgres.py:149-154 | the fetch loop builds the `{doc_id: text}` dict, later passages overwriting earlier ones |
| DocLoaders.InsertUsedQueries | load_ms_marco_into_postgres/load_ms_marco_passage_v2_to_postgres.py:170-178 | succeeds exactly when every used query is known, then inserts each used query once with its text and dataset id; else a RuntimeError naming a missing query |
| DocLoaders.InsertUsedDocs | load_ms_marco_into_postgres/load_ms_marco_passage_v2_to_postgres.py:180-185 | succeeds exactly when every used doc was fetched, then inserts each once with its text; else a KeyError naming a missing doc |
| DocLoaders.Selection | load_ms_marco_into_postgres/load_ms_marco_passage_v2_to_postgres.py:128-133 | the shuffled selection fails exactly when sampling fails, and is a permutation of the picks |
| DocLoaders.InsertSelection | load_ms_marco_into_postgres/load_ms_marco_passage_v2_to_postgres.py:163-192 | the inserts succeed exactly when every used query and doc is available; then the datasets, each used query and doc once, and the selection as qrels; else the first failing insert's error |
| DocLoaders.CommitSelection | load_ms_marco_into_postgres/load_ms_marco_passage_v2_to_postgres.py:135-194 | no docstore, or a fetch with fewer passages than used doc ids, is a RuntimeError; otherwise the inserts decide |
| DocLoaders.FetchAndInsert | load_ms_marco_into_postgres/load_ms_marco_passage_v2_to_postgres.py:149-192 | a short fetch is the "Missing N docs" RuntimeError counting the shortfall; otherwise the inserts decide |
| DocLoaders.LoadPassageV2 | load_ms_marco_into_postgres/load_ms_marco_passage_v2_to_postgres.py:87-210 | a failed sample is the run's error; otherwise the run commits the selection as the docstore, fetch and inserts decide |
| DocLoaders.PermutedLabels | load_ms_marco_into_postgres/load_ms_marco_passage_v2_to_postgres.py:133 | shuffling the picks keeps every row's label among the labels |
| DocLoaders.PermutedBucket | load_ms_marco_into_postgres/load_ms_marco_passage_v2_to_postgres.py:133 | after shuffling, each label still has 250 rows, all drawn from its pool |
| DocLoaders.LabelsDistinct | load_ms_marco_into_postgres/load_ms_marco_passage_v2_to_postgres.py:37-39 | the labels 0..3 are distinct |
| DocLoaders.PermutedPicksBucket | load_ms_marco_into_postgres/load_ms_marco_passage_v2_to_postgres.py:128-133 | any permutation of picks over distinct labels holds 250 rows of each label, drawn from its pool |
| DocLoaders.SelectionBalanced | load_ms_marco_into_postgres/load_ms_marco_passage_v2_to_postgres.py:128-133 | a successful selection holds 1000 rows, only labels 0..3, exactly 250 of each, each drawn without repetition from that label's pool |
| DocLoaders.ExportQueriesOf | ms_marco_doc_v2_to_parquet_subset.py:112-120 | one query row per record, with the record's id, text and the split's dataset id |
| DocLoaders.ExportQrelsOf | ms_marco_doc_v2_to_parquet_subset.py:123-130 | one qrel row per record, a missing relevance read as 0 |
| DocLoaders.DocIdValues | ms_marco_doc_v2_to_parquet_subset.py:130 | the doc id of each exported qrel, in order |
| DocLoaders.ExportSplitQueries | ms_marco_doc_v2_to_csv_subset.py:100-104 | one split's query loop keeps the rows equal to the first occurrence of every query id so far, and `seen_queries` to all ids so far |
| DocLoaders.ExportSplitQrels | ms_marco_doc_v2_to_csv_subset.py:110-118 | one split's qrels loop appends every qrel and keeps the needed doc ids de-duplicated in first-seen order |
| DocLoaders.CollectExport | ms_marco_doc_v2_to_parquet_subset.py:102-130 | one dataset row per split; each query id once, from its first split; every qrel; the needed doc ids in first-seen order |
| DocLoaders.ExportDocsOf | ms_marco_doc_v2_to_parquet_subset.py:162-168 | one normalised doc row per fetched document |
| DocLoaders.ExportDocs | ms_marco_doc_v2_to_parquet_subset.py:144-175 | no split is the "No datasets loaded" RuntimeError, no docstore the "no docstore" one; otherwise the written row groups are non-empty and hold every fetched document of every 10000-id batch, in order |
| DocLoaders.ExportOnce | ms_marco_doc_v2_to_parquet_subset.py:102-130 | every exported query id appears once, from its first occurrence, and none is lost; the needed doc ids have no duplicate, are exactly the referenced ones in first-seen order, and their batches lose nothing |
| Labelling.Qids | llm_judging/run_personal_relevance_score.py:56 | the query id of each row, in order |
| Labelling.RowsOfSnoc | llm_judging/run_personal_relevance_score.py:52-53 | one more row joins exactly its own query's group, at the end |
| Labelling.QidsSnoc | llm_judging/run_personal_relevance_score.py:52-53 | one more row adds its query id at the end |
| Labelling.GroupByQid | llm_judging/run_personal_relevance_score.py:51-53 | `setdefault(...).append` gives each query id the group of its rows in order, and the keys in first-seen order |
| Labelling.ShuffledList | llm_judging/run_personal_relevance_score.py:57 | the list is shuffled by the given draws |
| Labelling.ShuffleGroups | llm_judging/run_personal_relevance_score.py:54-55 | every group, and no other key, is shuffled by its own draws |
| Labelling.BlocksSnoc | llm_judging/run_personal_relevance_score.py:59-60 | one more query id appends its shuffled group |
| Labelling.BuildRandomizedSequence | llm_judging/run_personal_relevance_score.py:50-61 | the method computes the randomized sequence: groups shuffled within, query order shuffled, groups concatenated |
| Labelling.LayOut | llm_judging/run_personal_relevance_score.py:58-60 | the extend loop concatenates the shuffled groups in query order |
| Labelling.AmongAdd | llm_judging/run_personal_relevance_score.py:51-60 | adding a query id adds exactly its rows |
| Labelling.AmongAll | llm_judging/run_personal_relevance_score.py:51-60 | with every query id included nothing is dropped |
| Labelling.BlocksMultiset | llm_judging/run_personal_relevance_score.py:58-60 | the concatenated groups hold exactly the rows of the ids laid out |
| Labelling.AmongNone | llm_judging/run_personal_relevance_score.py:58 | no ids, no rows |
| Labelling.DistinctPermutation | llm_judging/run_personal_relevance_score.py:56-57 | shuffled distinct ids stay distinct |
| Labelling.OnceCounted | llm_judging/run_personal_relevance_score.py:56 | a distinct list holds each element at most once |
| Labelling.TwiceCounted | llm_judging/run_personal_relevance_score.py:56 | an element at two positions is counted twice |
| Labelling.RandomizedPermutation | llm_judging/run_personal_relevance_score.py:50-61 | the randomized sequence is a permutation of the unlabelled rows |
| Labelling.ContiguousAppend | llm_judging/run_personal_relevance_score.py:59-60 | appending a group of a new query id keeps each query's rows contiguous |
| Labelling.BlocksContiguous | llm_judging/run_personal_relevance_score.py:58-60 | laying out distinct ids keeps each query's rows contiguous |
| Labelling.BlocksQids | llm_judging/run_personal_relevance_score.py:58-60 | the layout holds only rows of the ids laid out |
| Labelling.GroupQids | llm_judging/run_personal_relevance_score.py:55 | a shuffled group holds only its own query's rows |
| Labelling.RowsOfMembers | llm_judging/run_personal_relevance_score.py:53 | a group holds only input rows of its own query |
| Labelling.RandomizedContiguous | llm_judging/run_personal_relevance_score.py:50-61 | in the randomized sequence each query's passages are shown one after the other |
| Labelling.Answer | llm_judging/run_personal_relevance_score.py:27-31 | once input is exhausted (EOFError) the answer is "q" |
| Labelling.LabelValue | llm_judging/run_personal_relevance_score.py:114 | `int(ans)` of a label is its position in LABELS |
| Labelling.Classify | llm_judging/run_personal_relevance_score.py:97-114 | an answer scores exactly when it is one of LABELS (never q, b or s), with `int(ans)` |
| Labelling.ClassifyNormalised | llm_judging/run_personal_relevance_score.py:95-114 | after `strip().lower()`, q quits, b goes back, s skips and 0..3 score that value |
| Labelling.Move | llm_judging/run_personal_relevance_score.py:102-120 | a non-quit answer stays, advances by one, or returns to a position in the history |
| Labelling.MoveKeepsInv | llm_judging/run_personal_relevance_score.py:84-120 | inside the loop every answer keeps 0 <= i <= n and the history strictly increasing and below i |
| Labelling.BackUndoes | llm_judging/run_personal_relevance_score.py:102-108 | back after a skip or a label returns to the position and history before it |
| Labelling.BackAtStart | llm_judging/run_personal_relevance_score.py:102-105 | back with an empty history stays put |
| Labelling.Actions | llm_judging/run_personal_relevance_score.py:95 | one action per input line, classified from its answer |
| Labelling.RunStep | llm_judging/run_personal_relevance_score.py:84-120 | a non-quit answer inside the rows moves and writes once, then the loop continues |
| Labelling.RunKeepsInv | llm_judging/run_personal_relevance_score.py:84-120 | the whole loop keeps the position invariant, and every score written is a LABELS value for one of the rows |
| Labelling.ActionsScores | llm_judging/run_personal_relevance_score.py:111-114 | every score read from input is a LABELS value |
| Labelling.Turn | llm_judging/run_personal_relevance_score.py:95-120 | one iteration moves as `Move` says and writes the score exactly when the answer is a label |
| Labelling.LabelLoop | llm_judging/run_personal_relevance_score.py:82-120 | the while loop ends in the session the answer-by-answer run describes |
| Labelling.LoopStep | llm_judging/run_personal_relevance_score.py:84-120 | while rows remain and the answer is not q, input remains and the step keeps the invariant |
| Labelling.EarlyStopIsQuit | llm_judging/run_personal_relevance_score.py:97-100 | the loop stops before the last row only on a "q" answer (typed or at end of input) |
| Labelling.LabelWrites | llm_judging/run_personal_relevance_score.py:114-120 | labelling rows t..m writes one score per row |
| Labelling.LabelWritesCons | llm_judging/run_personal_relevance_score.py:114-120 | the first of those writes is row t with its score |
| Labelling.AllLabels | llm_judging/run_personal_relevance_score.py:84-120 | answering a label every time walks forward to the end of the rows or input, writing each row's score in order |
| Labelling.LabelSession | llm_judging/run_personal_relevance_score.py:63-125 | no unlabelled rows does nothing; otherwise the loop runs over the randomized sequence |
| Labelling.Dashes | llm_judging/run_personal_relevance_score.py:24 | `"-" * k` is k dashes, none for a negative k |
| Labelling.Bar | llm_judging/run_personal_relevance_score.py:22-25 | the bar is dashes, exactly min(`width`, max(len(title)+4, 20)) long (none for a negative width) |

## Left out

- Postgres plumbing: connecting, every `ensure_*schema` DDL statement, `ANALYZE`, cursors and SQL text. Tables are maps or row sequences, and a commit is a log entry or a saved copy. `scripts/llm_judging/passage_v2/db.py` is SQL plumbing of the same shape as `scripts/llm_judging/db.py`.
- The SQL queries behind `count_available_qrels`, `fetch_qrels`, the document script's fetch and `fetch_unlabeled` are not modelled. The tables they read are inputs, and only the limit handling and the row shapes they return are modelled.
- The network and model clients are not part of this model: `ollama.generate`/`show`/`pull`, `requests`, `huggingface_hub`, and the `ollama_client.py` and `hf_hub_client.py` wrappers. Each call is a function from the attempt number to an outcome. The HTTP session's lifetime and `close()` are left out.
- JSON and hashing are oracles. `json.loads` is a decoder parameter and `json.dumps` an encoder parameter. The `sha256` prompt hash is a parameter, and `secrets.choice` draws from a given pick function.
- `random.shuffle` and `random.sample` are Fisher–Yates runs over a draws function, so the model shows which results are possible, not Mersenne Twister's actual sequence for a given seed.
- The regular expressions are hand-written ASCII matchers. `str.lower`, `str.isdigit` and `str.strip` cover ASCII letters and digits and Python's whitespace set, with no Unicode case folding and no non-ASCII digits.
- Floating point is left out: `temperature` is a `real`, and percentages and agreement are exact `real` values. Float rounding and the formatting of those numbers are not modelled.
- Clocks, `time.sleep`, `str(timedelta)`, ETA estimates, logging, `print`, `textwrap.fill` and screen clearing are left out. Elapsed times are inputs and sleeping is a counter; of the display helpers only the `wrap_block` bar length is modelled.
- Corpus I/O is not part of this model:
  - downloading, tar/gzip streaming and `ir_datasets`;
  - the collection scan takes the stream of `(doc_id, text)` rows as input;
  - the Parquet and CSV writers are modelled as the rows they receive.
- `llm_judging/bt/logging_utils.py`, `llm_judging/bt/util/git.py`, the orchestration scripts (`sweep.py`, `run_multiple.py`, the `run.py` entry points) and the prompt templates are not part of this model. They are process state, subprocess calls or loops over configurations.
- The `old/` copies of the parsers, the HF client, the labelling tool and the loaders are byte-for-byte the same as the files cited, so each model covers both.
- `llm_judging/bt/llm.py` imports `parse_score_and_reason` from `llm_judging/bt/parsing.py`, which does not define it, so importing the module raises ImportError. Its retry and pull loops are still modelled as written, assuming the import succeeded.
- `start_run_from_cfg` (`llm_judging/bt/util/helpers.py:69-104`) passes keyword arguments that `bt/db.py`'s `start_run` does not accept, so it raises TypeError. `run_once` never reaches it, and it is not modelled further.
- `run_once` computes the window only to log it and never calls `ensure_official_guard`. The guard is modelled on its own, and `Pipeline.Preflight` and `Pipeline.RunOnceIntended` do not apply it either.
- Config.AsSettings: the client choice and the pipeline read the typed view of a loaded record. A field holding a value of another type, which Python keeps and which fails or not only where it is used, is not followed past loading.
- Pipeline.RunOnceIntended: the run key is the one the registry allocates, not the `run_key` argument of `run_once`.
- Pipeline.RunOnceIntended: as written, `fetch_items_with_window` (`llm_judging/bt/util/helpers.py:106-114`) calls `bt/db.py`'s `fetch_qrels(conn, data_schema, limit)` with `start=` and `end=` keywords it does not accept, so even with the AttributeError corrected the fetch raises TypeError whatever the settings hold. The corrected run instead fetches by the limit alone, ignoring the start and end that the comment "Fetch items with start/end/limit applied" promises; no windowed fetch exists in the source to model.
- Etl.Batches: the commit after each flushed batch is not a separate output; there is exactly one commit per batch returned.
- AuditStore.SortItems: `ORDER BY query_id, doc_id` is modelled as code-point order on the text ids (`AuditStore.StrLe`). The database's collation may order text differently, and the order of rows with equal ids is left to the database; the model keeps them in input order.
- PassageLoader.CollectDocsSubset: the RuntimeError message is modelled up to the count of missing ids. Its `; first few: [...]` suffix, the Python list repr of the first ten missing ids in sorted order, is not modelled.
- Client and connection closing on every exit path (`finally` blocks) is left out. Nothing in the model holds a resource.
- Integer width is not an issue: Python integers are unbounded, like Dafny's `int`.

## Findings

| source | as written | input that shows it | evidently intended | confidence | as-written member | corrected member |
|---|---|---|---|---|---|---|
| llm_judging/llm.py:19-33 | the pull loop breaks only when `i == retries`, so with `retries <= 0` the single failed pull is followed by a pause before the RuntimeError (the same code is in scripts/llm_judging/llm.py) | `retries = 0`, model missing locally, the pull fails | no pause after the last pull, as `llm_judging/bt/llm.py:36-38` does with `i < retries` | not executed | ModelPull.ZeroRetriesPauseAfterLastPull | ModelPull.EnsureModelDownloadedBt |
| llm_judging/bt/pipeline.py:60 | `run_once` reads `cfg.start_qrel` and `cfg.end_qrel`, which the `Settings` dataclass (llm_judging/bt/config.py:18-50) does not declare, so every run fails with AttributeError before the run row is created | the default `Settings()` | the window is validated from settings that carry a start and an end, and the loop runs over the items fetched by the limit (the windowed fetch itself raises TypeError as written; see "## Left out") | not executed | Pipeline.DefaultRunFails | Pipeline.RunOnceIntended |
