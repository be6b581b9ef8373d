/**
 * The older Ollama judge calls and their parsers.
 *
 * llm_judging/bt/parsing.py and llm_judging/llm.py find the JSON object
 * greedily, from the first `{` to the last `}` (the regex `\{.*\}` with
 * DOTALL), and accept it only if that whole span decodes.
 * llm_judging/llm.py then reads `obj["score"]` (exact key) and
 * `obj.get("reason")`. scripts/llm_judging/llm.py decodes the whole answer
 * instead, as do
 * scripts/llm_judging/passage_v2/llm.py and
 * scripts/llm_judging/doc_v2/llm_judge_doc_v2.py, which keep the score only.
 *
 * Decoding is the parameter `decode`; `show` stands for Python's `str()` of
 * a list or dict reason.
 */
module GreedyParsing {
  import opened Common
  import opened PyJson
  import opened Retry

  type Decoder = string -> Option<Json>

  /**
   * The match of `\{.*\}` (DOTALL): from the first `{` to the last `}`, when
   * a `}` follows the first `{`.
   */
  function GreedySpan(text: string): (r: Option<string>)
    ensures r.Some? ==> FirstIndex(text, '{').Some? && LastIndex(text, '}').Some?
                        && var a := FirstIndex(text, '{').value; var b := LastIndex(text, '}').value;
                        a < b && r.value == text[a..b + 1]
    ensures r.Some? ==> |r.value| >= 2 && r.value[0] == '{' && r.value[|r.value| - 1] == '}'
    ensures r.None? <==> (FirstIndex(text, '{').None? || LastIndex(text, '}').None?
                           || LastIndex(text, '}').value < FirstIndex(text, '{').value)
  {
    var a := FirstIndex(text, '{');
    var b := LastIndex(text, '}');
    if a.Some? && b.Some? && a.value < b.value then Some(text[a.value..b.value + 1]) else None
  }

  /** `extract_json_block` of llm_judging/bt/parsing.py and llm_judging/llm.py: the greedy span if it decodes. */
  function ExtractJsonBlockGreedy(text: string, decode: Decoder): (r: Option<string>)
    ensures r.Some? ==> r == GreedySpan(text) && decode(r.value).Some?
    ensures GreedySpan(text).Some? && decode(GreedySpan(text).value).Some? ==> r.Some?
  {
    var m := GreedySpan(text);
    if m.Some? && decode(m.value).Some? then m else None
  }

  /** `str(reason)` for a non-None reason; `show` is `str()` of a list or dict. */
  function ReasonText(v: Json, show: Json -> string): (r: Option<string>)
    ensures v.JNull? <==> r.None?
    ensures v.JStr? ==> r == Some(v.s)
  {
    if v.JNull? then None
    else if ScalarText(v).Some? then ScalarText(v)
    else Some(show(v))
  }

  /** `int(obj["score"])` succeeds: `obj` is a dict with an exact "score" key that coerces. */
  predicate ScoreCoerces(obj: Option<Json>)
  {
    && obj.Some? && obj.value.JObj? && Get(obj.value.members, "score").Some?
    && CoerceInt(Get(obj.value.members, "score").value).Some?
  }

  /**
   * The shared tail of the older `_single_call`s, once `json.loads` has
   * given `obj` (None when it raised): `int(obj["score"])` must succeed,
   * the reason is `obj.get("reason")` as text, and an out-of-range score is
   * dropped while its reason is kept. Any exception gives (None, None).
   */
  function ScoreFromObject(obj: Option<Json>, show: Json -> string): (r: (Option<int>, Option<string>))
    ensures r.0.Some? ==> 0 <= r.0.value <= 3
    ensures r.0.Some? <==>
              && ScoreCoerces(obj)
              && 0 <= CoerceInt(Get(obj.value.members, "score").value).value <= 3
    ensures r.0.Some? ==> r.0 == CoerceInt(Get(obj.value.members, "score").value)
    ensures ScoreCoerces(obj) ==>
              r.1 == (if Get(obj.value.members, "reason").Some?
                      then ReasonText(Get(obj.value.members, "reason").value, show) else None)
    ensures !ScoreCoerces(obj) ==> r == (None, None)
  {
    if obj.None? || !obj.value.JObj? then (None, None)
    else
      var members := obj.value.members;
      var score := Get(members, "score");
      if score.None? then (None, None)
      else
        var n := CoerceInt(score.value);
        if n.None? then (None, None)
        else
          var reasonVal := Get(members, "reason");
          var reason := if reasonVal.None? then None else ReasonText(reasonVal.value, show);
          if 0 <= n.value <= 3 then (Some(n.value), reason) else (None, reason)
  }

  /** An out-of-range score is dropped, but a reason given with it is kept. */
  lemma OutOfRangeKeepsReason(n: int, reason: string, show: Json -> string)
    requires n < 0 || n > 3
    ensures ScoreFromObject(Some(JObj([("score", JInt(n)), ("reason", JStr(reason))])), show) == (None, Some(reason))
  {
    var ms := [("score", JInt(n)), ("reason", JStr(reason))];
    assert Get(ms, "score") == Some(JInt(n));
    assert Get(ms, "reason") == Some(JStr(reason));
  }

  /** The raw record of an Ollama answer: its metadata without "response", and the text. */
  function OllamaRaw(meta: seq<(string, Json)>, text: string): (r: Json)
    ensures r.JObj? && |r.members| == 2
    ensures Get(r.members, "response_text") == Some(JStr(text))
    ensures Get(r.members, "ollama").Some? && Get(r.members, "ollama").value.JObj?
    ensures !HasKey(Get(r.members, "ollama").value.members, "response")
  {
    JObj([("ollama", JObj(RemoveKey(meta, "response"))), ("response_text", JStr(text))])
  }

  /** `_single_call` of llm_judging/llm.py: greedy block, then the shared tail. */
  function LegacySingleCall(text: string, meta: seq<(string, Json)>, elapsedMs: int,
                            decode: Decoder, show: Json -> string): (r: CallResult)
    ensures r.raw == OllamaRaw(meta, text) && r.ms == elapsedMs
    ensures ExtractJsonBlockGreedy(text, decode).None? ==> r.pred.None? && r.reason.None?
    ensures ExtractJsonBlockGreedy(text, decode).Some? ==>
              (r.pred, r.reason) == ScoreFromObject(decode(GreedySpan(text).value), show)
    ensures r.pred.Some? ==> 0 <= r.pred.value <= 3
  {
    var block := ExtractJsonBlockGreedy(text, decode);
    var parsed := if block.None? then (None, None) else ScoreFromObject(decode(block.value), show);
    CallResult(parsed.0, parsed.1, OllamaRaw(meta, text), elapsedMs)
  }

  /** `_single_call` of scripts/llm_judging/llm.py: the whole answer must decode. */
  function StrictSingleCall(text: string, meta: seq<(string, Json)>, elapsedMs: int,
                            decode: Decoder, show: Json -> string): (r: CallResult)
    ensures r.raw == OllamaRaw(meta, text) && r.ms == elapsedMs
    ensures decode(text).None? ==> r.pred.None? && r.reason.None?
    ensures (r.pred, r.reason) == ScoreFromObject(decode(text), show)
    ensures r.pred.Some? ==> 0 <= r.pred.value <= 3
  {
    var parsed := ScoreFromObject(decode(text), show);
    CallResult(parsed.0, parsed.1, OllamaRaw(meta, text), elapsedMs)
  }

  /**
   * `judge_with_ollama` of scripts/llm_judging/passage_v2/llm.py and of
   * scripts/llm_judging/doc_v2/llm_judge_doc_v2.py: the score of a strictly
   * decoded answer, with no reason and no retry.
   */
  function StrictScore(text: string, decode: Decoder): (r: Option<int>)
    ensures r.Some? ==> 0 <= r.value <= 3
  {
    var obj := decode(text);
    if obj.None? || !obj.value.JObj? then None
    else
      var score := Get(obj.value.members, "score");
      if score.None? then None
      else
        var n := CoerceInt(score.value);
        if n.Some? && 0 <= n.value <= 3 then n else None
  }

  /** The score-only judges agree with the strict parser's score, whatever the reason. */
  lemma StrictScoreAgrees(text: string, decode: Decoder, show: Json -> string)
    ensures StrictScore(text, decode) == ScoreFromObject(decode(text), show).0
  {
  }

  /**
   * With two objects in one answer, the greedy span runs from the first
   * object's `{` to the second's `}`, covering both and whatever lies
   * between; when that whole text does not decode, nothing is extracted.
   */
  lemma GreedySpanCoversBoth(a: string, gap: string, b: string, decode: Decoder)
    requires |a| >= 1 && a[0] == '{' && |b| >= 1 && b[|b| - 1] == '}'
    ensures GreedySpan(a + gap + b) == Some(a + gap + b)
    ensures decode(a + gap + b).None? ==> ExtractJsonBlockGreedy(a + gap + b, decode).None?
  {
    var t := a + gap + b;
    assert t[0] == '{' && t[|t| - 1] == '}';
    assert FirstIndex(t, '{') == Some(0);
    assert LastIndex(t, '}') == Some(|t| - 1);
    assert t[0..|t|] == t;
  }
}
