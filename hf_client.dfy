/**
 * The Hugging Face inference-endpoint client, llm_judging/bt/llm/hf_client.py.
 *
 * One call posts the prompt with the generation parameters, pulls the
 * generated text out of whichever response shape the endpoint uses, and
 * parses score and reason from it; a read timeout is a miss rather than
 * an error. `Judge` repeats the call through `Retry.CallWithRetry`.
 *
 * The HTTP exchange is the parameter `send`: `send(k)` is what posting
 * `BuildRequest(s, prompt)` gives on attempt k. The clock is `elapsed(k)`,
 * the milliseconds attempt k reports.
 */
module HfClient {
  import opened Common
  import opened PyJson
  import opened Retry
  import opened ResponseParsing
  import opened Config

  /** `model_label`: the endpoint URL, or the model name when no URL is set. */
  function ModelLabel(s: Settings): (r: string)
    ensures s.hfEndpointUrl.Some? && s.hfEndpointUrl.value != "" ==> r == "hf_endpoint:" + s.hfEndpointUrl.value
    ensures s.hfEndpointUrl.None? || s.hfEndpointUrl.value == "" ==> r == "hf_endpoint:" + s.model
  {
    "hf_endpoint:" + (if s.hfEndpointUrl.Some? && s.hfEndpointUrl.value != "" then s.hfEndpointUrl.value else s.model)
  }

  // ---------------------------------------------------------------------
  // The request

  datatype Parameters = Parameters(
    temperature: real, maxNewTokens: int, returnFullText: bool,
    topP: Option<real>, topK: Option<int>, repetitionPenalty: Option<real>)

  datatype Request = Request(
    url: Option<string>, headers: seq<(string, string)>, inputs: string,
    parameters: Parameters, connectTimeoutS: real, readTimeoutS: Option<real>)

  /** The read timeout in seconds: only a positive millisecond setting gives one. */
  function ReadTimeout(ms: Option<int>): (r: Option<real>)
    ensures r.Some? <==> ms.Some? && ms.value > 0
    ensures r.Some? ==> r.value * 1000.0 == ms.value as real
  {
    if ms.Some? && ms.value > 0 then Some(ms.value as real / 1000.0) else None
  }

  /** The headers: always `Accept`, and a bearer token when one is set. */
  function Headers(token: Option<string>): (r: seq<(string, string)>)
    ensures 1 <= |r| <= 2 && r[0] == ("Accept", "application/json")
    ensures |r| == 2 <==> token.Some? && token.value != ""
    ensures |r| == 2 ==> r[1] == ("Authorization", "Bearer " + token.value)
  {
    if token.Some? && token.value != "" then
      [("Accept", "application/json"), ("Authorization", "Bearer " + token.value)]
    else [("Accept", "application/json")]
  }

  /**
   * The POST of `_single_call`: the prompt as `inputs`, the settings'
   * temperature and token budget, `return_full_text` off, and each optional
   * sampling parameter only when it is set; 5 s to connect.
   */
  function BuildRequest(s: Settings, prompt: string): (r: Request)
    ensures r.url == s.hfEndpointUrl && r.inputs == prompt
    ensures r.headers == Headers(s.hfApiToken)
    ensures r.parameters.temperature == s.temperature && r.parameters.maxNewTokens == s.maxNewTokens
    ensures !r.parameters.returnFullText
    ensures r.parameters.topP == s.topP && r.parameters.topK == s.topK
    ensures r.parameters.repetitionPenalty == s.repetitionPenalty
    ensures r.connectTimeoutS == 5.0 && r.readTimeoutS == ReadTimeout(s.llmTimeoutMs)
  {
    Request(s.hfEndpointUrl, Headers(s.hfApiToken), prompt,
            Parameters(s.temperature, s.maxNewTokens, false, s.topP, s.topK, s.repetitionPenalty),
            5.0, ReadTimeout(s.llmTimeoutMs))
  }

  // ---------------------------------------------------------------------
  // The response

  /** `d.get(key) or ""`. */
  function OrEmpty(v: Option<Json>): (r: Json)
    ensures r == JStr("") || (v.Some? && r == v.value && Truthy(r))
  {
    if v.Some? && Truthy(v.value) then v.value else JStr("")
  }

  /**
   * `_extract_text`: `[{"generated_text"|"text": …}]`, or a dict with
   * "generated_text", "output_text", or "outputs": [{"content"|
   * "generated_text": …}], tried in that order; "" otherwise. The value is
   * returned as found, so it need not be a string.
   */
  function ExtractText(data: Json): (r: Json)
    ensures r == JStr("") || Truthy(r)
  {
    if data.JArr? && |data.items| > 0 && data.items[0].JObj?
       && (HasKey(data.items[0].members, "generated_text") || HasKey(data.items[0].members, "text")) then
      var item := data.items[0].members;
      if HasKey(item, "generated_text") then OrEmpty(Get(item, "generated_text"))
      else OrEmpty(Get(item, "text"))
    else if data.JObj? then
      var d := data.members;
      if HasKey(d, "generated_text") then OrEmpty(Get(d, "generated_text"))
      else if HasKey(d, "output_text") then OrEmpty(Get(d, "output_text"))
      else
        var outs := Get(d, "outputs");
        if outs.Some? && outs.value.JArr? && |outs.value.items| > 0 && outs.value.items[0].JObj? then
          var c := outs.value.items[0].members;
          if HasKey(c, "content") then OrEmpty(Get(c, "content"))
          else if HasKey(c, "generated_text") then OrEmpty(Get(c, "generated_text"))
          else JStr("")
        else JStr("")
    else JStr("")
  }

  /** The four response shapes the client recognises all yield their text. */
  lemma ExtractTextShapes(t: string)
    ensures ExtractText(JArr([JObj([("generated_text", JStr(t))])])) == JStr(t)
    ensures ExtractText(JArr([JObj([("text", JStr(t))])])) == JStr(t)
    ensures ExtractText(JObj([("generated_text", JStr(t))])) == JStr(t)
    ensures ExtractText(JObj([("output_text", JStr(t))])) == JStr(t)
    ensures ExtractText(JObj([("outputs", JArr([JObj([("content", JStr(t))])]))])) == JStr(t)
  {
    assert [("generated_text", JStr(t))][0].0 == "generated_text";
    assert [("text", JStr(t))][0].0 == "text";
    assert [("output_text", JStr(t))][0].0 == "output_text";
    assert [("content", JStr(t))][0].0 == "content";
    assert !HasKey([("output_text", JStr(t))], "generated_text");
    assert !HasKey([("outputs", JArr([JObj([("content", JStr(t))])]))], "generated_text");
    assert !HasKey([("outputs", JArr([JObj([("content", JStr(t))])]))], "output_text");
  }

  // ---------------------------------------------------------------------
  // One call

  /** What one POST gives: a read timeout, a decoded body, or another exception. */
  datatype Transport = TimedOut | Answered(data: Json) | Failed(repr: string)

  const TimeoutRaw := JObj([("provider", JStr("hf_endpoint")), ("error", JStr("timeout"))])

  function AnswerRaw(data: Json, text: Json): Json
  {
    JObj([("provider", JStr("hf_endpoint")), ("hf", data), ("response_text", text)])
  }

  /**
   * `_single_call`: a timeout is a miss with an error marker; a body whose
   * text is not a string makes the parser's `strip` raise; otherwise the
   * text is parsed. Any other exception escapes.
   */
  function SingleCall(t: Transport, elapsedMs: int, decode: Decoder): (o: Outcome)
    ensures t.TimedOut? ==> o == Returned(CallResult(None, None, TimeoutRaw, elapsedMs))
    ensures t.Failed? ==> o == Raised(t.repr)
    ensures t.Answered? && ExtractText(t.data).JStr? ==>
              o == Returned(CallResult(ParseScoreAndReason(ExtractText(t.data).s, decode).0,
                                       ParseScoreAndReason(ExtractText(t.data).s, decode).1,
                                       AnswerRaw(t.data, ExtractText(t.data)), elapsedMs))
    ensures t.Answered? && !ExtractText(t.data).JStr? ==> o.Raised?
    ensures o.Returned? ==> o.result.raw.JObj? && Truthy(o.result.raw)
    ensures o.Returned? && o.result.pred.Some? ==> 0 <= o.result.pred.value <= 3
  {
    match t
    case TimedOut => Returned(CallResult(None, None, TimeoutRaw, elapsedMs))
    case Failed(repr) => Raised(repr)
    case Answered(data) =>
      var text := ExtractText(data);
      if !text.JStr? then Raised("AttributeError('strip')")
      else
        var p := ParseScoreAndReason(text.s, decode);
        Returned(CallResult(p.0, p.1, AnswerRaw(data, text), elapsedMs))
  }

  /** The provider as `call_with_retry` sees it: attempt k is one single call. */
  function Attempt(send: nat -> Transport, elapsed: nat -> int, decode: Decoder): nat -> Outcome
  {
    (k: nat) => SingleCall(send(k), elapsed(k), decode)
  }

  /** A single call that returns without a prediction is a miss the retry loop moves past. */
  lemma ReturnedIsMissed(t: Transport, elapsedMs: int, decode: Decoder)
    requires SingleCall(t, elapsedMs, decode).Returned? && SingleCall(t, elapsedMs, decode).result.pred.None?
    ensures Missed(SingleCall(t, elapsedMs, decode))
  {
  }

  /**
   * `judge`: single calls under the settings' retry policy. Every result is
   * a dict, so the only failure is an exception from the transport or the
   * parser; a prediction is a grade 0..3; and when every attempt times out
   * the result is the timeout marker after the full number of attempts.
   */
  method Judge(s: Settings, send: nat -> Transport, elapsed: nat -> int, decode: Decoder)
    returns (r: Result<CallResult, Exc>, calls: nat, ghost sleptMs: int)
    ensures 1 <= calls <= Limit(s.retryAttempts, s.retryEnabled)
    ensures r.Failure? ==> r.error.ProviderError? && SingleCall(send(calls - 1), elapsed(calls - 1), decode).Raised?
    ensures r.Success? && r.value.pred.Some? ==> 0 <= r.value.pred.value <= 3
    ensures forall j :: 0 <= j < calls - 1 ==>
              SingleCall(send(j), elapsed(j), decode).Returned?
              && SingleCall(send(j), elapsed(j), decode).result.pred.None?
    ensures (forall k :: send(k).TimedOut?) ==>
              && calls == Limit(s.retryAttempts, s.retryEnabled)
              && r.Success? && r.value.pred.None? && r.value.reason.None? && r.value.raw == TimeoutRaw
  {
    var call := Attempt(send, elapsed, decode);
    r, calls, sleptMs := CallWithRetry(call, s.retryAttempts, s.retryEnabled, s.retryBackoffMs);
    var last := SingleCall(send(calls - 1), elapsed(calls - 1), decode);
    assert call(calls - 1) == last;
    forall j | 0 <= j < calls - 1
      ensures SingleCall(send(j), elapsed(j), decode).Returned?
              && SingleCall(send(j), elapsed(j), decode).result.pred.None?
    {
      assert Missed(call(j)) && call(j) == SingleCall(send(j), elapsed(j), decode);
    }
    if last.Returned? && last.result.pred.None? {
      ReturnedIsMissed(send(calls - 1), elapsed(calls - 1), decode);
    }
    if forall k :: send(k).TimedOut? {
      assert send(calls - 1).TimedOut?;
    }
  }
}
