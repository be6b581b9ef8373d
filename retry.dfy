/**
 * Retrying a judge call.
 *
 * `CallWithRetry` is llm_judging/bt/call.py: the provider's single call is
 * repeated while it returns no prediction, exceptions escape, and the pause
 * between attempts is clamped at zero. `JudgeWithOllama` is the loop written
 * out inline in llm_judging/llm.py, llm_judging/bt/llm.py and
 * scripts/llm_judging/llm.py (the same loop in all three): there an
 * exception from the single call is caught and recorded, and the pause is
 * not clamped, so a negative backoff makes `time.sleep` raise.
 *
 * The provider is the parameter `call`: `call(k)` is what the k-th call
 * (from 0) returns or raises. Sleeping is a ghost count.
 */
module Retry {
  import opened Common
  import opened PyJson

  /** One call's result: (pred, reason, raw, ms). */
  datatype CallResult = CallResult(pred: Option<int>, reason: Option<string>, raw: Json, ms: int)

  /** What one call to the provider does: return a result or raise (with `repr(e)`). */
  datatype Outcome = Returned(result: CallResult) | Raised(repr: string)

  /** `max(1, attempts)` when retrying is on, a single call otherwise. */
  function Limit(attempts: int, enabled: bool): (n: nat)
    ensures n >= 1
  {
    if !enabled || attempts < 1 then 1 else attempts
  }

  /** `raw or {}`. */
  function RawOrEmpty(raw: Json): (r: Json)
    ensures Truthy(raw) ==> r == raw
    ensures !Truthy(raw) ==> r == JObj([])
  {
    if Truthy(raw) then raw else JObj([])
  }

  // ---------------------------------------------------------------------
  // bt/call.py

  /**
   * An attempt after which `call_with_retry` goes on: a returned result
   * without a prediction whose raw value supports `.get` (a dict, or a
   * falsy value replaced by `{}`).
   */
  predicate Missed(o: Outcome)
  {
    o.Returned? && o.result.pred.None? && (!Truthy(o.result.raw) || o.result.raw.JObj?)
  }

  /** Milliseconds reported by the first `k` calls, all of which returned. */
  function ReportedMs(call: nat -> Outcome, k: nat): int
  {
    if k == 0 then 0
    else ReportedMs(call, k - 1) + (if call(k - 1).Returned? then call(k - 1).result.ms else 0)
  }

  /**
   * `call_with_retry`: at most `Limit(attempts, enabled)` calls, stopping at
   * the first prediction; the result carries the summed milliseconds, and
   * when every attempt misses, the last reason and the last raw value (or
   * `{}`). A raised exception escapes unchanged. A raw value that is truthy
   * but not a dict makes the loop's `raw.get` raise.
   */
  method CallWithRetry(call: nat -> Outcome, attempts: int, enabled: bool, backoffMs: int)
    returns (r: Result<CallResult, Exc>, calls: nat, ghost sleptMs: int)
    ensures 1 <= calls <= Limit(attempts, enabled)
    ensures forall j :: 0 <= j < calls - 1 ==> Missed(call(j))
    ensures sleptMs == (calls - 1) * (if backoffMs < 0 then 0 else backoffMs)
    ensures call(calls - 1).Raised? ==> r == Failure(ProviderError(call(calls - 1).repr))
    ensures call(calls - 1).Returned? && call(calls - 1).result.pred.Some? ==>
              r == Success(call(calls - 1).result.(ms := ReportedMs(call, calls)))
    ensures call(calls - 1).Returned? && call(calls - 1).result.pred.None? && !Missed(call(calls - 1)) ==>
              r == Failure(AttributeError("get"))
    ensures Missed(call(calls - 1)) ==>
              && calls == Limit(attempts, enabled)
              && r == Success(CallResult(None, call(calls - 1).result.reason,
                                         RawOrEmpty(call(calls - 1).result.raw), ReportedMs(call, calls)))
  {
    var n := if attempts < 1 then 1 else attempts;
    var total := 0;
    var i := 1;
    sleptMs := 0;
    while true
      invariant 1 <= i <= n
      invariant i > 1 ==> enabled
      invariant forall j :: 0 <= j < i - 1 ==> Missed(call(j))
      invariant total == ReportedMs(call, i - 1)
      invariant sleptMs == (i - 1) * (if backoffMs < 0 then 0 else backoffMs)
      decreases n - i
    {
      var o := call(i - 1);
      calls := i;
      if o.Raised? {
        return Failure(ProviderError(o.repr)), calls, sleptMs;
      }
      var res := o.result;
      total := total + res.ms;
      if res.pred.Some? {
        return Success(res.(ms := total)), calls, sleptMs;
      }
      if Truthy(res.raw) && !res.raw.JObj? {
        return Failure(AttributeError("get")), calls, sleptMs;
      }
      if !enabled || i == n {
        return Success(CallResult(None, res.reason, RawOrEmpty(res.raw), total)), calls, sleptMs;
      }
      sleptMs := sleptMs + (if backoffMs < 0 then 0 else backoffMs);
      i := i + 1;
    }
  }

  // ---------------------------------------------------------------------
  // The inline loops of judge_with_ollama

  predicate NoPrediction(o: Outcome)
  {
    o.Raised? || o.result.pred.None?
  }

  /** The raw value an attempt leaves behind: its own, or `{"error": repr(e)}`. */
  function AttemptRaw(o: Outcome): Json
  {
    if o.Raised? then JObj([("error", JStr(o.repr))]) else o.result.raw
  }

  /** The reason of the latest of the first `k` calls that returned. */
  function LastReason(call: nat -> Outcome, k: nat): Option<string>
  {
    if k == 0 then None
    else if call(k - 1).Returned? then call(k - 1).result.reason
    else LastReason(call, k - 1)
  }

  /**
   * `judge_with_ollama`: like `CallWithRetry`, but an exception counts as a
   * miss (recorded as `{"error": repr(e)}`, adding no time and keeping the
   * previous reason), and a negative backoff makes the first pause raise
   * ValueError.
   */
  method JudgeWithOllama(call: nat -> Outcome, attempts: int, enabled: bool, backoffMs: int)
    returns (r: Result<CallResult, Exc>, calls: nat, ghost sleeps: nat)
    ensures 1 <= calls <= Limit(attempts, enabled)
    ensures forall j :: 0 <= j < calls - 1 ==> NoPrediction(call(j))
    ensures sleeps == calls - 1
    ensures !NoPrediction(call(calls - 1)) ==> r == Success(call(calls - 1).result.(ms := ReportedMs(call, calls)))
    ensures NoPrediction(call(calls - 1)) && r.Success? ==>
              && calls == Limit(attempts, enabled)
              && r.value == CallResult(None, LastReason(call, calls),
                                       RawOrEmpty(AttemptRaw(call(calls - 1))), ReportedMs(call, calls))
    ensures r.Failure? <==> backoffMs < 0 && Limit(attempts, enabled) > 1 && NoPrediction(call(0)) && calls == 1
    ensures r.Failure? ==> r.error.ValueError?
  {
    var n := if attempts < 1 then 1 else attempts;
    var total := 0;
    var lastRaw: Option<Json> := None;
    var lastReason: Option<string> := None;
    var i := 1;
    sleeps := 0;
    while true
      invariant 1 <= i <= n
      invariant i > 1 ==> enabled && backoffMs >= 0
      invariant forall j :: 0 <= j < i - 1 ==> NoPrediction(call(j))
      invariant total == ReportedMs(call, i - 1)
      invariant lastReason == LastReason(call, i - 1)
      invariant sleeps == i - 1
      decreases n - i
    {
      var o := call(i - 1);
      calls := i;
      if o.Returned? {
        var res := o.result;
        total := total + res.ms;
        lastRaw := Some(res.raw);
        lastReason := res.reason;
        if res.pred.Some? {
          return Success(res.(ms := total)), calls, sleeps;
        }
      } else {
        total := total + 0;
        lastRaw := Some(JObj([("error", JStr(o.repr))]));
      }
      if !enabled || i == n {
        return Success(CallResult(None, lastReason, RawOrEmpty(lastRaw.value), total)), calls, sleeps;
      }
      if backoffMs < 0 {
        return Failure(ValueError("sleep length must be non-negative")), calls, sleeps;
      }
      sleeps := sleeps + 1;
      i := i + 1;
    }
  }
}

/**
 * `ensure_model_downloaded`: make sure the Ollama model is present, pulling
 * it up to `max(1, retries)` times. llm_judging/llm.py and
 * scripts/llm_judging/llm.py stop retrying when the attempt number equals
 * `retries`; llm_judging/bt/llm.py pauses only while it is below `retries`.
 * The two agree for `retries >= 1`; for `retries <= 0` the first pair pauses
 * once after the only, failed, pull.
 *
 * `present` says whether the first `ollama.show` succeeds; `pulls(k)`
 * whether the k-th pull (from 0) and the check after it succeed, and
 * `errs(k)` is the repr of the exception that attempt raised otherwise.
 */
module ModelPull {
  import opened Common

  /** Which source's rule decides whether to pause after failed attempt `i`. */
  datatype PauseRule = BreakAtRetries | PauseBelowRetries

  predicate PausesAfter(rule: PauseRule, i: int, retries: int)
  {
    match rule
    case BreakAtRetries => i != retries
    case PauseBelowRetries => i < retries
  }

  datatype PullReport = PullReport(outcome: Result<(), Exc>, attempts: nat, pauses: nat)

  function PullLimit(retries: int): (n: nat)
    ensures n >= 1
  {
    if retries < 1 then 1 else retries
  }

  /** `RuntimeError(f"Failed to ensure model '{model}' is available: {last_err!r}")`. */
  function PullFailed(model: string, lastErr: string): Exc
  {
    RuntimeError("Failed to ensure model '" + model + "' is available: " + lastErr)
  }

  /** The run of pull attempts from attempt `i` (1-based) on. */
  function PullsFrom(rule: PauseRule, pulls: nat -> bool, model: string, errs: nat -> string, retries: int, backoffMs: int, i: nat): (r: PullReport)
    requires 1 <= i <= PullLimit(retries)
    ensures i <= r.attempts <= PullLimit(retries)
    decreases PullLimit(retries) - i
  {
    if pulls(i - 1) then PullReport(Success(()), i, 0)
    else if !PausesAfter(rule, i, retries) then
      if i == PullLimit(retries) then PullReport(Failure(PullFailed(model, errs(i - 1))), i, 0)
      else PullsFrom(rule, pulls, model, errs, retries, backoffMs, i + 1)
    else if backoffMs < 0 then PullReport(Failure(ValueError("sleep length must be non-negative")), i, 0)
    else if i == PullLimit(retries) then PullReport(Failure(PullFailed(model, errs(i - 1))), i, 1)
    else
      var rest := PullsFrom(rule, pulls, model, errs, retries, backoffMs, i + 1);
      rest.(pauses := rest.pauses + 1)
  }

  /** The whole of `ensure_model_downloaded` under a pause rule. */
  function PullRun(rule: PauseRule, present: bool, pulls: nat -> bool, model: string, errs: nat -> string, retries: int, backoffMs: int): PullReport
  {
    if present then PullReport(Success(()), 0, 0)
    else PullsFrom(rule, pulls, model, errs, retries, backoffMs, 1)
  }

  /** The loop shared by the three sources, with the pause rule as a parameter. */
  method PullLoop(rule: PauseRule, present: bool, pulls: nat -> bool, model: string, errs: nat -> string, retries: int, backoffMs: int)
    returns (r: Result<(), Exc>, attempts: nat, ghost pauses: nat)
    ensures PullReport(r, attempts, pauses) == PullRun(rule, present, pulls, model, errs, retries, backoffMs)
  {
    if present {
      return Success(()), 0, 0;
    }
    var n := if retries < 1 then 1 else retries;
    var i := 1;
    pauses := 0;
    while true
      invariant 1 <= i <= n
      invariant var rest := PullsFrom(rule, pulls, model, errs, retries, backoffMs, i);
        PullRun(rule, present, pulls, model, errs, retries, backoffMs) == rest.(pauses := rest.pauses + pauses)
      decreases n - i
    {
      attempts := i;
      if pulls(i - 1) {
        return Success(()), attempts, pauses;
      }
      if PausesAfter(rule, i, retries) {
        if backoffMs < 0 {
          return Failure(ValueError("sleep length must be non-negative")), attempts, pauses;
        }
        pauses := pauses + 1;
      }
      if i == n {
        return Failure(PullFailed(model, errs(i - 1))), attempts, pauses;
      }
      i := i + 1;
    }
  }

  /** llm_judging/llm.py and scripts/llm_judging/llm.py. */
  method EnsureModelDownloaded(present: bool, pulls: nat -> bool, model: string, errs: nat -> string, retries: int, backoffMs: int)
    returns (r: Result<(), Exc>, attempts: nat, ghost pauses: nat)
    ensures PullReport(r, attempts, pauses) == PullRun(BreakAtRetries, present, pulls, model, errs, retries, backoffMs)
  {
    r, attempts, pauses := PullLoop(BreakAtRetries, present, pulls, model, errs, retries, backoffMs);
  }

  /** llm_judging/bt/llm.py. */
  method EnsureModelDownloadedBt(present: bool, pulls: nat -> bool, model: string, errs: nat -> string, retries: int, backoffMs: int)
    returns (r: Result<(), Exc>, attempts: nat, ghost pauses: nat)
    ensures PullReport(r, attempts, pauses) == PullRun(PauseBelowRetries, present, pulls, model, errs, retries, backoffMs)
  {
    r, attempts, pauses := PullLoop(PauseBelowRetries, present, pulls, model, errs, retries, backoffMs);
  }

  /**
   * With a non-negative backoff the model ends up available exactly when
   * it was present or one of the first `max(1, retries)` pulls succeeds, and
   * a failure is the RuntimeError naming the model and the last pull's
   * error; otherwise failed pulls are followed by
   * their pauses only.
   */
  lemma {:induction false} PullsFromOutcome(rule: PauseRule, pulls: nat -> bool, model: string, errs: nat -> string, retries: int, backoffMs: int, i: nat)
    requires 1 <= i <= PullLimit(retries) && backoffMs >= 0
    ensures var r := PullsFrom(rule, pulls, model, errs, retries, backoffMs, i);
      && (r.outcome.Success? <==> exists k :: i - 1 <= k < PullLimit(retries) && pulls(k))
      && (r.outcome.Success? ==> pulls(r.attempts - 1) && forall k :: i - 1 <= k < r.attempts - 1 ==> !pulls(k))
      && (r.outcome.Failure? ==>
            && r.attempts == PullLimit(retries)
            && r.outcome.error == PullFailed(model, errs(PullLimit(retries) - 1)))
    decreases PullLimit(retries) - i
  {
    if !pulls(i - 1) && i < PullLimit(retries) {
      PullsFromOutcome(rule, pulls, model, errs, retries, backoffMs, i + 1);
    }
  }

  lemma PullRunOutcome(rule: PauseRule, present: bool, pulls: nat -> bool, model: string, errs: nat -> string, retries: int, backoffMs: int)
    requires backoffMs >= 0
    ensures var r := PullRun(rule, present, pulls, model, errs, retries, backoffMs);
      && (r.outcome.Success? <==> present || exists k :: 0 <= k < PullLimit(retries) && pulls(k))
      && (r.outcome.Failure? ==>
            && r.attempts == PullLimit(retries)
            && r.outcome.error == PullFailed(model, errs(PullLimit(retries) - 1)))
  {
    if !present {
      PullsFromOutcome(rule, pulls, model, errs, retries, backoffMs, 1);
    }
  }

  /** Under the `i < retries` rule no pause follows the last failed pull. */
  lemma {:induction false} BelowRetriesPausesBetweenPulls(pulls: nat -> bool, model: string, errs: nat -> string, retries: int, backoffMs: int, i: nat)
    requires 1 <= i <= PullLimit(retries)
    ensures var r := PullsFrom(PauseBelowRetries, pulls, model, errs, retries, backoffMs, i);
      r.outcome.Failure? && r.outcome.error == PullFailed(model, errs(r.attempts - 1)) ==> r.pauses == r.attempts - i
    decreases PullLimit(retries) - i
  {
    if !pulls(i - 1) && i < PullLimit(retries) {
      BelowRetriesPausesBetweenPulls(pulls, model, errs, retries, backoffMs, i + 1);
    }
  }

  /** For `retries >= 1` the two rules behave the same. */
  lemma {:induction false} RulesAgreeForPositiveRetries(pulls: nat -> bool, model: string, errs: nat -> string, retries: int, backoffMs: int, i: nat)
    requires retries >= 1 && 1 <= i <= PullLimit(retries)
    ensures PullsFrom(BreakAtRetries, pulls, model, errs, retries, backoffMs, i)
         == PullsFrom(PauseBelowRetries, pulls, model, errs, retries, backoffMs, i)
    decreases PullLimit(retries) - i
  {
    if !pulls(i - 1) && i < PullLimit(retries) {
      RulesAgreeForPositiveRetries(pulls, model, errs, retries, backoffMs, i + 1);
    }
  }

  /**
   * With `retries <= 0` and a missing model whose pull fails, the `i == retries`
   * rule pauses once after the only attempt, before raising; the `i < retries`
   * rule raises at once.
   */
  lemma ZeroRetriesPauseAfterLastPull(pulls: nat -> bool, model: string, errs: nat -> string, retries: int, backoffMs: int)
    requires retries <= 0 && !pulls(0) && backoffMs >= 0
    ensures PullRun(BreakAtRetries, false, pulls, model, errs, retries, backoffMs).attempts == 1
    ensures PullRun(BreakAtRetries, false, pulls, model, errs, retries, backoffMs).pauses == 1
    ensures PullRun(PauseBelowRetries, false, pulls, model, errs, retries, backoffMs).pauses == 0
  {
  }
}
