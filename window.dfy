/**
 * The qrel window of a run, llm_judging/bt/util/helpers.py: checking the
 * 1-based inclusive range and the limit a run asks for, turning them into
 * a concrete window against the number of qrels available, the guard that
 * keeps a subset run from being marked official, and the choice of prompt
 * template.
 */
module Window {
  import opened Common

  /**
   * `validate_range_and_limit`: the limit, the start and the end must each
   * be positive when given, and the start may not exceed the end; the first
   * violated rule, in that order, names the error.
   */
  function ValidateRangeAndLimit(start: Option<int>, end: Option<int>, limit: Option<int>): (r: Result<(), Exc>)
    ensures r.Failure? <==>
              || (limit.Some? && limit.value <= 0)
              || (start.Some? && start.value <= 0)
              || (end.Some? && end.value <= 0)
              || (start.Some? && end.Some? && start.value > end.value)
    ensures limit.Some? && limit.value <= 0 ==> r == Failure(ValueError("limit_qrels must be positive or None"))
    ensures !(limit.Some? && limit.value <= 0) && start.Some? && start.value <= 0 ==>
              r == Failure(ValueError("start_qrel must be positive (1-based) if provided."))
    ensures r.Failure? ==> r.error.ValueError?
  {
    if limit.Some? && limit.value <= 0 then Failure(ValueError("limit_qrels must be positive or None"))
    else if start.Some? && start.value <= 0 then Failure(ValueError("start_qrel must be positive (1-based) if provided."))
    else if end.Some? && end.value <= 0 then Failure(ValueError("end_qrel must be positive (1-based) if provided."))
    else if start.Some? && end.Some? && start.value > end.value then
      Failure(ValueError("start_qrel cannot be greater than end_qrel."))
    else Success(())
  }

  datatype QrelWindow = QrelWindow(start1b: int, end1b: int, intendedCount: int, processedTarget: int, isSubset: bool)

  function Min(a: int, b: int): int { if a <= b then a else b }

  function Max(a: int, b: int): int { if a >= b then a else b }

  /** `max(1, min(x, total))` when anything is available, 1 otherwise. */
  function Clamp(x: int, total: int): (r: int)
    ensures total > 0 ==> 1 <= r <= total
    ensures total <= 0 ==> r == 1
    ensures total > 0 && 1 <= x <= total ==> r == x
  {
    if total > 0 then Max(1, Min(x, total)) else 1
  }

  /**
   * `compute_qrel_window`: a missing or non-positive start means 1, a
   * missing or non-positive end means everything; both are clamped into
   * [1, total]; the limit caps the count; the run is a subset when it
   * processes fewer qrels than are available.
   */
  function ComputeQrelWindow(total: int, start: Option<int>, end: Option<int>, limit: Option<int>): (w: QrelWindow)
    ensures total > 0 ==> 1 <= w.start1b <= total && 1 <= w.end1b <= total
    ensures total <= 0 ==> w.start1b == 1 && w.end1b == 1 && w.intendedCount == 0
    ensures w.intendedCount >= 0
    ensures w.intendedCount == (if total > 0 && w.end1b >= w.start1b then w.end1b - w.start1b + 1 else 0)
    ensures w.processedTarget <= w.intendedCount
    ensures limit.None? ==> w.processedTarget == w.intendedCount
    ensures limit.Some? ==> w.processedTarget <= limit.value
                            && (w.processedTarget == limit.value || w.processedTarget == w.intendedCount)
    ensures w.isSubset <==> w.processedTarget < total
  {
    var s := if start.Some? && start.value > 0 then start.value else 1;
    var e := if end.Some? && end.value > 0 then end.value else total;
    var sEff := Clamp(s, total);
    var eEff := Clamp(e, total);
    var intended := if total > 0 then Max(0, eEff - sEff + 1) else 0;
    var processed := if limit.Some? then Min(intended, limit.value) else intended;
    QrelWindow(sEff, eEff, intended, processed, processed < total)
  }

  /**
   * A range inside the data is kept as given; with neither bound given (or
   * both non-positive) the window is everything available.
   */
  lemma WindowRanges(total: int, start: Option<int>, end: Option<int>, limit: Option<int>)
    ensures var w := ComputeQrelWindow(total, start, end, limit);
            start.Some? && end.Some? && 1 <= start.value <= end.value <= total ==>
              w.start1b == start.value && w.end1b == end.value && w.intendedCount == end.value - start.value + 1
    ensures var w := ComputeQrelWindow(total, start, end, limit);
            (start.None? || start.value <= 0) && (end.None? || end.value <= 0) && total > 0 ==>
              w.start1b == 1 && w.end1b == total && w.intendedCount == total
  {
  }

  /** A start past the end of the data clamps to the last qrel: a window of one, not of none. */
  lemma StartBeyondTotal(total: int, s: int)
    requires 0 < total < s
    ensures ComputeQrelWindow(total, Some(s), None, None) == QrelWindow(total, total, 1, 1, 1 < total)
  {
  }

  /** Nothing available: an empty, non-subset window whatever the range. */
  lemma EmptyWindow(start: Option<int>, end: Option<int>, limit: Option<int>)
    requires limit.None? || limit.value > 0
    ensures ComputeQrelWindow(0, start, end, limit) == QrelWindow(1, 1, 0, 0, false)
  {
  }

  /**
   * A positive limit below the number available makes a subset of exactly
   * that size; the whole range without a limit is not a subset.
   */
  lemma SubsetByLimit(total: int, limit: int)
    requires 0 < limit < total
    ensures ComputeQrelWindow(total, None, None, Some(limit)).isSubset
    ensures ComputeQrelWindow(total, None, None, Some(limit)).processedTarget == limit
    ensures !ComputeQrelWindow(total, Some(1), Some(total), None).isSubset
  {
  }

  /** `ensure_official_guard`: an official run may not process a subset. */
  function EnsureOfficialGuard(official: bool, isSubset: bool): (r: Result<(), Exc>)
    ensures r.Failure? <==> official && isSubset
    ensures r.Failure? ==> r.error.ValueError?
  {
    if official && isSubset then
      Failure(ValueError("Cannot mark run 'official' when processing only a subset of qrels (range and/or limit)."))
    else Success(())
  }

  /** `choose_prompt_template`: the template asking for a reason exactly when reasoning is on. */
  function ChoosePromptTemplate<T>(reasoningEnabled: bool, withReason: T, plain: T): (r: T)
    ensures reasoningEnabled ==> r == withReason
    ensures !reasoningEnabled ==> r == plain
  {
    if reasoningEnabled then withReason else plain
  }
}
