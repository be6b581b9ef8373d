/**
 * One judging run, llm_judging/bt/pipeline.py: the time and truncation
 * helpers, the per-item loop that judges every fetched qrel and records
 * one prediction per item, and `run_once` around it.
 *
 * The LLM client is the parameter `judge`: `judge(i, p)` is what
 * `client.judge` does for item i given the prompt built from `p`. The
 * prompt text itself (`build_prompt`) is not part of this model, so a
 * prompt is the triple it is built from.
 */
module Pipeline {
  import opened Common
  import opened PyJson
  import opened Retry
  import opened Config
  import opened Factory
  import opened Window
  import opened AuditStore
  import opened RunRegistry
  import HfClient

  // ---------------------------------------------------------------------
  // _hms and _truncate

  /** `int(max(0, seconds))`: negative time is 0, the rest is cut to whole seconds. */
  function WholeSeconds(seconds: real): (w: nat)
    ensures seconds <= 0.0 ==> w == 0
    ensures seconds > 0.0 ==> w as real <= seconds < w as real + 1.0
  {
    if seconds <= 0.0 then 0 else seconds.Floor
  }

  /** `_hms`: `HH:MM:SS`, the hours field growing past two digits when it must. */
  function Hms(seconds: real): (r: string)
    ensures |r| >= 8 && r[|r| - 6] == ':' && r[|r| - 3] == ':'
    ensures WholeSeconds(seconds) < 360000 ==> |r| == 8
  {
    var w := WholeSeconds(seconds);
    Pad2(w / 3600) + ":" + Pad2(w % 3600 / 60) + ":" + Pad2(w % 60)
  }

  /** Reads `H…H:MM:SS` back as a number of seconds. */
  function HmsSeconds(r: string): Option<nat>
  {
    if |r| >= 8 && r[|r| - 6] == ':' && r[|r| - 3] == ':'
       && IsDigits(r[..|r| - 6]) && IsDigits(r[|r| - 5..|r| - 3]) && IsDigits(r[|r| - 2..]) then
      Some(DigitsValue(r[..|r| - 6]) * 3600 + DigitsValue(r[|r| - 5..|r| - 3]) * 60 + DigitsValue(r[|r| - 2..]))
    else None
  }

  /** Hours, minutes and seconds as `_hms` computes them add back up to the whole. */
  lemma HmsArithmetic(w: nat)
    ensures (w / 3600) * 3600 + (w % 3600 / 60) * 60 + w % 60 == w
    ensures w % 3600 / 60 < 60 && w % 60 < 60
  {
    var q, r := w / 3600, w % 3600;
    assert w == q * 3600 + r;
    assert r == (r / 60) * 60 + r % 60;
    assert r % 60 == w % 60 by {
      assert w == (q * 60 + r / 60) * 60 + r % 60;
    }
  }

  /** Where the three fields sit in `a:b:c` when the last two have two characters. */
  lemma ColonLayout(a: string, b: string, c: string)
    requires |a| >= 2 && |b| == 2 && |c| == 2
    ensures var r := a + ":" + b + ":" + c;
            && |r| >= 8 && r[|r| - 6] == ':' && r[|r| - 3] == ':'
            && r[..|r| - 6] == a && r[|r| - 5..|r| - 3] == b && r[|r| - 2..] == c
  {
  }

  /**
   * The three fields of `_hms` add back up to the whole seconds, and the
   * minutes and seconds fields are below 60.
   */
  lemma HmsRoundTrip(seconds: real)
    ensures HmsSeconds(Hms(seconds)) == Some(WholeSeconds(seconds))
    ensures var r := Hms(seconds);
            && IsDigits(r[|r| - 5..|r| - 3]) && DigitsValue(r[|r| - 5..|r| - 3]) < 60
            && IsDigits(r[|r| - 2..]) && DigitsValue(r[|r| - 2..]) < 60
  {
    var w := WholeSeconds(seconds);
    var h, m, s := w / 3600, w % 3600 / 60, w % 60;
    HmsArithmetic(w);
    assert Hms(seconds) == Pad2(h) + ":" + Pad2(m) + ":" + Pad2(s);
    FieldsRoundTrip(h, m, s);
  }

  /** Three padded fields joined by colons read back as their total in seconds. */
  lemma FieldsRoundTrip(h: nat, m: nat, s: nat)
    requires m < 60 && s < 60
    ensures var r := Pad2(h) + ":" + Pad2(m) + ":" + Pad2(s);
            && HmsSeconds(r) == Some(h * 3600 + m * 60 + s)
            && IsDigits(r[|r| - 5..|r| - 3]) && DigitsValue(r[|r| - 5..|r| - 3]) < 60
            && IsDigits(r[|r| - 2..]) && DigitsValue(r[|r| - 2..]) < 60
  {
    Pad2RoundTrip(h);
    Pad2RoundTrip(m);
    Pad2RoundTrip(s);
    ColonLayout(Pad2(h), Pad2(m), Pad2(s));
  }

  lemma HmsNegative(seconds: real)
    requires seconds <= 0.0
    ensures Hms(seconds) == "00:00:00"
  {
  }

  /**
   * `_truncate`: the text itself without a limit or when it fits, else
   * `text[:limit]` — which, for a negative limit, drops characters from
   * the end as Python slicing does.
   */
  function Truncate(text: string, limit: Option<int>): (r: string)
    ensures r <= text
    ensures limit.None? || |text| <= limit.value ==> r == text
    ensures limit.Some? && 0 <= limit.value < |text| ==> |r| == limit.value
    ensures limit.Some? && limit.value < 0 ==> |r| == Max(0, |text| + limit.value)
  {
    if limit.None? || |text| <= limit.value then text else PyPrefix(text, limit.value)
  }

  /** Truncating twice to the same non-negative limit is truncating once. */
  lemma TruncateIdempotent(text: string, limit: Option<int>)
    requires limit.None? || limit.value >= 0
    ensures Truncate(Truncate(text, limit), limit) == Truncate(text, limit)
  {
  }

  /**
   * With a negative limit truncation is not idempotent: while text is
   * left, a second truncation cuts the same number of characters again.
   */
  lemma TruncateNegativeShrinks(text: string, n: int)
    requires n < 0 && |text| + n > 0
    ensures |Truncate(Truncate(text, Some(n)), Some(n))| == Max(0, |text| + 2 * n)
    ensures Truncate(Truncate(text, Some(n)), Some(n)) != Truncate(text, Some(n))
  {
  }

  // ---------------------------------------------------------------------
  // One item

  /** What `build_prompt` is given: the template, the query text and the document text. */
  datatype Prompt = Prompt(template: string, query: string, doc: string)

  type JudgeFn = (nat, Prompt) -> Outcome

  /** The fetched rows, the client and the two settings the loop reads. */
  datatype Batch = Batch(items: seq<Item<Option<string>>>, judge: JudgeFn, template: string, maxTextChars: Option<int>)

  /** `(x or "").strip()`. */
  function TextOf(x: Option<string>): (r: string)
    ensures |r| <= (if x.Some? then |x.value| else 0)
  {
    Strip(if x.Some? then x.value else "")
  }

  /** The prompt of one row: both texts stripped, the document truncated. */
  function PromptFor(b: Batch, it: Item<Option<string>>): (p: Prompt)
    ensures p.template == b.template && p.query == TextOf(it.queryText)
    ensures p.doc <= TextOf(it.doc)
    ensures b.maxTextChars.Some? && b.maxTextChars.value >= 0 ==> |p.doc| <= b.maxTextChars.value
  {
    Prompt(b.template, TextOf(it.queryText), Truncate(TextOf(it.doc), b.maxTextChars))
  }

  const ErrorRaw := JObj([("error", JStr("exception during LLM call"))])

  /**
   * The `try` around `client.judge`: an exception, or a raw result that is
   * not a dict (so that `raw.get` raises), becomes an empty prediction with
   * the error marker and 0 ms; anything else is kept.
   */
  function Isolated(o: Outcome): (c: CallResult)
    ensures o.Returned? && o.result.raw.JObj? ==> c == o.result
    ensures !(o.Returned? && o.result.raw.JObj?) ==> c == CallResult(None, None, ErrorRaw, 0)
    ensures c.raw.JObj?
  {
    if o.Returned? && o.result.raw.JObj? then o.result else CallResult(None, None, ErrorRaw, 0)
  }

  /** A prediction row is consistent when `is_correct` is NULL exactly when the prediction is. */
  predicate Consistent(p: PredictionRow)
  {
    p.isCorrect.None? <==> p.pred.None?
  }

  /**
   * The row `insert_prediction` writes for one item: the item's ids and
   * gold grade, the call's prediction, reason, ms and raw response, and
   * whether the prediction equals the gold grade — NULL without a prediction.
   */
  function RecordOf<D>(it: Item<D>, c: CallResult): (p: PredictionRow)
    ensures p.queryId == it.queryId && p.docId == it.docId && p.gold == it.gold
    ensures p.pred == c.pred && p.reason == c.reason && p.msTotal == c.ms && p.raw == c.raw
    ensures Consistent(p)
    ensures p.isCorrect == Some(true) <==> c.pred == Some(it.gold)
  {
    var isCorrect := if c.pred.Some? then Some(c.pred.value == it.gold) else None;
    PredictionRow(it.queryId, it.docId, it.gold, c.pred, c.reason, isCorrect, c.ms, c.raw)
  }

  /** The row for item `i` (1-based). */
  function RecordAt(b: Batch, i: nat): PredictionRow
    requires 1 <= i <= |b.items|
  {
    var it := b.items[i - 1];
    RecordOf(it, Isolated(b.judge(i, PromptFor(b, it))))
  }

  /** The rows of the whole batch, in fetch order. */
  function Records(b: Batch): (rs: seq<PredictionRow>)
    ensures |rs| == |b.items|
  {
    seq(|b.items|, i requires 0 <= i < |b.items| => RecordAt(b, i + 1))
  }

  /** Every row of a batch is consistent. */
  lemma RecordsConsistent(b: Batch)
    ensures forall i :: 0 <= i < |Records(b)| ==> Consistent(Records(b)[i])
  {
    forall i | 0 <= i < |Records(b)|
      ensures Consistent(Records(b)[i])
    {
      var it := b.items[i];
      assert Records(b)[i] == RecordOf(it, Isolated(b.judge(i + 1, PromptFor(b, it))));
    }
  }

  // ---------------------------------------------------------------------
  // The tallies

  /** The keys (run, 1) … (run, n), holding the first n rows. */
  function Rows<K(==)>(key: K, rs: seq<PredictionRow>, n: nat): map<(K, int), PredictionRow>
    requires n <= |rs|
  {
    if n == 0 then map[] else Rows(key, rs, n - 1)[(key, n) := rs[n - 1]]
  }

  /** The first n rows sit under (run, 1) … (run, n) and nowhere else. */
  lemma {:induction false} RowsSpec<K>(key: K, rs: seq<PredictionRow>, n: nat)
    requires n <= |rs|
    ensures forall p :: p in Rows(key, rs, n) ==> p.0 == key && 1 <= p.1 <= n
    ensures forall i :: 1 <= i <= n ==> (key, i) in Rows(key, rs, n) && Rows(key, rs, n)[(key, i)] == rs[i - 1]
  {
    if n > 0 {
      RowsSpec(key, rs, n - 1);
    }
  }

  /** Inserting row n+1 under (run, n+1) extends the first n rows by one. */
  lemma RowsStep<K>(base: map<(K, int), PredictionRow>, key: K, rs: seq<PredictionRow>, n: nat)
    requires n < |rs|
    ensures base + Rows(key, rs, n + 1) == (base + Rows(key, rs, n))[(key, n + 1) := rs[n]]
  {
  }

  /** `counted`: the rows with a prediction. */
  function Counted(rs: seq<PredictionRow>): nat
  {
    if |rs| == 0 then 0 else Counted(rs[..|rs| - 1]) + (if rs[|rs| - 1].pred.Some? then 1 else 0)
  }

  /** `correct`: the rows whose prediction matches the gold grade. */
  function Correct(rs: seq<PredictionRow>): nat
  {
    if |rs| == 0 then 0 else Correct(rs[..|rs| - 1]) + (if rs[|rs| - 1].isCorrect == Some(true) then 1 else 0)
  }

  /** The tallies of one more row. */
  lemma TallyStep(rs: seq<PredictionRow>, i: nat)
    requires i < |rs|
    ensures Counted(rs[..i + 1]) == Counted(rs[..i]) + (if rs[i].pred.Some? then 1 else 0)
    ensures Correct(rs[..i + 1]) == Correct(rs[..i]) + (if rs[i].isCorrect == Some(true) then 1 else 0)
  {
    assert rs[..i + 1][..i] == rs[..i];
  }

  /** Over consistent rows, `0 <= correct <= counted <= items`. */
  lemma {:induction false} CorrectAtMostCounted(rs: seq<PredictionRow>)
    requires forall i :: 0 <= i < |rs| ==> Consistent(rs[i])
    ensures Correct(rs) <= Counted(rs) <= |rs|
  {
    if |rs| > 0 {
      CorrectAtMostCounted(rs[..|rs| - 1]);
    }
  }

  /** `100.0 * correct / counted`, or 0.0 when nothing was counted. */
  function Agreement(correct: nat, counted: nat): (a: real)
    requires correct <= counted
    ensures 0.0 <= a <= 100.0
    ensures counted == 0 ==> a == 0.0
    ensures counted > 0 ==> a * counted as real == 100.0 * correct as real
  {
    if counted > 0 then 100.0 * correct as real / counted as real else 0.0
  }

  datatype Tally = Tally(counted: nat, correct: nat)

  /**
   * `cfg.commit_every and i % cfg.commit_every == 0`. Python's and Dafny's
   * remainders differ for a negative divisor but agree on when they are 0.
   */
  predicate CommitsAfter(i: int, commitEvery: int)
  {
    commitEvery != 0 && i % commitEvery == 0
  }

  /** The last item, among the first j, after which the loop committed (0 for none). */
  function LastCommit(j: nat, commitEvery: int): (c: nat)
    ensures c <= j
  {
    if j == 0 then 0 else if CommitsAfter(j, commitEvery) then j else LastCommit(j - 1, commitEvery)
  }

  /** It is a commit point (or 0), and no later item among the first j is one. */
  lemma {:induction false} LastCommitSpec(j: nat, commitEvery: int)
    ensures LastCommit(j, commitEvery) == 0 || CommitsAfter(LastCommit(j, commitEvery), commitEvery)
    ensures forall k :: LastCommit(j, commitEvery) < k <= j ==> !CommitsAfter(k, commitEvery)
  {
    if j > 0 && !CommitsAfter(j, commitEvery) {
      LastCommitSpec(j - 1, commitEvery);
    }
  }

  /** A `commit_every` of 0 never commits inside the loop; 1 commits after every item. */
  lemma CommitEveryExtremes(j: nat)
    ensures LastCommit(j, 0) == 0
    ensures LastCommit(j, 1) == j
  {
  }

  // ---------------------------------------------------------------------
  // The loop

  /** One step of the loop: insert row i+1, then commit if i+1 is a commit point. */
  method InsertStep<K(==)>(t: AuditTables<K>, key: K, ghost base: map<(K, int), PredictionRow>,
                           ghost rs: seq<PredictionRow>, i: nat, row: PredictionRow, commitEvery: int)
    returns (ins: Result<(), Exc>)
    requires t.Valid() && i < |rs| && row == rs[i] && t.savedRuns == t.runs
    requires t.preds == base + Rows(key, rs, i)
    requires t.savedPreds == base + Rows(key, rs, LastCommit(i, commitEvery))
    modifies t
    ensures t.Valid() && t.runs == old(t.runs) && t.savedRuns == old(t.savedRuns)
    ensures ins.Success? <==> (key, i + 1) !in base && key in t.runs
    ensures ins.Failure? ==>
              && ins.error == (if (key, i + 1) in base then UniqueViolation else ForeignKeyViolation)
              && t.preds == old(t.preds) && t.savedPreds == old(t.savedPreds)
    ensures ins.Success? ==>
              && t.preds == base + Rows(key, rs, i + 1)
              && t.savedPreds == base + Rows(key, rs, LastCommit(i + 1, commitEvery))
  {
    RowsSpec(key, rs, i);
    assert (key, i + 1) in t.preds <==> (key, i + 1) in base;
    ins := t.InsertPrediction(key, i + 1, row);
    if ins.Failure? {
      return;
    }
    RowsStep(base, key, rs, i);
    if commitEvery != 0 && (i + 1) % commitEvery == 0 {
      t.Commit();
    }
  }

  /** One item of the loop: judge it, tally its row, then insert it. */
  method JudgeStep<K(==)>(t: AuditTables<K>, key: K, ghost base: map<(K, int), PredictionRow>,
                          b: Batch, i: nat, counted: nat, correct: nat, commitEvery: int)
    returns (ins: Result<(), Exc>, counted': nat, correct': nat)
    requires t.Valid() && i < |b.items| && t.savedRuns == t.runs
    requires t.preds == base + Rows(key, Records(b), i)
    requires t.savedPreds == base + Rows(key, Records(b), LastCommit(i, commitEvery))
    requires counted == Counted(Records(b)[..i]) && correct == Correct(Records(b)[..i])
    modifies t
    ensures t.Valid() && t.runs == old(t.runs) && t.savedRuns == old(t.savedRuns)
    ensures ins.Success? <==> (key, i + 1) !in base && key in t.runs
    ensures ins.Failure? ==>
              && ins.error == (if (key, i + 1) in base then UniqueViolation else ForeignKeyViolation)
              && t.preds == old(t.preds) && t.savedPreds == old(t.savedPreds)
    ensures ins.Success? ==>
              && t.preds == base + Rows(key, Records(b), i + 1)
              && t.savedPreds == base + Rows(key, Records(b), LastCommit(i + 1, commitEvery))
              && counted' == Counted(Records(b)[..i + 1]) && correct' == Correct(Records(b)[..i + 1])
  {
    var row := RecordAt(b, i + 1);
    ghost var rs := Records(b);
    assert row == rs[i];
    RecordsConsistent(b);
    TallyStep(rs, i);
    counted', correct' := counted, correct;
    if row.pred.Some? {
      counted' := counted' + 1;
      if row.isCorrect == Some(true) {
        correct' := correct' + 1;
      }
    }
    ins := InsertStep(t, key, base, rs, i, row, commitEvery);
  }

  /**
   * The loop of `run_once` (lines 102-145): items in fetch order, item i
   * under idx i, one insert each; a commit after every `commit_every`-th
   * item and once at the end. An insert that fails (a repeated idx, an
   * unknown run) ends the loop with that error and with the rows inserted
   * so far left uncommitted since the last commit. The loop starts on a
   * committed state, as it does right after `start_run`.
   */
  method JudgeItems<K(==)>(t: AuditTables<K>, key: K, b: Batch, commitEvery: int)
    returns (r: Result<Tally, Exc>, ghost done: int)
    requires t.Valid() && t.savedRuns == t.runs && t.savedPreds == t.preds
    modifies t
    ensures t.Valid()
    ensures 0 <= done <= |b.items|
    ensures t.runs == old(t.runs) && t.savedRuns == old(t.runs)
    ensures t.preds == old(t.preds) + Rows(key, Records(b), done)
    ensures r.Success? ==>
              && done == |b.items|
              && t.savedPreds == t.preds
              && r.value == Tally(Counted(Records(b)), Correct(Records(b)))
              && r.value.correct <= r.value.counted <= |b.items|
    ensures r.Failure? ==>
              && done < |b.items|
              && ((key, done + 1) in old(t.preds) || key !in old(t.runs))
              && r.error == (if (key, done + 1) in old(t.preds) then UniqueViolation else ForeignKeyViolation)
              && t.savedPreds == old(t.preds) + Rows(key, Records(b), LastCommit(done, commitEvery))
  {
    var ins, i, counted, correct := JudgeLoop(t, key, b, commitEvery);
    done := i;
    if ins.Failure? {
      return Failure(ins.error), done;
    }
    FullTally(b, i, counted, correct);
    t.Commit();
    return Success(Tally(counted, correct)), done;
  }

  /** The `for` loop itself: every item in turn, until the end or a failed insert. */
  method JudgeLoop<K(==)>(t: AuditTables<K>, key: K, b: Batch, commitEvery: int)
    returns (ins: Result<(), Exc>, i: nat, counted: nat, correct: nat)
    requires t.Valid() && t.savedRuns == t.runs && t.savedPreds == t.preds
    modifies t
    ensures t.Valid() && i <= |b.items|
    ensures t.runs == old(t.runs) && t.savedRuns == old(t.runs)
    ensures t.preds == old(t.preds) + Rows(key, Records(b), i)
    ensures t.savedPreds == old(t.preds) + Rows(key, Records(b), LastCommit(i, commitEvery))
    ensures ins.Success? ==>
              i == |b.items| && counted == Counted(Records(b)[..i]) && correct == Correct(Records(b)[..i])
    ensures ins.Failure? ==>
              && i < |b.items|
              && ((key, i + 1) in old(t.preds) || key !in old(t.runs))
              && ins.error == (if (key, i + 1) in old(t.preds) then UniqueViolation else ForeignKeyViolation)
  {
    ghost var rs := Records(b);
    ghost var base := t.preds;
    counted, correct := 0, 0;
    i := 0;
    ins := Success(());
    while i < |b.items|
      invariant 0 <= i <= |b.items| && ins.Success?
      invariant t.Valid()
      invariant t.runs == old(t.runs) && t.savedRuns == old(t.runs)
      invariant t.preds == base + Rows(key, rs, i)
      invariant t.savedPreds == base + Rows(key, rs, LastCommit(i, commitEvery))
      invariant counted == Counted(rs[..i]) && correct == Correct(rs[..i])
    {
      ins, counted, correct := JudgeStep(t, key, base, b, i, counted, correct, commitEvery);
      if ins.Failure? {
        return;
      }
      i := i + 1;
    }
  }

  /** Once the loop has seen every item, its tally is that of the whole batch. */
  lemma FullTally(b: Batch, i: nat, counted: nat, correct: nat)
    requires i == |b.items| && counted == Counted(Records(b)[..i]) && correct == Correct(Records(b)[..i])
    ensures Tally(counted, correct) == Tally(Counted(Records(b)), Correct(Records(b)))
    ensures correct <= counted <= |b.items|
  {
    assert Records(b)[..i] == Records(b);
    RecordsConsistent(b);
    CorrectAtMostCounted(Records(b));
  }

  // ---------------------------------------------------------------------
  // run_once

  /** The client's `model_label`, as `start_run` records it. */
  function ClientLabel(kind: ClientKind, s: Settings): string
  {
    match kind
    case OllamaClient => "ollama:" + s.model
    case HFHubClient => "hf_hub:" + s.model
    case HFEndpointClient => HfClient.ModelLabel(s)
  }

  /** The run row's columns, taken from the settings. */
  function MetaFor(model: string, template: string, s: Settings): (m: RunMeta)
    ensures m.FullMeta? && m.model == model && m.promptTemplate == template && m.runner == "pipeline.run_once"
  {
    FullMeta(model, template, s.dataSchema, s.auditSchema, s.maxTextChars, s.commitEvery, s.limitQrels,
             s.temperature, s.retryEnabled, s.retryAttempts, s.retryBackoffMs, "pipeline.run_once",
             s.official, s.userNotes)
  }

  datatype Summary = Summary(runKey: string, items: nat, counted: nat, correct: nat, agreement: real, invalidPct: real)

  /**
   * `run_once` as written: building the client may raise (before the
   * `try`); otherwise line 60 reads `cfg.start_qrel`, a field `Settings`
   * does not have, so every run ends in AttributeError before a run row is
   * written or a single item judged.
   */
  function RunOnce(cfg: Settings): (r: Result<Summary, Exc>)
    ensures r.Failure?
    ensures BuildLlmClient(cfg).Failure? ==> r.error == BuildLlmClient(cfg).error
    ensures BuildLlmClient(cfg).Success? ==> r.error == AttributeError("start_qrel")
  {
    match BuildLlmClient(cfg)
    case Failure(e) => Failure(e)
    case Success(_) => Failure(AttributeError("start_qrel"))
  }

  /** Even the default settings, which build a client, never get past validation. */
  lemma DefaultRunFails()
    ensures BuildLlmClient(Defaults).Success?
    ensures RunOnce(Defaults) == Failure(AttributeError("start_qrel"))
  {
  }

  /** The rows `fetch_qrels(limit)` returns, and nothing when the limit is refused. */
  function Fetched(queries: map<string, Option<string>>, docs: map<string, Option<string>>, qrels: seq<Qrel>,
                   limit: Option<int>): seq<Item<Option<string>>>
  {
    match FetchQrels(queries, docs, qrels, limit)
    case Success(items) => items
    case Failure(_) => []
  }

  /** What the loop of a run over this corpus works on. */
  function BatchFor(cfg: Settings, queries: map<string, Option<string>>, docs: map<string, Option<string>>,
                    qrels: seq<Qrel>, judge: JudgeFn, withReason: string, plain: string): Batch
  {
    Batch(Fetched(queries, docs, qrels, cfg.limitQrels), judge,
          ChoosePromptTemplate(cfg.reasoningEnabled, withReason, plain), cfg.maxTextChars)
  }

  /** A run key that is not in the runs table has no predictions to be overwritten. */
  lemma FreshKeyNoRows(runs: map<string, RunRow>, preds: map<(string, int), PredictionRow>, key: string,
                        rs: seq<PredictionRow>, n: nat)
    requires forall p :: p in preds ==> p.0 in runs
    requires key !in runs && n <= |rs|
    ensures forall p :: p in preds ==> p.0 != key && p !in Rows(key, rs, n)
  {
    RowsSpec(key, rs, n);
  }

  /**
   * Everything `run_once` checks before it writes: the client and the
   * limit (there is no range); then the template and the run row's
   * columns. The window it computes is only logged, and no official guard
   * is applied to it.
   */
  function Preflight(cfg: Settings, withReason: string, plain: string): (r: Result<RunMeta, Exc>)
    ensures BuildLlmClient(cfg).Failure? ==> r == Failure(BuildLlmClient(cfg).error)
    ensures BuildLlmClient(cfg).Success? && cfg.limitQrels.Some? && cfg.limitQrels.value <= 0 ==>
              r == Failure(ValueError("limit_qrels must be positive or None"))
    ensures r.Success? <==> BuildLlmClient(cfg).Success? && (cfg.limitQrels.None? || cfg.limitQrels.value > 0)
    ensures r.Success? ==>
              r.value == MetaFor(ClientLabel(BuildLlmClient(cfg).value, cfg),
                                 ChoosePromptTemplate(cfg.reasoningEnabled, withReason, plain), cfg)
  {
    match BuildLlmClient(cfg)
    case Failure(e) => Failure(e)
    case Success(client) =>
      match ValidateRangeAndLimit(None, None, cfg.limitQrels)
      case Failure(e) => Failure(e)
      case Success(_) =>
        Success(MetaFor(ClientLabel(client, cfg), ChoosePromptTemplate(cfg.reasoningEnabled, withReason, plain), cfg))
  }

  /** An official run over a subset of the qrels is not refused: the guard is never called. */
  lemma OfficialSubsetNotRefused(cfg: Settings, total: int, withReason: string, plain: string)
    requires BuildLlmClient(cfg).Success? && cfg.official
    requires cfg.limitQrels.Some? && 0 < cfg.limitQrels.value < total
    ensures ComputeQrelWindow(total, None, None, cfg.limitQrels).isSubset
    ensures EnsureOfficialGuard(cfg.official, ComputeQrelWindow(total, None, None, cfg.limitQrels).isSubset).Failure?
    ensures Preflight(cfg, withReason, plain).Success?
  {
  }

  /**
   * Lines 91-149 for a started run: fetch, judge every item (or none),
   * commit, finalize. The run is known and has no predictions yet, so no
   * insert can fail and the loop always completes.
   */
  method JudgeRun(t: AuditTables<string>, key: string, b: Batch, commitEvery: int) returns (s: Summary)
    requires t.Valid() && t.savedRuns == t.runs && t.savedPreds == t.preds
    requires key in t.runs && forall p :: p in t.preds ==> p.0 != key
    modifies t
    ensures t.Valid() && t.savedRuns == t.runs && t.savedPreds == t.preds
    ensures s.runKey == key
    ensures t.runs == old(t.runs)[key := old(t.runs)[key].(finished := true, invalidPct := Some(s.invalidPct))]
    ensures t.preds == old(t.preds) + Rows(key, Records(b), |b.items|)
    ensures s.items == |b.items|
    ensures s.counted == Counted(Records(b)) && s.correct == Correct(Records(b))
    ensures s.correct <= s.counted <= s.items
    ensures s.agreement == Agreement(s.correct, s.counted)
    ensures s.invalidPct == InvalidPctOf(t.preds, key)
  {
    if |b.items| == 0 {
      var pct := t.FinalizeRun(key);
      assert t.preds == old(t.preds) + Rows(key, Records(b), 0);
      return Summary(key, 0, 0, 0, 0.0, pct);
    }
    var tally, done := JudgeItems(t, key, b, commitEvery);
    assert tally.Success?;
    var pct := t.FinalizeRun(key);
    var agreement := Agreement(tally.value.correct, tally.value.counted);
    return Summary(key, |b.items|, tally.value.counted, tally.value.correct, agreement, pct);
  }

  /** Writing a key twice keeps the second value. */
  lemma UpdateTwice<K, V>(m: map<K, V>, k: K, v: V, w: V)
    ensures m[k := v][k := w] == m[k := w]
  {
  }

  /**
   * A validated run: `start_run` allocates the key, then the items of the
   * batch are judged under it and the run is finalized. Failing to start
   * leaves both tables as they were.
   */
  method StartAndJudge(t: AuditTables<string>, meta: RunMeta, b: Batch, commitEvery: int,
                       draws: (nat, nat) -> nat, fault: nat -> Option<Exc>)
    returns (r: Result<Summary, Exc>)
    requires t.Valid() && t.savedRuns == t.runs && t.savedPreds == t.preds
    modifies t
    ensures t.Valid() && t.savedRuns == t.runs && t.savedPreds == t.preds
    ensures forall p :: p in old(t.preds) ==> p in t.preds && t.preds[p] == old(t.preds)[p]
    ensures r.Failure? ==> t.runs == old(t.runs) && t.preds == old(t.preds)
    ensures r.Success? ==>
              var key := r.value.runKey;
              && KeyFormat(key) && key !in old(t.runs)
              && t.runs == old(t.runs)[key := RunRow(meta, true, Some(r.value.invalidPct))]
              && t.preds == old(t.preds) + Rows(key, Records(b), |b.items|)
              && r.value.items == |b.items|
              && r.value.counted == Counted(Records(b)) && r.value.correct == Correct(Records(b))
              && r.value.correct <= r.value.counted <= r.value.items
              && r.value.agreement == Agreement(r.value.correct, r.value.counted)
              && r.value.invalidPct == InvalidPctOf(t.preds, key)
  {
    var started, attempts := StartRun(t, meta, draws, fault);
    if started.Failure? {
      return Failure(started.error);
    }
    var key := started.value;
    assert t.runs == old(t.runs)[key := NewRun(meta)] && t.preds == old(t.preds);
    ghost var begun := t.runs;
    FreshKeyNoRows(old(t.runs), old(t.preds), key, Records(b), |b.items|);
    var summary := JudgeRun(t, key, b, commitEvery);
    assert begun[key].(finished := true, invalidPct := Some(summary.invalidPct)) == RunRow(meta, true, Some(summary.invalidPct));
    UpdateTwice(old(t.runs), key, NewRun(meta), RunRow(meta, true, Some(summary.invalidPct)));
    return Success(summary);
  }

  /**
   * `run_once` as its helpers intend it: the range read through
   * `getattr(cfg, "start_qrel", None)` as `log_qrel_banner` and
   * `start_run_from_cfg` do (so no range), the run started through
   * `start_run` and its allocated key used for every insert and for
   * `finalize_run`. Validation runs before anything is written; an empty fetch finalizes at once; a
   * failing insert closes the connection, losing what was not committed.
   */
  method RunOnceIntended(t: AuditTables<string>, cfg: Settings,
                         queries: map<string, Option<string>>, docs: map<string, Option<string>>, qrels: seq<Qrel>,
                         draws: (nat, nat) -> nat, fault: nat -> Option<Exc>, judge: JudgeFn,
                         withReason: string, plain: string)
    returns (r: Result<Summary, Exc>)
    requires t.Valid() && t.savedRuns == t.runs && t.savedPreds == t.preds
    modifies t
    ensures t.Valid() && t.savedRuns == t.runs && t.savedPreds == t.preds
    ensures Preflight(cfg, withReason, plain).Failure? ==>
              && r == Failure(Preflight(cfg, withReason, plain).error)
              && t.runs == old(t.runs) && t.preds == old(t.preds)
    ensures forall p :: p in old(t.preds) ==> p in t.preds && t.preds[p] == old(t.preds)[p]
    ensures r.Failure? ==> t.runs == old(t.runs) && t.preds == old(t.preds)
    ensures r.Success? ==>
              var key := r.value.runKey;
              var b := BatchFor(cfg, queries, docs, qrels, judge, withReason, plain);
              && KeyFormat(key) && key !in old(t.runs)
              && Preflight(cfg, withReason, plain).Success?
              && t.runs == old(t.runs)[key := RunRow(Preflight(cfg, withReason, plain).value,
                                                     true, Some(r.value.invalidPct))]
              && t.preds == old(t.preds) + Rows(key, Records(b), |b.items|)
              && r.value.items == |b.items|
              && r.value.counted == Counted(Records(b)) && r.value.correct == Correct(Records(b))
              && r.value.correct <= r.value.counted <= r.value.items
              && r.value.agreement == Agreement(r.value.correct, r.value.counted)
              && r.value.invalidPct == InvalidPctOf(t.preds, key)
  {
    var pre := Preflight(cfg, withReason, plain);
    if pre.Failure? {
      return Failure(pre.error);
    }
    var fetched := FetchQrels(queries, docs, qrels, cfg.limitQrels);
    assert fetched.Success?;
    var b := Batch(fetched.value, judge, ChoosePromptTemplate(cfg.reasoningEnabled, withReason, plain), cfg.maxTextChars);
    assert b == BatchFor(cfg, queries, docs, qrels, judge, withReason, plain);
    r := StartAndJudge(t, pre.value, b, cfg.commitEvery, draws, fault);
  }

}
