/**
 * The two stand-alone judging scripts: scripts/llm_judging/passage_v2/run.py
 * (passages, settings from passage_v2/config.py, CLI overrides) and
 * scripts/llm_judging/doc_v2/llm_judge_doc_v2.py (documents with a title
 * and a body, fixed model, a commit every 50 items: `DocPlan`).
 *
 * Both start a run under the next serial id, fetch the qrels, and judge
 * them one at a time with the strict score parser; unlike `run_once`, an
 * exception from the model call is not caught, so it ends the script and
 * the connection is closed with whatever was not committed lost. Neither
 * script finalizes its run.
 *
 * `ollama.generate` is the parameter `generate`: `generate(i, p)` is what
 * the call for item i with prompt `p` gives. JSON decoding is `decode`.
 */
module ScriptRuns {
  import opened Common
  import opened PyJson
  import opened Retry
  import opened ResponseParsing
  import opened GreedyParsing
  import opened AuditStore
  import opened SerialRegistry
  import opened Pipeline

  // ---------------------------------------------------------------------
  // judge_with_ollama (passage_v2/llm.py and doc_v2)

  /** What one `ollama.generate` call gives: the answer with its metadata and ms, or an exception. */
  datatype Answer = Generated(text: string, meta: seq<(string, Json)>, ms: int) | GenerateFailed(repr: string)

  /** The integer `int(obj["score"])` gives for a decoded answer, if any. */
  function ScoreField(text: string, decode: Decoder): Option<int>
  {
    var obj := decode(text);
    if obj.Some? && obj.value.JObj? && Get(obj.value.members, "score").Some? then
      CoerceInt(Get(obj.value.members, "score").value)
    else None
  }

  /**
   * The strict `judge_with_ollama`: a score exactly when the whole answer
   * decodes to an object whose `score` converts to an integer in 0..3; the
   * raw record and the elapsed ms are always returned; there is no reason.
   */
  function StrictJudge(text: string, meta: seq<(string, Json)>, ms: int, decode: Decoder): (c: CallResult)
    ensures c.pred.Some? <==> ScoreField(text, decode).Some? && 0 <= ScoreField(text, decode).value <= 3
    ensures c.pred.Some? ==> c.pred == ScoreField(text, decode)
    ensures c.reason.None? && c.raw == OllamaRaw(meta, text) && c.ms == ms
  {
    CallResult(StrictScore(text, decode), None, OllamaRaw(meta, text), ms)
  }

  /** An answer that does not decode, and an out-of-range score, both give no score. */
  lemma StrictJudgeRejects(text: string, meta: seq<(string, Json)>, ms: int, decode: Decoder)
    requires decode(text).None? || (ScoreField(text, decode).Some? && ScoreField(text, decode).value > 3)
    ensures StrictJudge(text, meta, ms, decode).pred.None?
    ensures StrictJudge(text, meta, ms, decode).raw.JObj?
  {
  }

  // ---------------------------------------------------------------------
  // The loop

  datatype ScriptBatch<!D> = ScriptBatch(
    items: seq<Item<D>>, prompt: Item<D> -> Prompt, generate: (nat, Prompt) -> Answer, decode: Decoder)

  /** What the model call for item i (1-based) gives. */
  function AnswerAt<D>(b: ScriptBatch<D>, i: nat): Answer
    requires 1 <= i <= |b.items|
  {
    b.generate(i, b.prompt(b.items[i - 1]))
  }

  /** The number of items before the first one whose call raises, from item i+1 on. */
  function ReachedFrom<D>(b: ScriptBatch<D>, i: nat): (k: nat)
    requires i <= |b.items|
    ensures i <= k <= |b.items|
    ensures forall j :: i < j <= k ==> AnswerAt(b, j).Generated?
    ensures k < |b.items| ==> AnswerAt(b, k + 1).GenerateFailed?
    decreases |b.items| - i
  {
    if i == |b.items| then i
    else if AnswerAt(b, i + 1).GenerateFailed? then i
    else ReachedFrom(b, i + 1)
  }

  /** How many items the script gets through: all, or those before the first exception. */
  function Reached<D>(b: ScriptBatch<D>): (k: nat)
    ensures k <= |b.items|
    ensures forall j :: 1 <= j <= k ==> AnswerAt(b, j).Generated?
    ensures k < |b.items| ==> AnswerAt(b, k + 1).GenerateFailed?
  {
    ReachedFrom(b, 0)
  }

  /** Item i+1, for i within the items reached so far, is reached exactly when its call returns. */
  lemma ReachedStep<D>(b: ScriptBatch<D>, i: nat)
    requires i <= Reached(b) && i < |b.items|
    ensures AnswerAt(b, i + 1).Generated? <==> i < Reached(b)
    ensures AnswerAt(b, i + 1).GenerateFailed? ==> AnswerAt(b, Reached(b) + 1) == AnswerAt(b, i + 1)
  {
  }

  /** The row written for item i: its ids and gold grade with the strict judgement. */
  function ScriptRecordAt<D>(b: ScriptBatch<D>, i: nat): (p: PredictionRow)
    requires 1 <= i <= |b.items| && AnswerAt(b, i).Generated?
    ensures Consistent(p) && p.reason.None?
    ensures p.pred.Some? ==> 0 <= p.pred.value <= 3
  {
    var a := AnswerAt(b, i);
    RecordOf(b.items[i - 1], StrictJudge(a.text, a.meta, a.ms, b.decode))
  }

  /** The rows of the items the script gets through, in fetch order. */
  function ScriptRecords<D>(b: ScriptBatch<D>): (rs: seq<PredictionRow>)
    ensures |rs| == Reached(b)
  {
    seq(Reached(b), i requires 0 <= i < Reached(b) => ScriptRecordAt(b, i + 1))
  }

  /** Every row the script writes is consistent. */
  lemma ScriptRecordsConsistent<D>(b: ScriptBatch<D>)
    ensures forall i :: 0 <= i < |ScriptRecords(b)| ==> Consistent(ScriptRecords(b)[i])
  {
    forall i | 0 <= i < |ScriptRecords(b)|
      ensures Consistent(ScriptRecords(b)[i])
    {
      assert ScriptRecords(b)[i] == ScriptRecordAt(b, i + 1);
    }
  }

  /** One pass of the loop body for an item whose call returned: tally it, insert it, maybe commit. */
  method ScriptStep<K(==), D>(t: AuditTables<K>, key: K, ghost base: map<(K, int), PredictionRow>,
                              b: ScriptBatch<D>, i: nat, counted: nat, correct: nat, commitEvery: int)
    returns (counted': nat, correct': nat)
    requires i < Reached(b)
    requires t.Valid() && t.savedRuns == t.runs && key in t.runs
    requires forall p :: p in base ==> p.0 != key
    requires t.preds == base + Rows(key, ScriptRecords(b), i)
    requires t.savedPreds == base + Rows(key, ScriptRecords(b), LastCommit(i, commitEvery))
    requires counted == Counted(ScriptRecords(b)[..i]) && correct == Correct(ScriptRecords(b)[..i])
    modifies t
    ensures t.Valid() && t.runs == old(t.runs) && t.savedRuns == old(t.savedRuns)
    ensures t.preds == base + Rows(key, ScriptRecords(b), i + 1)
    ensures t.savedPreds == base + Rows(key, ScriptRecords(b), LastCommit(i + 1, commitEvery))
    ensures counted' == Counted(ScriptRecords(b)[..i + 1]) && correct' == Correct(ScriptRecords(b)[..i + 1])
  {
    ghost var rs := ScriptRecords(b);
    var row := ScriptRecordAt(b, i + 1);
    assert row == rs[i];
    TallyStep(rs, i);
    counted', correct' := counted, correct;
    if row.pred.Some? {
      counted' := counted' + 1;
      if row.isCorrect == Some(true) {
        correct' := correct' + 1;
      }
    }
    var ins := InsertStep(t, key, base, rs, i, row, commitEvery);
    assert ins.Success?;
  }

  /**
   * The loop of both scripts: item i under idx i, one insert each, a
   * commit after every item that is a commit point and once at the end.
   * The run is known and has no predictions, so no insert fails; an
   * exception from the model call ends the loop, with the rows since the
   * last commit inserted but not committed.
   */
  method JudgeScriptItems<K(==), D>(t: AuditTables<K>, key: K, b: ScriptBatch<D>, commitEvery: int)
    returns (r: Result<Tally, Exc>)
    requires t.Valid() && t.savedRuns == t.runs && t.savedPreds == t.preds
    requires key in t.runs && forall p :: p in t.preds ==> p.0 != key
    modifies t
    ensures t.Valid() && t.runs == old(t.runs) && t.savedRuns == old(t.runs)
    ensures t.preds == old(t.preds) + Rows(key, ScriptRecords(b), Reached(b))
    ensures r.Success? <==> Reached(b) == |b.items|
    ensures r.Success? ==>
              && t.savedPreds == t.preds
              && r.value == Tally(Counted(ScriptRecords(b)), Correct(ScriptRecords(b)))
              && r.value.correct <= r.value.counted <= |b.items|
    ensures r.Failure? ==>
              && r.error == ProviderError(AnswerAt(b, Reached(b) + 1).repr)
              && t.savedPreds == old(t.preds) + Rows(key, ScriptRecords(b), LastCommit(Reached(b), commitEvery))
  {
    ghost var rs := ScriptRecords(b);
    ghost var base, runs0 := t.preds, t.runs;
    var counted, correct := 0, 0;
    var i := 0;
    while i < |b.items|
      invariant 0 <= i <= Reached(b)
      invariant t.Valid()
      invariant t.runs == runs0 && t.savedRuns == runs0
      invariant t.preds == base + Rows(key, rs, i)
      invariant t.savedPreds == base + Rows(key, rs, LastCommit(i, commitEvery))
      invariant counted == Counted(rs[..i]) && correct == Correct(rs[..i])
    {
      var answer := AnswerAt(b, i + 1);
      ReachedStep(b, i);
      if answer.GenerateFailed? {
        return Failure(ProviderError(answer.repr));
      }
      counted, correct := ScriptStep(t, key, base, b, i, counted, correct, commitEvery);
      i := i + 1;
    }
    assert rs[..i] == rs;
    var tally := FinishScript(t, b, counted, correct);
    return Success(tally);
  }

  /** After the last item: commit, and report the tallies of every row. */
  method FinishScript<K, D>(t: AuditTables<K>, b: ScriptBatch<D>, counted: nat, correct: nat) returns (tally: Tally)
    requires t.Valid() && Reached(b) == |b.items|
    requires counted == Counted(ScriptRecords(b)) && correct == Correct(ScriptRecords(b))
    modifies t
    ensures t.Valid() && t.runs == old(t.runs) && t.preds == old(t.preds)
    ensures t.savedRuns == t.runs && t.savedPreds == t.preds
    ensures tally == Tally(counted, correct) && correct <= counted <= |b.items|
  {
    ScriptRecordsConsistent(b);
    CorrectAtMostCounted(ScriptRecords(b));
    t.Commit();
    tally := Tally(counted, correct);
  }

  // ---------------------------------------------------------------------
  // main

  /** What a script decides before it touches the database. */
  datatype ScriptPlan<!D> = ScriptPlan(
    meta: RunMeta, limit: Option<int>, commitEvery: int, prompt: Item<D> -> Prompt)

  datatype ScriptSummary = ScriptSummary(runId: int, items: nat, counted: nat, correct: nat, agreement: real)

  /**
   * `main` of either script, for a plan: start the run under the next id
   * (committed at once), fetch, return at once when nothing was fetched,
   * otherwise judge every item; `finally` closes the connection, dropping
   * anything not committed. The run row is never finalized.
   */
  method RunScript<D>(t: AuditTables<int>, ids: IdSequence, plan: ScriptPlan<D>,
                      queries: map<string, Option<string>>, docs: map<string, D>, qrels: seq<Qrel>,
                      generate: (nat, Prompt) -> Answer, decode: Decoder)
    returns (r: Result<ScriptSummary, Exc>)
    requires t.Valid() && IdsIssued(t, ids) && t.savedRuns == t.runs && t.savedPreds == t.preds
    modifies t, ids
    ensures t.Valid() && IdsIssued(t, ids) && t.savedRuns == t.runs && t.savedPreds == t.preds
    ensures ids.next == old(ids.next) + 1 && old(ids.next) !in old(t.runs)
    ensures t.runs == old(t.runs)[old(ids.next) := NewRun(plan.meta)]
    ensures FetchQrels(queries, docs, qrels, plan.limit).Failure? ==>
              r == Failure(FetchQrels(queries, docs, qrels, plan.limit).error) && t.preds == old(t.preds)
    ensures FetchQrels(queries, docs, qrels, plan.limit).Success? ==>
              var b := ScriptBatch(FetchQrels(queries, docs, qrels, plan.limit).value, plan.prompt, generate, decode);
              var rs := ScriptRecords(b);
              && (r.Success? <==> Reached(b) == |b.items|)
              && (r.Success? ==>
                    && t.preds == old(t.preds) + Rows(old(ids.next), rs, |b.items|)
                    && r.value.runId == old(ids.next) && r.value.items == |b.items|
                    && r.value.counted == Counted(rs) && r.value.correct == Correct(rs)
                    && r.value.correct <= r.value.counted <= r.value.items
                    && r.value.agreement == Agreement(r.value.correct, r.value.counted))
              && (r.Failure? ==>
                    && r.error == ProviderError(AnswerAt(b, Reached(b) + 1).repr)
                    && t.preds == old(t.preds) + Rows(old(ids.next), rs, LastCommit(Reached(b), plan.commitEvery)))
  {
    var id := StartRunSerial(t, ids, plan.meta);
    var fetched := FetchQrels(queries, docs, qrels, plan.limit);
    if fetched.Failure? {
      t.Rollback();
      return Failure(fetched.error);
    }
    var b := ScriptBatch(fetched.value, plan.prompt, generate, decode);
    r := JudgeFetched(t, id, b, plan.commitEvery);
  }

  /**
   * The part of `main` after a fetch: return at once when nothing was
   * fetched, otherwise judge every item and summarise; closing the
   * connection drops anything not committed.
   */
  method JudgeFetched<D>(t: AuditTables<int>, key: int, b: ScriptBatch<D>, commitEvery: int)
    returns (r: Result<ScriptSummary, Exc>)
    requires t.Valid() && t.savedRuns == t.runs && t.savedPreds == t.preds
    requires key in t.runs && forall p :: p in t.preds ==> p.0 != key
    modifies t
    ensures t.Valid() && t.runs == old(t.runs) && t.savedRuns == t.runs && t.savedPreds == t.preds
    ensures r.Success? <==> Reached(b) == |b.items|
    ensures r.Success? ==>
              && t.preds == old(t.preds) + Rows(key, ScriptRecords(b), |b.items|)
              && r.value.items == |b.items|
              && r.value.counted == Counted(ScriptRecords(b)) && r.value.correct == Correct(ScriptRecords(b))
              && r.value.correct <= r.value.counted <= r.value.items
              && r.value.agreement == Agreement(r.value.correct, r.value.counted)
    ensures r.Success? ==> r.value.runId == key
    ensures r.Failure? ==>
              && r.error == ProviderError(AnswerAt(b, Reached(b) + 1).repr)
              && t.preds == old(t.preds) + Rows(key, ScriptRecords(b), LastCommit(Reached(b), commitEvery))
  {
    if |b.items| == 0 {
      assert t.preds == old(t.preds) + Rows(key, ScriptRecords(b), 0);
      t.Rollback();
      return Success(ScriptSummary(key, 0, 0, 0, 0.0));
    }
    var tally := JudgeScriptItems(t, key, b, commitEvery);
    t.Rollback();
    if tally.Failure? {
      return Failure(tally.error);
    }
    var agreement := Agreement(tally.value.correct, tally.value.counted);
    return Success(ScriptSummary(key, |b.items|, tally.value.counted, tally.value.correct, agreement));
  }

  // ---------------------------------------------------------------------
  // passage_v2/run.py

  /** The fields of passage_v2's `Settings` that `main` reads. */
  datatype PassageSettings = PassageSettings(model: string, commitEvery: int, maxTextChars: Option<int>)

  const PassageNoteTail := "strict JSON; Passage text only; NULL on parse fail."

  const PassageDefaults := PassageSettings("deepseek-r1:14b", 20, None)

  datatype PassageArgs = PassageArgs(limit: Option<int>, notes: Option<string>, model: Option<string>, commitEvery: Option<int>)

  /** `args.model or cfg.model`: the override only when it is a non-empty string. */
  function EffectiveModel(args: PassageArgs, cfg: PassageSettings): (m: string)
    ensures args.model.Some? && args.model.value != "" ==> m == args.model.value
    ensures args.model.None? || args.model.value == "" ==> m == cfg.model
  {
    if args.model.Some? && args.model.value != "" then args.model.value else cfg.model
  }

  /** `args.commit_every or cfg.commit_every`: an override of 0 falls back to the setting. */
  function EffectiveCommitEvery(args: PassageArgs, cfg: PassageSettings): (n: int)
    ensures args.commitEvery.Some? && args.commitEvery.value != 0 ==> n == args.commitEvery.value
    ensures args.commitEvery.None? || args.commitEvery.value == 0 ==> n == cfg.commitEvery
  {
    if args.commitEvery.Some? && args.commitEvery.value != 0 then args.commitEvery.value else cfg.commitEvery
  }

  /** `f"{limit}"` for an optional integer. */
  function LimitText(limit: Option<int>): string
  {
    if limit.Some? then IntToDecimal(limit.value) else "None"
  }

  /** `args.notes or <default>`: given notes unless empty, else the sentence naming the limit. */
  function NoteFor(notes: Option<string>, limit: Option<int>, tail: string): (n: string)
    ensures notes.Some? && notes.value != "" ==> n == notes.value
    ensures notes.None? || notes.value == "" ==> n == "Run with limit=" + LimitText(limit) + "; " + tail
  {
    if notes.Some? && notes.value != "" then notes.value else "Run with limit=" + LimitText(limit) + "; " + tail
  }

  /**
   * The prompt of one passage row: the stripped query, and the stripped
   * passage sliced to `max_text_chars` (`[:None]` keeps it whole; the
   * slice is what `Truncate` computes).
   */
  function PassagePromptOf(template: string, maxTextChars: Option<int>, it: Item<Option<string>>): (p: Prompt)
    ensures p.template == template && p.query == TextOf(it.queryText)
    ensures maxTextChars.None? ==> p.doc == TextOf(it.doc)
    ensures maxTextChars.Some? ==> p.doc == PyPrefix(TextOf(it.doc), maxTextChars.value)
  {
    Prompt(template, TextOf(it.queryText), Truncate(TextOf(it.doc), maxTextChars))
  }

  function PassagePrompt(template: string, maxTextChars: Option<int>): Item<Option<string>> -> Prompt
  {
    it => PassagePromptOf(template, maxTextChars, it)
  }

  /** passage_v2's plan: CLI overrides, the note, `fetch_qrels(limit=args.limit)`. */
  function PassagePlan(args: PassageArgs, cfg: PassageSettings, template: string): (p: ScriptPlan<Option<string>>)
    ensures p.meta == NotesMeta(EffectiveModel(args, cfg), template,
                                Some(NoteFor(args.notes, args.limit, PassageNoteTail)))
    ensures p.limit == args.limit && p.commitEvery == EffectiveCommitEvery(args, cfg)
    ensures p.prompt == PassagePrompt(template, cfg.maxTextChars)
  {
    ScriptPlan(NotesMeta(EffectiveModel(args, cfg), template,
                         Some(NoteFor(args.notes, args.limit, PassageNoteTail))),
               args.limit, EffectiveCommitEvery(args, cfg), PassagePrompt(template, cfg.maxTextChars))
  }

  /**
   * Without a model or commit-interval override the script runs the
   * configured model and commits every 20 items.
   */
  lemma PassageDefaultsPlan(args: PassageArgs, template: string)
    requires args.model.None? || args.model.value == ""
    requires args.commitEvery.None? || args.commitEvery.value == 0
    ensures PassagePlan(args, PassageDefaults, template).meta.model == "deepseek-r1:14b"
    ensures PassagePlan(args, PassageDefaults, template).commitEvery == 20
  {
  }

  // ---------------------------------------------------------------------
  // doc_v2/llm_judge_doc_v2.py

  /** A document row's `COALESCE(d.title,'')` and `COALESCE(d.body,'')`. */
  datatype DocFields = DocFields(title: Option<string>, body: Option<string>)

  /** The script's CLI: `--limit` and `--notes`, nothing else. */
  datatype DocArgs = DocArgs(limit: Option<int>, notes: Option<string>)

  const DocModel := "llama3.2:3b"
  const MaxTitleChars := 500
  const MaxBodyChars := 40000000
  const DocCommitEvery := 50
  /** The default note after `Run with limit=…; `. */
  const DocNoteTail := "no rationale; strict JSON; NULL on parse fail."

  /**
   * The prompt of one document row: the stripped query, and the document
   * part `{title}\n{body}` with the stripped title cut to `MAX_TITLE_CHARS`
   * and the stripped body cut to `MAX_BODY_CHARS`.
   */
  function DocPromptOf(template: string, it: Item<DocFields>): (p: Prompt)
    ensures p.template == template && p.query == TextOf(it.queryText)
    ensures var title, body := TextOf(it.doc.title), TextOf(it.doc.body);
            var k := if |title| <= MaxTitleChars then |title| else MaxTitleChars;
            && |p.doc| == k + 1 + (if |body| <= MaxBodyChars then |body| else MaxBodyChars)
            && p.doc[..k] == title[..k] && p.doc[k] == '\n' && p.doc[k + 1..] <= body
  {
    var title := PyPrefix(TextOf(it.doc.title), MaxTitleChars);
    var body := PyPrefix(TextOf(it.doc.body), MaxBodyChars);
    assert (title + "\n" + body)[..|title|] == title;
    assert (title + "\n" + body)[|title| + 1..] == body;
    Prompt(template, TextOf(it.queryText), title + "\n" + body)
  }

  function DocPrompt(template: string): Item<DocFields> -> Prompt
  {
    it => DocPromptOf(template, it)
  }

  /** Fields within both caps reach the prompt whole, the title first. */
  lemma DocFieldsWhole(template: string, it: Item<DocFields>)
    requires |TextOf(it.doc.title)| <= MaxTitleChars && |TextOf(it.doc.body)| <= MaxBodyChars
    ensures DocPromptOf(template, it).doc == TextOf(it.doc.title) + "\n" + TextOf(it.doc.body)
  {
    var title, body := TextOf(it.doc.title), TextOf(it.doc.body);
    var d := DocPromptOf(template, it).doc;
    assert d[..|title|] == title;
    assert d[|title| + 1..] == body;
    assert d == d[..|title|] + [d[|title|]] + d[|title| + 1..];
  }

  /**
   * doc_v2's plan: the fixed model under `PROMPT_TMPL`, `args.notes` or
   * the sentence naming the limit, `fetch_qrels(limit=args.limit)`, and a
   * commit after every 50th item.
   */
  function DocPlan(args: DocArgs, template: string): (p: ScriptPlan<DocFields>)
    ensures p.meta.NotesMeta? && p.meta.model == "llama3.2:3b" && p.meta.promptTemplate == template
    ensures args.notes.Some? && args.notes.value != "" ==> p.meta.notes == args.notes
    ensures args.notes.None? || args.notes.value == "" ==>
              p.meta.notes == Some("Run with limit=" + LimitText(args.limit) + "; " + DocNoteTail)
    ensures p.limit == args.limit && p.commitEvery == 50
    ensures p.prompt == DocPrompt(template)
  {
    ScriptPlan(NotesMeta(DocModel, template, Some(NoteFor(args.notes, args.limit, DocNoteTail))),
               args.limit, DocCommitEvery, DocPrompt(template))
  }

  /**
   * With a commit after every 50th item, a run that stops after k items
   * keeps exactly its first `50 * (k / 50)` rows.
   */
  lemma {:induction false} DocCommitsKept(k: nat)
    ensures LastCommit(k, DocPlan(DocArgs(None, None), "").commitEvery) == k / 50 * 50
  {
    if k > 0 && k % 50 != 0 {
      DocCommitsKept(k - 1);
      assert (k - 1) / 50 == k / 50;
    }
  }

  /**
   * doc_v2's `hms`, `str(timedelta(seconds=int(max(0, s))))`: `H:MM:SS`
   * with unpadded hours below a day, prefixed by `D day, ` or `D days, `.
   */
  function TimedeltaText(seconds: real): (r: string)
  {
    var w := WholeSeconds(seconds);
    var d := w / 86400;
    if d == 0 then ClockText(w % 86400)
    else NatToDecimal(d) + (if d == 1 then " day, " else " days, ") + ClockText(w % 86400)
  }

  /** The `H:MM:SS` part of a time within one day. */
  function ClockText(rest: nat): string
  {
    NatToDecimal(rest / 3600) + ":" + Pad2(rest % 3600 / 60) + ":" + Pad2(rest % 60)
  }

  /** Below ten hours the two `hms` helpers differ only in the hours' leading zero. */
  lemma TimedeltaMatchesHms(seconds: real)
    requires WholeSeconds(seconds) < 36000
    ensures "0" + TimedeltaText(seconds) == Hms(seconds)
  {
    var w := WholeSeconds(seconds);
    assert w % 86400 == w && w / 86400 == 0;
    assert w / 3600 < 10;
  }

  /** Between one and two days, the text is `1 day, ` followed by the clock of the rest. */
  lemma TimedeltaOneDay(seconds: real)
    requires 86400.0 <= seconds < 172800.0
    ensures TimedeltaText(seconds) == "1 day, " + TimedeltaText(seconds - 86400.0)
  {
    var w := WholeSeconds(seconds);
    var v := WholeSeconds(seconds - 86400.0);
    assert v == w - 86400;
    DayAndRest(w);
    assert TimedeltaText(seconds) == "1 day, " + ClockText(v);
    assert v / 86400 == 0 && v % 86400 == v;
  }

  lemma DayAndRest(w: nat)
    requires 86400 <= w < 172800
    ensures w / 86400 == 1 && w % 86400 == w - 86400
    ensures NatToDecimal(1) == "1"
  {
  }

  /** Less than a second, negative time included, prints as `0:00:00`. */
  lemma TimedeltaUnderASecond(seconds: real)
    requires seconds < 1.0
    ensures TimedeltaText(seconds) == "0:00:00"
  {
    assert WholeSeconds(seconds) == 0;
    assert Pad2(0) == "00";
    assert NatToDecimal(0) == "0";
  }
}
