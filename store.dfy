/**
 * The Postgres side of the judging runs, as maps.
 *
 * `AuditTables` is one audit schema: the `llm_runs` table keyed by the run
 * key (`K` is `string` for llm_judging/bt/db.py and `int` for the serial
 * ids of scripts/llm_judging/db.py), the `llm_predictions` table keyed by
 * (run, idx), and the state last committed, to which a rollback or a
 * connection closed without commit returns.
 *
 * `Corpus` is a data schema, read by `fetch_qrels`: the qrels joined with
 * their query and document, ordered by (query_id, doc_id), optionally
 * limited.
 */
module AuditStore {
  import opened Common
  import opened PyJson

  // ---------------------------------------------------------------------
  // Rows

  /** What a run row records: the bt and script-db column set, or the passage/doc v2 one. */
  datatype RunMeta =
    | FullMeta(model: string, promptTemplate: string, dataSchema: string, auditSchema: string,
               maxTextChars: Option<int>, commitEvery: int, limitQrels: Option<int>, temperature: real,
               retryEnabled: bool, retryAttempts: int, retryBackoffMs: int,
               runner: string, official: bool, userNotes: Option<string>)
    | NotesMeta(model: string, promptTemplate: string, notes: Option<string>)

  datatype RunRow = RunRow(meta: RunMeta, finished: bool, invalidPct: Option<real>)

  /** A fresh run row: not finished, no percentage yet. */
  function NewRun(meta: RunMeta): (r: RunRow)
    ensures r.meta == meta && !r.finished && r.invalidPct.None?
  {
    RunRow(meta, false, None)
  }

  datatype PredictionRow = PredictionRow(
    queryId: string, docId: string, gold: int, pred: Option<int>, reason: Option<string>,
    isCorrect: Option<bool>, msTotal: int, raw: Json)

  // ---------------------------------------------------------------------
  // finalize_run's percentage

  /** `invalid / total * 100.0` when there are rows, else `0.0`. */
  function InvalidPct(total: nat, invalid: nat): (p: real)
    requires invalid <= total
    ensures 0.0 <= p <= 100.0
    ensures total == 0 ==> p == 0.0
    ensures total > 0 ==> p * total as real == 100.0 * invalid as real
  {
    if total > 0 then invalid as real / total as real * 100.0 else 0.0
  }

  /** The prediction keys of one run. */
  function RunKeys<K(==)>(preds: map<(K, int), PredictionRow>, key: K): set<(K, int)>
  {
    set p | p in preds && p.0 == key
  }

  /** The prediction keys of one run whose prediction is NULL. */
  function InvalidKeys<K(==)>(preds: map<(K, int), PredictionRow>, key: K): (s: set<(K, int)>)
    ensures s <= RunKeys(preds, key)
  {
    set p | p in preds && p.0 == key && preds[p].pred.None?
  }

  lemma {:induction false} SubsetCardinality<T>(a: set<T>, b: set<T>)
    requires a <= b
    ensures |a| <= |b|
    decreases |b|
  {
    if a != {} {
      var x :| x in a;
      SubsetCardinality(a - {x}, b - {x});
    }
  }

  /** The percentage `finalize_run` computes for a run from the predictions table. */
  function InvalidPctOf<K(==)>(preds: map<(K, int), PredictionRow>, key: K): (p: real)
    ensures 0.0 <= p <= 100.0
    ensures |RunKeys(preds, key)| == 0 ==> p == 0.0
  {
    SubsetCardinality(InvalidKeys(preds, key), RunKeys(preds, key));
    InvalidPct(|RunKeys(preds, key)|, |InvalidKeys(preds, key)|)
  }

  // ---------------------------------------------------------------------
  // The audit tables

  class AuditTables<K(==)> {
    var runs: map<K, RunRow>
    var preds: map<(K, int), PredictionRow>
    var savedRuns: map<K, RunRow>
    var savedPreds: map<(K, int), PredictionRow>

    /** The foreign key of `llm_predictions`, in the live and in the committed state. */
    ghost predicate Valid()
      reads this
    {
      && (forall p :: p in preds ==> p.0 in runs)
      && (forall p :: p in savedPreds ==> p.0 in savedRuns)
    }

    constructor ()
      ensures Valid()
      ensures runs == map[] && preds == map[] && savedRuns == map[] && savedPreds == map[]
    {
      runs := map[];
      preds := map[];
      savedRuns := map[];
      savedPreds := map[];
    }

    /** `conn.commit()`. */
    method Commit()
      requires Valid()
      modifies this
      ensures Valid()
      ensures runs == old(runs) && preds == old(preds)
      ensures savedRuns == runs && savedPreds == preds
    {
      savedRuns := runs;
      savedPreds := preds;
    }

    /** `conn.rollback()`, and what closing the connection does to uncommitted work. */
    method Rollback()
      requires Valid()
      modifies this
      ensures Valid()
      ensures runs == old(savedRuns) && preds == old(savedPreds)
      ensures savedRuns == old(savedRuns) && savedPreds == old(savedPreds)
    {
      runs := savedRuns;
      preds := savedPreds;
    }

    /**
     * `INSERT INTO llm_runs`: a key already present is a unique violation
     * and changes nothing.
     */
    method InsertRun(key: K, row: RunRow) returns (r: Result<(), Exc>)
      requires Valid()
      modifies this
      ensures Valid()
      ensures r.Success? <==> key !in old(runs)
      ensures r.Failure? ==> r.error == UniqueViolation && runs == old(runs)
      ensures r.Success? ==> runs == old(runs)[key := row]
      ensures preds == old(preds) && savedRuns == old(savedRuns) && savedPreds == old(savedPreds)
    {
      if key in runs {
        return Failure(UniqueViolation);
      }
      runs := runs[key := row];
      return Success(());
    }

    /**
     * `insert_prediction`: adds exactly one row. A repeated (run, idx) is a
     * primary-key violation, an unknown run a foreign-key violation; either
     * leaves the table as it was. Nothing is committed.
     */
    method InsertPrediction(key: K, idx: int, row: PredictionRow) returns (r: Result<(), Exc>)
      requires Valid()
      modifies this
      ensures Valid()
      ensures r.Success? <==> (key, idx) !in old(preds) && key in old(runs)
      ensures (key, idx) in old(preds) ==> r == Failure(UniqueViolation)
      ensures (key, idx) !in old(preds) && key !in old(runs) ==> r == Failure(ForeignKeyViolation)
      ensures r.Success? ==> preds == old(preds)[(key, idx) := row]
      ensures r.Failure? ==> preds == old(preds)
      ensures runs == old(runs) && savedRuns == old(savedRuns) && savedPreds == old(savedPreds)
    {
      if (key, idx) in preds {
        return Failure(UniqueViolation);
      }
      if key !in runs {
        return Failure(ForeignKeyViolation);
      }
      preds := preds[(key, idx) := row];
      return Success(());
    }

    /**
     * `finalize_run`: the share of this run's predictions that are NULL,
     * stored on the run's row (and only there) with `finished` set, then
     * committed. An unknown run updates nothing. The predictions are not
     * touched, so finalizing again gives the same percentage.
     */
    method FinalizeRun(key: K) returns (pct: real)
      requires Valid()
      modifies this
      ensures Valid()
      ensures pct == InvalidPctOf(old(preds), key) && 0.0 <= pct <= 100.0
      ensures preds == old(preds)
      ensures key in old(runs) ==> runs == old(runs)[key := old(runs)[key].(finished := true, invalidPct := Some(pct))]
      ensures key !in old(runs) ==> runs == old(runs)
      ensures savedRuns == runs && savedPreds == preds
    {
      pct := InvalidPctOf(preds, key);
      if key in runs {
        runs := runs[key := runs[key].(finished := true, invalidPct := Some(pct))];
      }
      Commit();
    }
  }

  // ---------------------------------------------------------------------
  // The data schema and fetch_qrels

  datatype Qrel = Qrel(queryId: string, docId: string, relevance: int)

  /** A joined row; `D` is the document part (its text, or its title and body). */
  datatype Item<D> = Item(queryId: string, queryText: Option<string>, docId: string, doc: D, gold: int)

  /** `qrels JOIN queries JOIN docs`, in qrels order. */
  function Joined<D>(queries: map<string, Option<string>>, docs: map<string, D>, qrels: seq<Qrel>): (r: seq<Item<D>>)
    ensures |r| <= |qrels|
    ensures forall it :: it in r ==>
              && it.queryId in queries && it.docId in docs
              && it.queryText == queries[it.queryId] && it.doc == docs[it.docId]
              && Qrel(it.queryId, it.docId, it.gold) in qrels
  {
    if |qrels| == 0 then []
    else
      var q := qrels[|qrels| - 1];
      var init := Joined(queries, docs, qrels[..|qrels| - 1]);
      if q.queryId in queries && q.docId in docs then
        init + [Item(q.queryId, queries[q.queryId], q.docId, docs[q.docId], q.relevance)]
      else init
  }

  /** `count_available_qrels`: the size of the join. */
  function CountAvailable<D>(queries: map<string, Option<string>>, docs: map<string, D>, qrels: seq<Qrel>): (n: nat)
    ensures n <= |qrels|
  {
    |Joined(queries, docs, qrels)|
  }

  /** Code-point lexicographic order on text. */
  predicate StrLe(a: string, b: string)
  {
    |a| == 0 || (|b| > 0 && (a[0] < b[0] || (a[0] == b[0] && StrLe(a[1..], b[1..]))))
  }

  lemma {:induction false} StrLeTotal(a: string, b: string)
    ensures StrLe(a, b) || StrLe(b, a)
    decreases |a|
  {
    if |a| > 0 && |b| > 0 && a[0] == b[0] {
      StrLeTotal(a[1..], b[1..]);
    }
  }

  /** `ORDER BY query_id, doc_id`. */
  predicate ItemLe<D>(a: Item<D>, b: Item<D>)
  {
    (StrLe(a.queryId, b.queryId) && a.queryId != b.queryId) || (a.queryId == b.queryId && StrLe(a.docId, b.docId))
  }

  lemma ItemLeTotal<D>(a: Item<D>, b: Item<D>)
    ensures ItemLe(a, b) || ItemLe(b, a)
  {
    StrLeTotal(a.queryId, b.queryId);
    StrLeTotal(a.docId, b.docId);
  }

  predicate SortedItems<D>(s: seq<Item<D>>)
  {
    forall i :: 0 <= i < |s| - 1 ==> ItemLe(s[i], s[i + 1])
  }

  function InsertItem<D>(x: Item<D>, s: seq<Item<D>>): (r: seq<Item<D>>)
    requires SortedItems(s)
    ensures SortedItems(r)
    ensures multiset(r) == multiset(s) + multiset{x}
    ensures |r| > 0 && (r[0] == x || (|s| > 0 && r[0] == s[0]))
  {
    if |s| == 0 then [x]
    else if ItemLe(x, s[0]) then [x] + s
    else
      ItemLeTotal(x, s[0]);
      var t := InsertItem(x, s[1..]);
      assert s == [s[0]] + s[1..];
      [s[0]] + t
  }

  /** The rows in `ORDER BY query_id, doc_id` order: a sorted permutation of the input. */
  function SortItems<D>(s: seq<Item<D>>): (r: seq<Item<D>>)
    ensures SortedItems(r)
    ensures multiset(r) == multiset(s)
    ensures |r| == |s|
  {
    if |s| == 0 then []
    else
      assert s == [s[0]] + s[1..];
      InsertItem(s[0], SortItems(s[1..]))
  }

  lemma PrefixSorted<D>(s: seq<Item<D>>, n: nat)
    requires SortedItems(s) && n <= |s|
    ensures SortedItems(s[..n])
  {
    assert forall i :: 0 <= i < n ==> s[..n][i] == s[i];
  }

  /**
   * `fetch_qrels`: the join in (query_id, doc_id) order, cut to `limit`
   * rows when one is given. Postgres refuses a negative LIMIT.
   */
  function FetchQrels<D>(queries: map<string, Option<string>>, docs: map<string, D>, qrels: seq<Qrel>, limit: Option<int>)
    : (r: Result<seq<Item<D>>, Exc>)
    ensures r.Failure? <==> limit.Some? && limit.value < 0
    ensures r.Success? ==> SortedItems(r.value)
    ensures r.Success? ==> r.value <= SortItems(Joined(queries, docs, qrels))
    ensures r.Success? && limit.None? ==> |r.value| == CountAvailable(queries, docs, qrels)
    ensures r.Success? && limit.Some? ==>
              |r.value| == if limit.value <= CountAvailable(queries, docs, qrels) then limit.value
                           else CountAvailable(queries, docs, qrels)
    ensures r.Success? && limit.None? ==> multiset(r.value) == multiset(Joined(queries, docs, qrels))
  {
    var sorted := SortItems(Joined(queries, docs, qrels));
    if limit.Some? && limit.value < 0 then Failure(StorageError("LIMIT must not be negative"))
    else if limit.None? then
      assert sorted[..|sorted|] == sorted;
      Success(sorted)
    else
      var n := if limit.value <= |sorted| then limit.value else |sorted|;
      PrefixSorted(sorted, n);
      Success(sorted[..n])
  }
}
