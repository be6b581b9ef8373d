/**
 * The ir_datasets loaders of the MS MARCO v2 collections:
 *
 *  - the Document v2 TREC-DL 2019–2022 subset loader into Postgres
 *    (scripts/load_ms_marco_into_postgres/load_ms_marco_doc_v2_subset_to_postgres.py),
 *  - the Passage v2 TREC-DL 2021–2022 balanced loader into Postgres
 *    (load_ms_marco_into_postgres/load_ms_marco_passage_v2_to_postgres.py),
 *  - the Document v2 subset exporters to Parquet and to CSV
 *    (ms_marco_doc_v2_to_parquet_subset.py, ms_marco_doc_v2_to_csv_subset.py).
 *
 * A split arrives as its query and qrel records; an attribute a record
 * lacks is `None`. Loading a split by its key, the docstore's
 * `get_many_iter` and UTF-8 decoding are parameters; the database and the
 * files see the batches of rows the model hands them.
 */
module DocLoaders {
  import opened Common
  import opened Etl

  // ---------------------------------------------------------------------
  // Records

  /** A query record; `qid` is the alternative attribute the passage loader falls back on. */
  datatype QueryRec = QueryRec(queryId: Option<PyValue>, qid: Option<PyValue>, text: Option<PyValue>)

  /** A qrel record; ir_datasets types the relevance as an int. */
  datatype QrelRec = QrelRec(queryId: Option<PyValue>, docId: Option<PyValue>, relevance: Option<int>, iteration: Option<PyValue>)

  /** A document record from a docstore (documents carry url/title/body, passages text). */
  datatype DocRec = DocRec(docId: Option<PyValue>, url: Option<PyValue>, title: Option<PyValue>, body: Option<PyValue>, text: Option<PyValue>)

  /** A judged split as loaded: its `(dataset_id, dataset_key)` entry, its records, and whether it offers a docstore. */
  datatype Split = Split(id: string, key: string, queries: seq<QueryRec>, qrels: seq<QrelRec>, hasDocstore: bool)

  /** `getattr(obj, name, "")`. */
  function Attr(a: Option<PyValue>): PyValue
  {
    if a.None? then PyStr("") else a.value
  }

  /** `int(getattr(qr, "relevance", 0) or 0)` for an int relevance: a missing relevance is 0. */
  function RelOrZero(a: Option<int>): int
  {
    if a.None? then 0 else a.value
  }

  /** Python truthiness of a record value. */
  predicate Truthy(v: PyValue)
  {
    match v
    case PyNone => false
    case PyBytes(b) => |b| > 0
    case PyStr(s) => |s| > 0
    case PyInt(i) => i != 0
    case PyOther(_) => true
  }

  /** The dataset id and key of each split. */
  function DatasetRows(splits: seq<Split>): (r: seq<(string, string)>)
    ensures |r| == |splits| && forall k :: 0 <= k < |splits| ==> r[k] == (splits[k].id, splits[k].key)
  {
    seq(|splits|, k requires 0 <= k < |splits| => (splits[k].id, splits[k].key))
  }

  // ---------------------------------------------------------------------
  // Document v2 subset into Postgres

  /** `BATCH`: rows per `execute_batch` call. */
  const Batch: nat := 2000

  /** `DATASETS`: the judged TREC-DL splits of MS MARCO Document v2, in load order. */
  const DocV2Datasets: seq<(string, string)> := [
    ("trec-dl-2019", "msmarco-document-v2/trec-dl-2019/judged"),
    ("trec-dl-2020", "msmarco-document-v2/trec-dl-2020/judged"),
    ("trec-dl-2021", "msmarco-document-v2/trec-dl-2021/judged"),
    ("trec-dl-2022", "msmarco-document-v2/trec-dl-2022/judged")
  ]

  /** `iter_queries`: `(query_id, text)` through `_nt`, for the records whose id is non-empty. */
  function QueryPairs(recs: seq<QueryRec>, utf8: seq<bv8> -> string): (r: seq<(string, string)>)
    ensures |r| <= |recs|
    ensures forall k :: 0 <= k < |r| ==> r[k].0 != "" && '\0' !in r[k].0 && '\0' !in r[k].1
  {
    if |recs| == 0 then []
    else
      var init := QueryPairs(recs[..|recs| - 1], utf8);
      var q := recs[|recs| - 1];
      var qid := Nt(Attr(q.queryId), utf8);
      if qid != "" then init + [(qid, Nt(Attr(q.text), utf8))] else init
  }

  /** Records are read one at a time: the pairs of two runs of records are the pairs of each. */
  lemma {:induction false} QueryPairsAppend(a: seq<QueryRec>, b: seq<QueryRec>, utf8: seq<bv8> -> string)
    ensures QueryPairs(a + b, utf8) == QueryPairs(a, utf8) + QueryPairs(b, utf8)
    decreases |b|
  {
    if |b| == 0 {
      assert a + b == a;
    } else {
      var b' := b[..|b| - 1];
      assert (a + b)[..|a + b| - 1] == a + b';
      assert (a + b)[|a + b| - 1] == b[|b| - 1];
      QueryPairsAppend(a, b', utf8);
    }
  }

  /** A qrels row as `iter_qrels` yields it. */
  datatype QrelRow = QrelRow(qid: string, did: string, rel: int, iteration: string)

  function QrelRowOf(qr: QrelRec, utf8: seq<bv8> -> string): QrelRow
  {
    QrelRow(Nt(Attr(qr.queryId), utf8), Nt(Attr(qr.docId), utf8), RelOrZero(qr.relevance), Nt(Attr(qr.iteration), utf8))
  }

  /** `iter_qrels`: the rows through `_nt` whose query id and doc id are both non-empty; a missing relevance is 0. */
  function QrelRows(recs: seq<QrelRec>, utf8: seq<bv8> -> string): (r: seq<QrelRow>)
    ensures |r| <= |recs|
  {
    if |recs| == 0 then []
    else
      var init := QrelRows(recs[..|recs| - 1], utf8);
      var row := QrelRowOf(recs[|recs| - 1], utf8);
      if row.qid != "" && row.did != "" then init + [row] else init
  }

  /** Every row `iter_qrels` yields has a non-empty query id and doc id. */
  lemma {:induction false} QrelRowsIds(recs: seq<QrelRec>, utf8: seq<bv8> -> string)
    ensures forall row :: row in QrelRows(recs, utf8) ==> row.qid != "" && row.did != ""
    decreases |recs|
  {
    if |recs| > 0 {
      QrelRowsIds(recs[..|recs| - 1], utf8);
    }
  }

  lemma {:induction false} QrelRowsAppend(a: seq<QrelRec>, b: seq<QrelRec>, utf8: seq<bv8> -> string)
    ensures QrelRows(a + b, utf8) == QrelRows(a, utf8) + QrelRows(b, utf8)
    decreases |b|
  {
    if |b| == 0 {
      assert a + b == a;
    } else {
      var b' := b[..|b| - 1];
      assert (a + b)[..|a + b| - 1] == a + b';
      assert (a + b)[|a + b| - 1] == b[|b| - 1];
      QrelRowsAppend(a, b', utf8);
    }
  }

  /** A row of the queries table: id, text and the dataset it was first read from. */
  datatype QueryRow = QueryRow(qid: string, text: string, datasetId: string)

  function QidOf(r: QueryRow): string { r.qid }

  /** The pairs of one split, tagged with its dataset id. */
  function Tag(id: string, ps: seq<(string, string)>): (r: seq<QueryRow>)
    ensures |r| == |ps| && forall k :: 0 <= k < |ps| ==> r[k] == QueryRow(ps[k].0, ps[k].1, id)
  {
    seq(|ps|, k requires 0 <= k < |ps| => QueryRow(ps[k].0, ps[k].1, id))
  }

  /** The query rows of all splits in DATASETS order, before de-duplication. */
  function TaggedQueries(splits: seq<Split>, utf8: seq<bv8> -> string): seq<QueryRow>
  {
    if |splits| == 0 then []
    else
      var last := splits[|splits| - 1];
      TaggedQueries(splits[..|splits| - 1], utf8) + Tag(last.id, QueryPairs(last.queries, utf8))
  }

  /**
   * The state of `insert_queries` after the rows `done`: `seen` holds their
   * ids, the batches executed so far are the full pages of their first
   * occurrences, and `rows` holds the rest.
   */
  ghost predicate Pending(done: seq<QueryRow>, seen: set<string>, executed: seq<seq<QueryRow>>, rows: seq<QueryRow>)
  {
    var u := DedupBy(done, QidOf);
    && seen == KeysOf(done, QidOf)
    && |rows| < Batch && |rows| <= |u|
    && Whole(|u| - |rows|, Batch)
    && rows == u[|u| - |rows|..]
    && executed == ChunksOf(u[..|u| - |rows|], Batch)
  }

  /** A row whose id was seen changes nothing. */
  lemma PendingSkip(done: seq<QueryRow>, row: QueryRow, seen: set<string>, executed: seq<seq<QueryRow>>, rows: seq<QueryRow>)
    requires Pending(done, seen, executed, rows) && row.qid in seen
    ensures Pending(done + [row], seen, executed, rows)
  {
    assert (done + [row])[..|done|] == done;
    KeysOfAppend(done, row, QidOf);
  }

  /** A row with a new id joins the buffer; a full buffer becomes the next batch. */
  lemma PendingKeep(done: seq<QueryRow>, row: QueryRow, seen: set<string>, executed: seq<seq<QueryRow>>, rows: seq<QueryRow>)
    requires Pending(done, seen, executed, rows) && row.qid !in seen
    ensures |rows| + 1 < Batch ==> Pending(done + [row], seen + {row.qid}, executed, rows + [row])
    ensures |rows| + 1 == Batch ==> Pending(done + [row], seen + {row.qid}, executed + [rows + [row]], [])
  {
    assert (done + [row])[..|done|] == done;
    KeysOfAppend(done, row, QidOf);
    var u := DedupBy(done, QidOf);
    var u' := DedupBy(done + [row], QidOf);
    assert u' == u + [row];
    var k := |u| - |rows|;
    assert u'[..k] == u[..k];
    assert u'[k..] == rows + [row];
    if |rows| + 1 == Batch {
      assert u == u[..k] + rows;
      assert u' == u[..k] + (rows + [row]);
      ChunksAppend(u[..k], rows + [row], Batch);
      WholeStep(k, Batch);
      assert u'[..|u'|] == u';
    }
  }

  /** One query row of the inner loop: a new id is queued, and a full queue is executed as one batch. */
  method QueueQuery(ghost done: seq<QueryRow>, row: QueryRow, seen: set<string>,
                    executed: seq<seq<QueryRow>>, rows: seq<QueryRow>)
    returns (seen': set<string>, executed': seq<seq<QueryRow>>, rows': seq<QueryRow>)
    requires Pending(done, seen, executed, rows)
    ensures Pending(done + [row], seen', executed', rows')
  {
    seen', executed', rows' := seen, executed, rows;
    if row.qid !in seen {
      PendingKeep(done, row, seen, executed, rows);
      seen' := seen + {row.qid};
      rows' := rows + [row];
      if |rows'| >= Batch {
        var b := Batches(rows', Batch);
        executed' := executed + b;
        rows' := [];
      }
    } else {
      PendingSkip(done, row, seen, executed, rows);
    }
  }

  /** The final, partial batch completes the pages of the first occurrences. */
  lemma PendingFlush(done: seq<QueryRow>, seen: set<string>, executed: seq<seq<QueryRow>>, rows: seq<QueryRow>)
    requires Pending(done, seen, executed, rows)
    ensures |rows| > 0 ==> executed + ChunksOf(rows, Batch) == ChunksOf(DedupBy(done, QidOf), Batch)
    ensures |rows| == 0 ==> executed == ChunksOf(DedupBy(done, QidOf), Batch)
  {
    var u := DedupBy(done, QidOf);
    if |rows| > 0 {
      ChunksAppend(u[..|u| - |rows|], rows, Batch);
      assert u[..|u| - |rows|] + rows == u;
    } else {
      assert u[..|u|] == u;
    }
  }

  /** The rows of one split, in order, tagged with its dataset id. */
  method QueueSplit(ghost done: seq<QueryRow>, id: string, pairs: seq<(string, string)>, seen: set<string>,
                    executed: seq<seq<QueryRow>>, rows: seq<QueryRow>)
    returns (seen': set<string>, executed': seq<seq<QueryRow>>, rows': seq<QueryRow>)
    requires Pending(done, seen, executed, rows)
    ensures Pending(done + Tag(id, pairs), seen', executed', rows')
  {
    seen', executed', rows' := seen, executed, rows;
    ghost var tagged := Tag(id, pairs);
    assert done + tagged[..0] == done;
    for j := 0 to |pairs|
      invariant Pending(done + tagged[..j], seen', executed', rows')
    {
      var (qid, text) := pairs[j];
      var row := QueryRow(qid, text, id);
      assert row == tagged[j];
      seen', executed', rows' := QueueQuery(done + tagged[..j], row, seen', executed', rows');
      assert done + tagged[..j + 1] == (done + tagged[..j]) + [row];
    }
    assert tagged[..|pairs|] == tagged;
  }

  /**
   * `insert_queries`: walk the splits in DATASETS order, keep each query id
   * the first time it is read, tagged with that split's dataset id, and
   * execute the kept rows 2000 at a time, with the rest at the end. It
   * returns the ids it saw.
   */
  method InsertQueries(splits: seq<Split>, utf8: seq<bv8> -> string) returns (executed: seq<seq<QueryRow>>, seen: set<string>)
    ensures executed == ChunksOf(DedupBy(TaggedQueries(splits, utf8), QidOf), Batch)
    ensures seen == KeysOf(TaggedQueries(splits, utf8), QidOf)
  {
    executed, seen := [], {};
    var rows: seq<QueryRow> := [];
    ghost var done: seq<QueryRow> := [];
    for d := 0 to |splits|
      invariant done == TaggedQueries(splits[..d], utf8)
      invariant Pending(done, seen, executed, rows)
    {
      var pairs := QueryPairs(splits[d].queries, utf8);
      seen, executed, rows := QueueSplit(done, splits[d].id, pairs, seen, executed, rows);
      done := done + Tag(splits[d].id, pairs);
      assert splits[..d + 1][..d] == splits[..d];
    }
    assert splits[..|splits|] == splits;
    PendingFlush(done, seen, executed, rows);
    if |rows| > 0 {
      var b := Batches(rows, Batch);
      executed := executed + b;
    }
  }

  /**
   * What `insert_queries` inserts: every row once, in pages of at most
   * 2000; no query id twice; each row is the first one read with its id,
   * so it carries the dataset id of the query's first occurrence; and the
   * ids it returns are exactly the inserted ids.
   */
  lemma InsertQueriesInsertsOnce(splits: seq<Split>, utf8: seq<bv8> -> string)
    ensures var all := TaggedQueries(splits, utf8);
            var u := DedupBy(all, QidOf);
            && Flatten(ChunksOf(u, Batch)) == u
            && (forall k :: 0 <= k < |ChunksOf(u, Batch)| ==> 0 < |ChunksOf(u, Batch)[k]| <= Batch)
            && (forall i, j :: 0 <= i < j < |u| ==> u[i].qid != u[j].qid)
            && (forall x :: x in u ==> FirstWithKey(all, QidOf, x))
            && KeysOf(u, QidOf) == KeysOf(all, QidOf)
  {
    var all := TaggedQueries(splits, utf8);
    ChunksOfShape(DedupBy(all, QidOf), Batch);
    DedupByFirstOccurrence(all, QidOf);
  }

  function DidOf(r: QrelRow): string { r.did }

  /** The qrels rows of all splits in DATASETS order. */
  function AllQrelRows(splits: seq<Split>, utf8: seq<bv8> -> string): seq<QrelRow>
  {
    if |splits| == 0 then []
    else AllQrelRows(splits[..|splits| - 1], utf8) + QrelRows(splits[|splits| - 1].qrels, utf8)
  }

  /** The doc ids the rows reference, in row order. */
  function Dids(rows: seq<QrelRow>): (r: seq<string>)
    ensures |r| == |rows| && forall k :: 0 <= k < |rows| ==> r[k] == rows[k].did
  {
    seq(|rows|, k requires 0 <= k < |rows| => rows[k].did)
  }

  /** The inner loop of `collect_qrels_and_doc_ids`: append each row, record its doc id when new. */
  method CollectRows(rows0: seq<QrelRow>, docIds0: seq<string>, qs: seq<QrelRow>) returns (rows: seq<QrelRow>, docIds: seq<string>)
    requires docIds0 == DedupBy(Dids(rows0), Id)
    ensures rows == rows0 + qs
    ensures docIds == DedupBy(Dids(rows), Id)
  {
    rows, docIds := rows0, docIds0;
    for j := 0 to |qs|
      invariant rows == rows0 + qs[..j]
      invariant docIds == DedupBy(Dids(rows), Id)
    {
      var did := qs[j].did;
      assert rows0 + qs[..j + 1] == rows + [qs[j]] by {
        assert qs[..j + 1] == qs[..j] + [qs[j]];
      }
      assert Dids(rows + [qs[j]]) == Dids(rows) + [did];
      DedupIdStep(Dids(rows), did);
      if did !in docIds {
        docIds := docIds + [did];
      }
      rows := rows + [qs[j]];
    }
    assert qs[..|qs|] == qs;
  }

  /**
   * `collect_qrels_and_doc_ids`: every qrels row of every split, in order,
   * and the doc ids they reference once each, in first-seen order (the keys
   * of a dict filled row by row).
   */
  method CollectQrelsAndDocIds(splits: seq<Split>, utf8: seq<bv8> -> string) returns (rows: seq<QrelRow>, docIds: seq<string>)
    ensures rows == AllQrelRows(splits, utf8)
    ensures docIds == DedupBy(Dids(rows), Id)
  {
    rows, docIds := [], [];
    for d := 0 to |splits|
      invariant rows == AllQrelRows(splits[..d], utf8)
      invariant docIds == DedupBy(Dids(rows), Id)
    {
      rows, docIds := CollectRows(rows, docIds, QrelRows(splits[d].qrels, utf8));
      assert splits[..d + 1][..d] == splits[..d];
    }
    assert splits[..|splits|] == splits;
  }

  /** The doc ids of `collect_qrels_and_doc_ids` are distinct, are exactly the referenced ids, and come in first-seen order. */
  lemma DocIdsFirstSeen(rows: seq<QrelRow>)
    ensures var ids := DedupBy(Dids(rows), Id);
            && NoDuplicates(ids)
            && (forall x :: x in ids <==> exists k :: 0 <= k < |rows| && rows[k].did == x)
            && (forall i, j :: 0 <= i < j < |ids| ==> FirstPos(Dids(rows), Id, ids[i]) < FirstPos(Dids(rows), Id, ids[j]))
  {
    var ds := Dids(rows);
    DistinctInOrder(ds);
    forall x | x in ds
      ensures exists k :: 0 <= k < |rows| && rows[k].did == x
    {
      var k :| 0 <= k < |ds| && ds[k] == x;
      assert rows[k].did == x;
    }
  }

  /** A document row as `iter_docs_by_ids` yields it: doc_id, url, title and body through `_nt`. */
  datatype DocRow = DocRow(docId: string, url: string, title: string, body: string)

  function DocRows(recs: seq<DocRec>, utf8: seq<bv8> -> string): (r: seq<DocRow>)
    ensures |r| == |recs|
    ensures forall k :: 0 <= k < |recs| ==> r[k] == DocRow(Nt(Attr(recs[k].docId), utf8), Nt(Attr(recs[k].url), utf8),
                                                           Nt(Attr(recs[k].title), utf8), Nt(Attr(recs[k].body), utf8))
  {
    seq(|recs|, k requires 0 <= k < |recs| =>
      DocRow(Nt(Attr(recs[k].docId), utf8), Nt(Attr(recs[k].url), utf8), Nt(Attr(recs[k].title), utf8), Nt(Attr(recs[k].body), utf8)))
  }

  /**
   * `insert_docs`: the docstore of the first split (a RuntimeError when it
   * has none) serves the documents; they are executed 2000 at a time. The
   * buffer loop is the one of `exec_batch`, so the pages are those of
   * `Batches`.
   */
  method InsertDocs(first: Split, docIds: seq<string>, fetch: seq<string> -> seq<DocRec>, utf8: seq<bv8> -> string)
    returns (r: Result<seq<seq<DocRow>>, Exc>)
    ensures !first.hasDocstore <==> r.Failure?
    ensures r.Failure? ==> r.error == RuntimeError("Dataset has no docstore; cannot random-access by doc_id.")
    ensures r.Success? ==> Flatten(r.value) == DocRows(fetch(docIds), utf8)
                           && forall k :: 0 <= k < |r.value| ==> 0 < |r.value[k]| <= Batch
  {
    if !first.hasDocstore {
      return Failure(RuntimeError("Dataset has no docstore; cannot random-access by doc_id."));
    }
    var pages := Batches(DocRows(fetch(docIds), utf8), Batch);
    ChunksOfShape(DocRows(fetch(docIds), utf8), Batch);
    return Success(pages);
  }

  // ---------------------------------------------------------------------
  // Passage v2 balanced loader into Postgres

  /** `DATASETS` of the passage loader. */
  const PassageV2Datasets: seq<(string, string)> := [
    ("trec-dl-2021", "msmarco-passage-v2/trec-dl-2021/judged"),
    ("trec-dl-2022", "msmarco-passage-v2/trec-dl-2022/judged")
  ]

  /** `LABELS`, `TARGET_PER_LABEL` and `TOTAL_TARGET`. */
  const Labels: seq<int> := [0, 1, 2, 3]
  const TargetPerLabel: nat := 250
  const TotalTarget: nat := TargetPerLabel * |Labels|

  /** The passage loader's query id: `query_id`, or the `qid` attribute when that is falsy, through `_nt`. */
  function V2Qid(q: QueryRec, utf8: seq<bv8> -> string): string
  {
    Nt(if Truthy(Attr(q.queryId)) then Attr(q.queryId) else Attr(q.qid), utf8)
  }

  /** A `queries_all` candidate: `qid -> (text, dataset_id)` when the id is non-empty. */
  function V2QueryEntry(q: QueryRec, id: string, utf8: seq<bv8> -> string): Option<(string, (string, string))>
  {
    if V2Qid(q, utf8) != "" then Some((V2Qid(q, utf8), (Nt(Attr(q.text), utf8), id))) else None
  }

  function V2QueryEntriesOf(recs: seq<QueryRec>, id: string, utf8: seq<bv8> -> string): (r: seq<Option<(string, (string, string))>>)
    ensures |r| == |recs| && forall k :: 0 <= k < |recs| ==> r[k] == V2QueryEntry(recs[k], id, utf8)
  {
    seq(|recs|, k requires 0 <= k < |recs| => V2QueryEntry(recs[k], id, utf8))
  }

  /** The candidates of all splits in DATASETS order. */
  function V2QueryEntries(splits: seq<Split>, utf8: seq<bv8> -> string): seq<Option<(string, (string, string))>>
  {
    if |splits| == 0 then []
    else
      var last := splits[|splits| - 1];
      V2QueryEntries(splits[..|splits| - 1], utf8) + V2QueryEntriesOf(last.queries, last.id, utf8)
  }

  /** `queries_all`: the first text and dataset id read for each non-empty query id. */
  function QueriesAll(splits: seq<Split>, utf8: seq<bv8> -> string): map<string, (string, string)>
  {
    FirstDictOf(V2QueryEntries(splits, utf8))
  }

  /** The label pool `qrels_by_label[c]` (a defaultdict: empty when absent). */
  function Pool(byLabel: map<int, seq<QrelRow>>, c: int): seq<QrelRow>
  {
    if c in byLabel then byLabel[c] else []
  }

  function RelOfRow(r: QrelRow): int { r.rel }

  /** The label pools after the rows `done`: one bucket per label, in reading order, and no other key. */
  ghost predicate Bucketed(byLabel: map<int, seq<QrelRow>>, done: seq<QrelRow>)
  {
    && (forall c :: c in byLabel ==> c in Labels)
    && (forall c :: c in Labels ==> Pool(byLabel, c) == Bucket(done, RelOfRow, c))
  }

  /** The queries loop of one split: a new non-empty id takes this record's text and the split's id. */
  method AddV2Queries(qa0: map<string, (string, string)>, ghost done: seq<Option<(string, (string, string))>>,
                      recs: seq<QueryRec>, id: string, utf8: seq<bv8> -> string)
    returns (qa: map<string, (string, string)>)
    requires qa0 == FirstDictOf(done)
    ensures qa == FirstDictOf(done + V2QueryEntriesOf(recs, id, utf8))
  {
    qa := qa0;
    ghost var es := V2QueryEntriesOf(recs, id, utf8);
    assert done + es[..0] == done;
    for k := 0 to |recs|
      invariant qa == FirstDictOf(done + es[..k])
    {
      PrefixSnoc(done, es, k);
      FirstDictStep(done + es[..k], es[k]);
      var qv := Attr(recs[k].queryId);
      var qid := Nt(if Truthy(qv) then qv else Attr(recs[k].qid), utf8);
      var text := Nt(Attr(recs[k].text), utf8);
      if qid != "" && qid !in qa {
        qa := qa[qid := (text, id)];
      }
    }
    assert es[..|recs|] == es;
  }

  /** One more row: it joins its label's pool when its relevance is a label. */
  lemma BucketedStep(byLabel: map<int, seq<QrelRow>>, done: seq<QrelRow>, row: QrelRow)
    requires Bucketed(byLabel, done)
    ensures Bucketed(if row.rel in Labels then byLabel[row.rel := Pool(byLabel, row.rel) + [row]] else byLabel, done + [row])
  {
    assert (done + [row])[..|done|] == done;
  }

  /** One more record: `iter_qrels`-style filtering of the passage loader. */
  lemma QrelRowsStep(recs: seq<QrelRec>, k: nat, utf8: seq<bv8> -> string)
    requires k < |recs|
    ensures QrelRows(recs[..k + 1], utf8) ==
              var row := QrelRowOf(recs[k], utf8);
              if row.qid != "" && row.did != "" then QrelRows(recs[..k], utf8) + [row] else QrelRows(recs[..k], utf8)
  {
    assert recs[..k + 1][..k] == recs[..k];
  }

  /** One more record of a split's qrels, as the loop of `AddV2Qrels` handles it. */
  lemma QrelStep(byLabel: map<int, seq<QrelRow>>, done: seq<QrelRow>, recs: seq<QrelRec>, k: nat, utf8: seq<bv8> -> string)
    requires k < |recs| && Bucketed(byLabel, done + QrelRows(recs[..k], utf8))
    ensures var row := QrelRowOf(recs[k], utf8);
            Bucketed(if row.qid != "" && row.did != "" && row.rel in Labels then byLabel[row.rel := Pool(byLabel, row.rel) + [row]] else byLabel,
                     done + QrelRows(recs[..k + 1], utf8))
  {
    QrelRowsStep(recs, k, utf8);
    var row := QrelRowOf(recs[k], utf8);
    var before := done + QrelRows(recs[..k], utf8);
    if row.qid != "" && row.did != "" {
      assert done + QrelRows(recs[..k + 1], utf8) == before + [row];
      BucketedStep(byLabel, before, row);
    }
  }

  /** The qrels loop of one split: a row with non-empty ids and a relevance in LABELS joins its label's pool. */
  method AddV2Qrels(byLabel0: map<int, seq<QrelRow>>, ghost done: seq<QrelRow>, recs: seq<QrelRec>, utf8: seq<bv8> -> string)
    returns (byLabel: map<int, seq<QrelRow>>)
    requires Bucketed(byLabel0, done)
    ensures Bucketed(byLabel, done + QrelRows(recs, utf8))
  {
    byLabel := byLabel0;
    assert done + QrelRows(recs[..0], utf8) == done;
    for k := 0 to |recs|
      invariant Bucketed(byLabel, done + QrelRows(recs[..k], utf8))
    {
      QrelStep(byLabel, done, recs, k, utf8);
      var row := QrelRowOf(recs[k], utf8);
      if row.qid != "" && row.did != "" {
        if row.rel in Labels {
          byLabel := byLabel[row.rel := Pool(byLabel, row.rel) + [row]];
        }
      }
    }
    assert recs[..|recs|] == recs;
  }

  /**
   * The reading loop of the passage loader's `main`: for each split in
   * DATASETS order, its queries into `queries_all` (first occurrence wins),
   * then its qrels into the label pools.
   */
  method CollectPassageV2(splits: seq<Split>, utf8: seq<bv8> -> string)
    returns (queriesAll: map<string, (string, string)>, byLabel: map<int, seq<QrelRow>>)
    ensures queriesAll == QueriesAll(splits, utf8)
    ensures Bucketed(byLabel, AllQrelRows(splits, utf8))
  {
    queriesAll, byLabel := map[], map[];
    for d := 0 to |splits|
      invariant queriesAll == FirstDictOf(V2QueryEntries(splits[..d], utf8))
      invariant Bucketed(byLabel, AllQrelRows(splits[..d], utf8))
    {
      assert splits[..d + 1][..d] == splits[..d];
      queriesAll := AddV2Queries(queriesAll, V2QueryEntries(splits[..d], utf8), splits[d].queries, splits[d].id, utf8);
      byLabel := AddV2Qrels(byLabel, AllQrelRows(splits[..d], utf8), splits[d].qrels, utf8);
    }
    assert splits[..|splits|] == splits;
  }

  /** A label's pool: the rows of that relevance, in reading order. */
  function LabelPool(all: seq<QrelRow>, c: int): seq<QrelRow>
  {
    Bucket(all, RelOfRow, c)
  }

  /**
   * The picks of the labels `ls` in order: `random.sample(pool, 250)` from
   * each label's pool with that label's draws; the first pool smaller than
   * 250 raises `random.sample`'s ValueError.
   */
  function Picks(all: seq<QrelRow>, ls: seq<int>, draws: int -> (nat -> nat)): Result<seq<QrelRow>, Exc>
  {
    if |ls| == 0 then Success([])
    else
      match Picks(all, ls[..|ls| - 1], draws)
      case Failure(e) => Failure(e)
      case Success(sel) =>
        match Sample(LabelPool(all, ls[|ls| - 1]), TargetPerLabel, draws(ls[|ls| - 1]))
        case Failure(e) => Failure(e)
        case Success(p) => Success(sel + p)
  }

  /** One more label: sample its pool and extend the selection, or fail. */
  lemma PicksStep(all: seq<QrelRow>, ls: seq<int>, k: nat, draws: int -> (nat -> nat), sel: seq<QrelRow>)
    requires k < |ls| && Picks(all, ls[..k], draws) == Success(sel)
    ensures var p := Sample(LabelPool(all, ls[k]), TargetPerLabel, draws(ls[k]));
            Picks(all, ls[..k + 1], draws) == if p.Failure? then Failure(p.error) else Success(sel + p.value)
  {
    assert ls[..k + 1][..k] == ls[..k];
  }

  /** The sampling loop over the label pools: extend the selection label by label. */
  method SampleByLabel(byLabel: map<int, seq<QrelRow>>, ghost all: seq<QrelRow>, draws: int -> (nat -> nat))
    returns (r: Result<seq<QrelRow>, Exc>)
    requires Bucketed(byLabel, all)
    ensures r == Picks(all, Labels, draws)
  {
    var labels := Labels;
    var selected: seq<QrelRow> := [];
    assert labels[..0] == [];
    for k := 0 to |labels|
      invariant Picks(all, labels[..k], draws) == Success(selected)
    {
      PicksStep(all, labels, k, draws, selected);
      assert labels[k] in Labels;
      var picked := Sample(Pool(byLabel, labels[k]), TargetPerLabel, draws(labels[k]));
      if picked.Failure? {
        PicksFailSticks(all, labels, k + 1, draws);
        return picked;
      }
      selected := selected + picked.value;
    }
    assert labels[..|labels|] == labels;
    return Success(selected);
  }

  /** Once a prefix of the labels fails, the whole sampling fails the same way. */
  lemma {:induction false} PicksFailSticks(all: seq<QrelRow>, ls: seq<int>, k: nat, draws: int -> (nat -> nat))
    requires k <= |ls| && Picks(all, ls[..k], draws).Failure?
    ensures Picks(all, ls, draws) == Picks(all, ls[..k], draws)
    decreases |ls| - k
  {
    if k < |ls| {
      assert ls[..k + 1][..k] == ls[..k];
      PicksFailSticks(all, ls, k + 1, draws);
    } else {
      assert ls[..k] == ls;
    }
  }

  /**
   * Sampling fails exactly when some label's pool has fewer than 250 rows,
   * and then with `random.sample`'s ValueError; on success it selects 250
   * rows per label.
   */
  lemma {:induction false} PicksOutcome(all: seq<QrelRow>, ls: seq<int>, draws: int -> (nat -> nat))
    ensures Picks(all, ls, draws).Success? <==> forall l :: l in ls ==> |LabelPool(all, l)| >= TargetPerLabel
    ensures Picks(all, ls, draws).Failure? ==>
              Picks(all, ls, draws).error == ValueError("Sample larger than population or is negative")
    ensures Picks(all, ls, draws).Success? ==> |Picks(all, ls, draws).value| == TargetPerLabel * |ls|
    decreases |ls|
  {
    if |ls| > 0 {
      var init, last := ls[..|ls| - 1], ls[|ls| - 1];
      PicksOutcome(all, init, draws);
      assert forall l :: l in ls <==> l in init || l == last;
    }
  }

  /**
   * With distinct labels, each label's part of a successful selection is
   * that label's own sample — 250 rows drawn from its pool — and nothing of
   * another label is selected.
   */
  lemma {:induction false} PicksBuckets(all: seq<QrelRow>, ls: seq<int>, draws: int -> (nat -> nat), c: int)
    requires Picks(all, ls, draws).Success? && NoDuplicates(ls)
    ensures c in ls ==> Sample(LabelPool(all, c), TargetPerLabel, draws(c)).Success?
                        && Bucket(Picks(all, ls, draws).value, RelOfRow, c) == Sample(LabelPool(all, c), TargetPerLabel, draws(c)).value
    ensures c !in ls ==> Bucket(Picks(all, ls, draws).value, RelOfRow, c) == []
    decreases |ls|
  {
    if |ls| == 0 {
      return;
    }
    var init, last := ls[..|ls| - 1], ls[|ls| - 1];
    var p := Sample(LabelPool(all, last), TargetPerLabel, draws(last));
    assert p.Success?;
    var sel := Picks(all, init, draws).value;
    assert Picks(all, ls, draws).value == sel + p.value;
    assert NoDuplicates(init);
    assert last !in init;
    assert forall l :: l in ls <==> l in init || l == last;
    if |init| > 0 {
      PicksBuckets(all, init, draws, c);
    }
    SampleRels(all, last, draws);
    BucketUniform(p.value, RelOfRow, last, c);
    BucketConcat(sel, p.value, RelOfRow, c);
  }

  /** A label's sample holds only rows of that label. */
  lemma SampleRels(all: seq<QrelRow>, c: int, draws: int -> (nat -> nat))
    ensures var p := Sample(LabelPool(all, c), TargetPerLabel, draws(c));
            p.Success? ==> forall x :: x in p.value ==> x.rel == c
  {
    SampleMembers(LabelPool(all, c), TargetPerLabel, draws(c));
    BucketMembers(all, RelOfRow, c);
  }

  /** The picks of the labels `ls` carry only those labels. */
  lemma {:induction false} PicksLabels(all: seq<QrelRow>, ls: seq<int>, draws: int -> (nat -> nat))
    requires Picks(all, ls, draws).Success?
    ensures forall x :: x in Picks(all, ls, draws).value ==> x.rel in ls
    decreases |ls|
  {
    if |ls| > 0 {
      var init, last := ls[..|ls| - 1], ls[|ls| - 1];
      PicksLabels(all, init, draws);
      SampleRels(all, last, draws);
      assert forall l :: l in init ==> l in ls;
    }
  }

  /** `{qid for (qid, *_rest) in selected_qrels}` */
  function UsedQids(sel: seq<QrelRow>): set<string>
  {
    set r | r in sel :: r.qid
  }

  /** `{did for (_qid, did, *_rest) in selected_qrels}` */
  function UsedDids(sel: seq<QrelRow>): set<string>
  {
    set r | r in sel :: r.did
  }

  /** A fetched passage `doc_id -> text` through `_nt`, kept when the id is non-empty. */
  function FetchedEntry(d: DocRec, utf8: seq<bv8> -> string): Option<(string, string)>
  {
    if Nt(Attr(d.docId), utf8) != "" then Some((Nt(Attr(d.docId), utf8), Nt(Attr(d.text), utf8))) else None
  }

  function FetchedEntries(recs: seq<DocRec>, utf8: seq<bv8> -> string): (r: seq<Option<(string, string)>>)
    ensures |r| == |recs| && forall k :: 0 <= k < |recs| ==> r[k] == FetchedEntry(recs[k], utf8)
  {
    seq(|recs|, k requires 0 <= k < |recs| => FetchedEntry(recs[k], utf8))
  }

  /** `fetched_docs`: filled record by record; a later record for an id overwrites an earlier one. */
  method FetchDocs(recs: seq<DocRec>, utf8: seq<bv8> -> string) returns (fetched: map<string, string>)
    ensures fetched == DictOf(FetchedEntries(recs, utf8))
  {
    ghost var es := FetchedEntries(recs, utf8);
    fetched := map[];
    for k := 0 to |recs|
      invariant fetched == DictOf(es[..k])
    {
      assert es[..k + 1][..k] == es[..k];
      var did := Nt(Attr(recs[k].docId), utf8);
      var text := Nt(Attr(recs[k].text), utf8);
      if did != "" {
        fetched := fetched[did := text];
      }
    }
    assert es[..|recs|] == es;
  }

  /**
   * The queries insert loop: every used id, in the set's iteration order
   * (any order); an id without a query text raises RuntimeError naming it.
   */
  method InsertUsedQueries(used: set<string>, qa: map<string, (string, string)>) returns (r: Result<seq<QueryRow>, Exc>)
    ensures r.Success? <==> used <= qa.Keys
    ensures r.Failure? ==> exists q :: q in used && q !in qa && r.error == RuntimeError("Selected query " + q + " not found in queries_all")
    ensures r.Success? ==> NoDuplicates(r.value)
                           && forall x :: x in r.value <==> x.qid in used && x.qid in qa && x == QueryRow(x.qid, qa[x.qid].0, qa[x.qid].1)
  {
    var left := used;
    var out: seq<QueryRow> := [];
    while left != {}
      invariant left <= used
      invariant forall q :: q in used - left ==> q in qa
      invariant NoDuplicates(out)
      invariant forall x :: x in out <==> x.qid in used - left && x.qid in qa && x == QueryRow(x.qid, qa[x.qid].0, qa[x.qid].1)
      decreases |left|
    {
      var q :| q in left;
      if q !in qa {
        return Failure(RuntimeError("Selected query " + q + " not found in queries_all"));
      }
      out := out + [QueryRow(q, qa[q].0, qa[q].1)];
      left := left - {q};
    }
    return Success(out);
  }

  /**
   * The docs insert loop: every used id with its fetched text, in the set's
   * iteration order; an id that was not fetched is a KeyError.
   */
  method InsertUsedDocs(used: set<string>, fetched: map<string, string>) returns (r: Result<seq<(string, string)>, Exc>)
    ensures r.Success? <==> used <= fetched.Keys
    ensures r.Failure? ==> exists d :: d in used && d !in fetched && r.error == KeyError(d)
    ensures r.Success? ==> NoDuplicates(r.value)
                           && forall x :: x in r.value <==> x.0 in used && x.0 in fetched && x.1 == fetched[x.0]
  {
    var left := used;
    var out: seq<(string, string)> := [];
    while left != {}
      invariant left <= used
      invariant forall d :: d in used - left ==> d in fetched
      invariant NoDuplicates(out)
      invariant forall x :: x in out <==> x.0 in used - left && x.0 in fetched && x.1 == fetched[x.0]
      decreases |left|
    {
      var d :| d in left;
      if d !in fetched {
        return Failure(KeyError(d));
      }
      out := out + [(d, fetched[d])];
      left := left - {d};
    }
    return Success(out);
  }

  /** The rows the passage loader inserts before its single commit. */
  datatype V2Tables = V2Tables(datasets: seq<(string, string)>, queries: seq<QueryRow>, docs: seq<(string, string)>, qrels: seq<QrelRow>)

  /** `selected_qrels` after `random.shuffle`: the per-label sample in a shuffled order, or the sampling's error. */
  function Selection(all: seq<QrelRow>, sampleDraws: int -> (nat -> nat), shuffleDraws: nat -> nat): (r: Result<seq<QrelRow>, Exc>)
    ensures r.Failure? <==> Picks(all, Labels, sampleDraws).Failure?
    ensures r.Success? ==> multiset(r.value) == multiset(Picks(all, Labels, sampleDraws).value)
  {
    var p := Picks(all, Labels, sampleDraws);
    if p.Failure? then Failure(p.error) else Success(Shuffle(p.value, shuffleDraws))
  }

  /**
   * The insert phase of the passage loader's `main`, given the used ids and
   * the fetched passages: a selected query missing from the query table is
   * a RuntimeError and, after that, a missing passage a KeyError; otherwise
   * the datasets, each used query once, each used passage once and the
   * selection are inserted.
   */
  ghost predicate Inserted(used: set<string>, usedDocs: set<string>, qa: map<string, (string, string)>, fetched: map<string, string>,
                           datasets: seq<(string, string)>, selected: seq<QrelRow>, r: Result<V2Tables, Exc>)
  {
    && (r.Success? <==> used <= qa.Keys && usedDocs <= fetched.Keys)
    && (!(used <= qa.Keys) ==>
          exists q :: q in used && q !in qa && r == Failure(RuntimeError("Selected query " + q + " not found in queries_all")))
    && (used <= qa.Keys && !(usedDocs <= fetched.Keys) ==>
          exists d :: d in usedDocs && d !in fetched && r == Failure(KeyError(d)))
    && (r.Success? ==>
          && r.value.datasets == datasets
          && r.value.qrels == selected
          && NoDuplicates(r.value.queries)
          && (forall x :: x in r.value.queries <==> x.qid in used && x.qid in qa && x == QueryRow(x.qid, qa[x.qid].0, qa[x.qid].1))
          && NoDuplicates(r.value.docs)
          && (forall x :: x in r.value.docs <==> x.0 in usedDocs && x.0 in fetched && x.1 == fetched[x.0]))
  }

  method InsertSelection(used: set<string>, usedDocs: set<string>, qa: map<string, (string, string)>, fetched: map<string, string>,
                         datasets: seq<(string, string)>, selected: seq<QrelRow>)
    returns (r: Result<V2Tables, Exc>)
    ensures Inserted(used, usedDocs, qa, fetched, datasets, selected, r)
  {
    var queries := InsertUsedQueries(used, qa);
    if queries.Failure? {
      return Failure(queries.error);
    }
    var docs := InsertUsedDocs(usedDocs, fetched);
    if docs.Failure? {
      return Failure(docs.error);
    }
    return Success(V2Tables(datasets, queries.value, docs.value, selected));
  }

  /**
   * The second half of the passage loader's `main`, given the shuffled
   * selection: no corpus docstore is a RuntimeError; so is a fetch that
   * returned fewer distinct passages than doc ids used; otherwise the
   * insert phase decides.
   */
  ghost predicate Committed(selected: seq<QrelRow>, qa: map<string, (string, string)>, corpusHasStore: bool,
                            fetch: set<string> -> seq<DocRec>, utf8: seq<bv8> -> string,
                            datasets: seq<(string, string)>, r: Result<V2Tables, Exc>)
  {
    && (!corpusHasStore ==> r == Failure(RuntimeError("msmarco-passage-v2 has no docs_store()")))
    && (corpusHasStore ==> FetchedAndInserted(selected, qa, fetch, utf8, datasets, r))
  }

  /**
   * With a docstore: a fetch that returned fewer distinct passages than doc
   * ids used is a RuntimeError; otherwise the insert phase decides.
   */
  ghost predicate FetchedAndInserted(selected: seq<QrelRow>, qa: map<string, (string, string)>,
                                     fetch: set<string> -> seq<DocRec>, utf8: seq<bv8> -> string,
                                     datasets: seq<(string, string)>, r: Result<V2Tables, Exc>)
  {
    var fetched := DictOf(FetchedEntries(fetch(UsedDids(selected)), utf8));
    var usedDocs := UsedDids(selected);
    && (|fetched| != |usedDocs| ==>
          r == Failure(RuntimeError("Missing " + IntToDecimal(|usedDocs| - |fetched|) + " docs from corpus fetch; aborting.")))
    && (|fetched| == |usedDocs| ==> Inserted(UsedQids(selected), usedDocs, qa, fetched, datasets, selected, r))
  }

  /** From the used-id sets to the rows inserted before the commit. */
  method CommitSelection(selected: seq<QrelRow>, qa: map<string, (string, string)>, corpusHasStore: bool,
                         fetch: set<string> -> seq<DocRec>, utf8: seq<bv8> -> string, datasets: seq<(string, string)>)
    returns (r: Result<V2Tables, Exc>)
    ensures Committed(selected, qa, corpusHasStore, fetch, utf8, datasets, r)
  {
    if !corpusHasStore {
      return Failure(RuntimeError("msmarco-passage-v2 has no docs_store()"));
    }
    r := FetchAndInsert(selected, qa, fetch, utf8, datasets);
  }

  /** Fetch the used passages, check that none is missing, then insert. */
  method FetchAndInsert(selected: seq<QrelRow>, qa: map<string, (string, string)>,
                        fetch: set<string> -> seq<DocRec>, utf8: seq<bv8> -> string, datasets: seq<(string, string)>)
    returns (r: Result<V2Tables, Exc>)
    ensures FetchedAndInserted(selected, qa, fetch, utf8, datasets, r)
  {
    var usedQids := UsedQids(selected);
    var usedDids := UsedDids(selected);
    var fetched := FetchDocs(fetch(usedDids), utf8);
    if |fetched| != |usedDids| {
      return Failure(RuntimeError("Missing " + IntToDecimal(|usedDids| - |fetched|) + " docs from corpus fetch; aborting."));
    }
    r := InsertSelection(usedQids, usedDids, qa, fetched, datasets, selected);
  }

  /**
   * The passage loader's `main`: read the splits, sample 250 qrels per
   * label and shuffle them in place, then fetch, check and insert as
   * `Committed` describes. An exception before the commit leaves nothing
   * behind.
   */
  method LoadPassageV2(splits: seq<Split>, utf8: seq<bv8> -> string, sampleDraws: int -> (nat -> nat), shuffleDraws: nat -> nat,
                       corpusHasStore: bool, fetch: set<string> -> seq<DocRec>)
    returns (r: Result<V2Tables, Exc>)
    ensures var sel := Selection(AllQrelRows(splits, utf8), sampleDraws, shuffleDraws);
            && (sel.Failure? ==> r == Failure(sel.error))
            && (sel.Success? ==> Committed(sel.value, QueriesAll(splits, utf8), corpusHasStore, fetch, utf8, DatasetRows(splits), r))
  {
    var queriesAll, byLabel := CollectPassageV2(splits, utf8);
    var picked := SampleByLabel(byLabel, AllQrelRows(splits, utf8), sampleDraws);
    if picked.Failure? {
      return Failure(picked.error);
    }
    var sel := picked.value;
    var arr := new QrelRow[|sel|](i requires 0 <= i < |sel| => sel[i]);
    assert arr[..] == sel;
    ShuffleInPlace(arr, shuffleDraws);
    assert Selection(AllQrelRows(splits, utf8), sampleDraws, shuffleDraws) == Success(arr[..]);
    r := CommitSelection(arr[..], queriesAll, corpusHasStore, fetch, utf8, DatasetRows(splits));
  }

  /** Every row of a permutation of the picks carries one of the labels. */
  lemma PermutedLabels(all: seq<QrelRow>, sampleDraws: int -> (nat -> nat), sel: seq<QrelRow>)
    requires Picks(all, Labels, sampleDraws).Success?
    requires multiset(sel) == multiset(Picks(all, Labels, sampleDraws).value)
    ensures forall x :: x in sel ==> x.rel in Labels
  {
    PicksLabels(all, Labels, sampleDraws);
    forall x | x in sel ensures x.rel in Labels {
      assert x in multiset(sel);
    }
  }

  /** Each label's bucket of a permutation of the picks holds 250 rows of that label's pool. */
  lemma PermutedBucket(all: seq<QrelRow>, sampleDraws: int -> (nat -> nat), sel: seq<QrelRow>, c: int)
    requires Picks(all, Labels, sampleDraws).Success?
    requires multiset(sel) == multiset(Picks(all, Labels, sampleDraws).value)
    requires c in Labels
    ensures |Bucket(sel, RelOfRow, c)| == TargetPerLabel
    ensures multiset(Bucket(sel, RelOfRow, c)) <= multiset(LabelPool(all, c))
  {
    LabelsDistinct();
    PermutedPicksBucket(all, Labels, sampleDraws, sel, c);
  }

  /** LABELS names each relevance once. */
  lemma LabelsDistinct()
    ensures NoDuplicates(Labels)
  {
  }

  /** Each distinct label's bucket of a permutation of its picks is that label's sample. */
  lemma PermutedPicksBucket(all: seq<QrelRow>, ls: seq<int>, draws: int -> (nat -> nat), sel: seq<QrelRow>, c: int)
    requires Picks(all, ls, draws).Success? && NoDuplicates(ls)
    requires multiset(sel) == multiset(Picks(all, ls, draws).value)
    requires c in ls
    ensures |Bucket(sel, RelOfRow, c)| == TargetPerLabel
    ensures multiset(Bucket(sel, RelOfRow, c)) <= multiset(LabelPool(all, c))
  {
    var picks := Picks(all, ls, draws).value;
    PicksBuckets(all, ls, draws, c);
    BucketPermutation(picks, sel, RelOfRow, c);
  }

  /**
   * What the passage loader selects: 1000 qrels, exactly 250 of each label,
   * each label's drawn from that label's pool without repetition, and no
   * other label — whatever order the final shuffle leaves them in.
   */
  lemma SelectionBalanced(all: seq<QrelRow>, sampleDraws: int -> (nat -> nat), shuffleDraws: nat -> nat)
    requires Selection(all, sampleDraws, shuffleDraws).Success?
    ensures var sel := Selection(all, sampleDraws, shuffleDraws).value;
            && |sel| == TotalTarget
            && (forall x :: x in sel ==> x.rel in Labels)
            && forall c :: c in Labels ==>
                 && |Bucket(sel, RelOfRow, c)| == TargetPerLabel
                 && multiset(Bucket(sel, RelOfRow, c)) <= multiset(LabelPool(all, c))
  {
    var sel := Selection(all, sampleDraws, shuffleDraws).value;
    PicksOutcome(all, Labels, sampleDraws);
    PermutedLabels(all, sampleDraws, sel);
    forall c | c in Labels
      ensures |Bucket(sel, RelOfRow, c)| == TargetPerLabel
      ensures multiset(Bucket(sel, RelOfRow, c)) <= multiset(LabelPool(all, c))
    {
      PermutedBucket(all, sampleDraws, sel, c);
    }
  }

  // ---------------------------------------------------------------------
  // Document v2 subset export to Parquet and to CSV

  /** `DOC_BATCH_SIZE`: doc ids per docstore request. */
  const DocBatchSize: nat := 10000

  /** The exported values keep `nt_get`'s form: bytes decoded, anything else as read. */
  datatype ExportQuery = ExportQuery(queryId: PyValue, text: PyValue, datasetId: string)
  datatype ExportQrel = ExportQrel(queryId: PyValue, docId: PyValue, relevance: int, iteration: PyValue)
  datatype ExportDoc = ExportDoc(docId: PyValue, url: PyValue, title: PyValue, body: PyValue)

  function ExportQid(q: ExportQuery): PyValue { q.queryId }

  function ExportQueriesOf(recs: seq<QueryRec>, id: string, utf8: seq<bv8> -> string): (r: seq<ExportQuery>)
    ensures |r| == |recs|
    ensures forall k :: 0 <= k < |recs| ==> r[k] == ExportQuery(NtGet(recs[k].queryId, utf8), NtGet(recs[k].text, utf8), id)
  {
    seq(|recs|, k requires 0 <= k < |recs| => ExportQuery(NtGet(recs[k].queryId, utf8), NtGet(recs[k].text, utf8), id))
  }

  /** Every query record of every split in DATASETS order, tagged with its split's id. */
  function ExportQueryStream(splits: seq<Split>, utf8: seq<bv8> -> string): seq<ExportQuery>
  {
    if |splits| == 0 then []
    else
      var last := splits[|splits| - 1];
      ExportQueryStream(splits[..|splits| - 1], utf8) + ExportQueriesOf(last.queries, last.id, utf8)
  }

  function ExportQrelsOf(recs: seq<QrelRec>, utf8: seq<bv8> -> string): (r: seq<ExportQrel>)
    ensures |r| == |recs|
    ensures forall k :: 0 <= k < |recs| ==>
              r[k] == ExportQrel(NtGet(recs[k].queryId, utf8), NtGet(recs[k].docId, utf8), RelOrZero(recs[k].relevance), NtGet(recs[k].iteration, utf8))
  {
    seq(|recs|, k requires 0 <= k < |recs| =>
      ExportQrel(NtGet(recs[k].queryId, utf8), NtGet(recs[k].docId, utf8), RelOrZero(recs[k].relevance), NtGet(recs[k].iteration, utf8)))
  }

  /** Every qrel record of every split in DATASETS order: all labels, 0 included, none skipped. */
  function ExportQrelStream(splits: seq<Split>, utf8: seq<bv8> -> string): seq<ExportQrel>
  {
    if |splits| == 0 then []
    else ExportQrelStream(splits[..|splits| - 1], utf8) + ExportQrelsOf(splits[|splits| - 1].qrels, utf8)
  }

  function DocIdValues(qrels: seq<ExportQrel>): (r: seq<PyValue>)
    ensures |r| == |qrels| && forall k :: 0 <= k < |qrels| ==> r[k] == qrels[k].docId
  {
    seq(|qrels|, k requires 0 <= k < |qrels| => qrels[k].docId)
  }

  /** The queries loop of one split: a query id not seen before is written with this split's id. */
  method ExportSplitQueries(queries0: seq<ExportQuery>, seen0: set<PyValue>, ghost done: seq<ExportQuery>,
                            recs: seq<QueryRec>, id: string, utf8: seq<bv8> -> string)
    returns (queries: seq<ExportQuery>, seen: set<PyValue>)
    requires queries0 == DedupBy(done, ExportQid) && seen0 == KeysOf(done, ExportQid)
    ensures queries == DedupBy(done + ExportQueriesOf(recs, id, utf8), ExportQid)
    ensures seen == KeysOf(done + ExportQueriesOf(recs, id, utf8), ExportQid)
  {
    queries, seen := queries0, seen0;
    ghost var es := ExportQueriesOf(recs, id, utf8);
    assert done + es[..0] == done;
    for k := 0 to |recs|
      invariant queries == DedupBy(done + es[..k], ExportQid)
      invariant seen == KeysOf(done + es[..k], ExportQid)
    {
      PrefixSnoc(done, es, k);
      ghost var before := done + es[..k];
      assert (before + [es[k]])[..|before|] == before;
      KeysOfAppend(before, es[k], ExportQid);
      var qid := NtGet(recs[k].queryId, utf8);
      if qid !in seen {
        queries := queries + [ExportQuery(qid, NtGet(recs[k].text, utf8), id)];
        seen := seen + {qid};
      }
    }
    assert es[..|recs|] == es;
  }

  /** The qrels loop of one split: every row is kept and its doc id recorded when new. */
  method ExportSplitQrels(qrels0: seq<ExportQrel>, needed0: seq<PyValue>, recs: seq<QrelRec>, utf8: seq<bv8> -> string)
    returns (qrels: seq<ExportQrel>, needed: seq<PyValue>)
    requires needed0 == DedupBy(DocIdValues(qrels0), Id)
    ensures qrels == qrels0 + ExportQrelsOf(recs, utf8)
    ensures needed == DedupBy(DocIdValues(qrels), Id)
  {
    qrels, needed := qrels0, needed0;
    ghost var es := ExportQrelsOf(recs, utf8);
    for k := 0 to |recs|
      invariant qrels == qrels0 + es[..k]
      invariant needed == DedupBy(DocIdValues(qrels), Id)
    {
      PrefixSnoc(qrels0, es, k);
      var row := ExportQrel(NtGet(recs[k].queryId, utf8), NtGet(recs[k].docId, utf8), RelOrZero(recs[k].relevance), NtGet(recs[k].iteration, utf8));
      assert row == es[k];
      assert DocIdValues(qrels + [row]) == DocIdValues(qrels) + [row.docId];
      DedupIdStep(DocIdValues(qrels), row.docId);
      if row.docId !in needed {
        needed := needed + [row.docId];
      }
      qrels := qrels + [row];
    }
    assert es[..|recs|] == es;
  }

  /**
   * The collection loop of the Parquet and CSV exporters' `main`: for each
   * split in DATASETS order its dataset row, its queries (each query id
   * once, with the dataset of its first occurrence) and all its qrels,
   * recording each referenced doc id once in first-seen order (the keys of
   * an `OrderedDict`).
   */
  method CollectExport(splits: seq<Split>, utf8: seq<bv8> -> string)
    returns (datasets: seq<(string, string)>, queries: seq<ExportQuery>, qrels: seq<ExportQrel>, needed: seq<PyValue>)
    ensures datasets == DatasetRows(splits)
    ensures queries == DedupBy(ExportQueryStream(splits, utf8), ExportQid)
    ensures qrels == ExportQrelStream(splits, utf8)
    ensures needed == DedupBy(DocIdValues(qrels), Id)
  {
    datasets, queries, qrels, needed := [], [], [], [];
    var seen: set<PyValue> := {};
    for d := 0 to |splits|
      invariant datasets == DatasetRows(splits[..d])
      invariant queries == DedupBy(ExportQueryStream(splits[..d], utf8), ExportQid)
      invariant seen == KeysOf(ExportQueryStream(splits[..d], utf8), ExportQid)
      invariant qrels == ExportQrelStream(splits[..d], utf8)
      invariant needed == DedupBy(DocIdValues(qrels), Id)
    {
      assert splits[..d + 1][..d] == splits[..d];
      datasets := datasets + [(splits[d].id, splits[d].key)];
      queries, seen := ExportSplitQueries(queries, seen, ExportQueryStream(splits[..d], utf8), splits[d].queries, splits[d].id, utf8);
      qrels, needed := ExportSplitQrels(qrels, needed, splits[d].qrels, utf8);
    }
    assert splits[..|splits|] == splits;
  }

  function ExportDocsOf(recs: seq<DocRec>, utf8: seq<bv8> -> string): (r: seq<ExportDoc>)
    ensures |r| == |recs|
    ensures forall k :: 0 <= k < |recs| ==>
              r[k] == ExportDoc(NtGet(recs[k].docId, utf8), NtGet(recs[k].url, utf8), NtGet(recs[k].title, utf8), NtGet(recs[k].body, utf8))
  {
    seq(|recs|, k requires 0 <= k < |recs| =>
      ExportDoc(NtGet(recs[k].docId, utf8), NtGet(recs[k].url, utf8), NtGet(recs[k].title, utf8), NtGet(recs[k].body, utf8)))
  }

  /** The documents the docstore answers for each batch of ids in turn. */
  function ExportedDocs(chunks: seq<seq<PyValue>>, fetch: seq<PyValue> -> seq<DocRec>, utf8: seq<bv8> -> string): seq<ExportDoc>
  {
    if |chunks| == 0 then []
    else ExportedDocs(chunks[..|chunks| - 1], fetch, utf8) + ExportDocsOf(fetch(chunks[|chunks| - 1]), utf8)
  }

  /**
   * The docs half of the exporters' `main`: no split loaded, or a first
   * split without a docstore, is a RuntimeError; otherwise the needed doc
   * ids go to the docstore 10000 at a time and each non-empty answer is
   * written as one row group (the CSV file holds the same rows one after
   * the other).
   */
  method ExportDocs(splits: seq<Split>, needed: seq<PyValue>, fetch: seq<PyValue> -> seq<DocRec>, utf8: seq<bv8> -> string)
    returns (r: Result<seq<seq<ExportDoc>>, Exc>)
    ensures |splits| == 0 ==> r == Failure(RuntimeError("No datasets loaded; nothing to export."))
    ensures |splits| > 0 && !splits[0].hasDocstore ==> r == Failure(RuntimeError("Dataset has no docstore; cannot random-access by doc_id."))
    ensures |splits| > 0 && splits[0].hasDocstore ==>
              && r.Success?
              && Flatten(r.value) == ExportedDocs(ChunksOf(needed, DocBatchSize), fetch, utf8)
              && |r.value| <= |ChunksOf(needed, DocBatchSize)|
              && forall k :: 0 <= k < |r.value| ==> r.value[k] != []
  {
    if |splits| == 0 {
      return Failure(RuntimeError("No datasets loaded; nothing to export."));
    }
    if !splits[0].hasDocstore {
      return Failure(RuntimeError("Dataset has no docstore; cannot random-access by doc_id."));
    }
    var chunks := Batches(needed, DocBatchSize);
    var written: seq<seq<ExportDoc>> := [];
    for b := 0 to |chunks|
      invariant Flatten(written) == ExportedDocs(chunks[..b], fetch, utf8)
      invariant |written| <= b
      invariant forall k :: 0 <= k < |written| ==> written[k] != []
    {
      assert chunks[..b + 1][..b] == chunks[..b];
      var rows: seq<ExportDoc> := [];
      var got := fetch(chunks[b]);
      for j := 0 to |got|
        invariant rows == ExportDocsOf(got[..j], utf8)
      {
        rows := rows + [ExportDoc(NtGet(got[j].docId, utf8), NtGet(got[j].url, utf8), NtGet(got[j].title, utf8), NtGet(got[j].body, utf8))];
      }
      assert got[..|got|] == got;
      if rows != [] {
        FlattenAppend(written, rows);
        written := written + [rows];
      }
    }
    assert chunks[..|chunks|] == chunks;
    return Success(written);
  }

  /**
   * What the exporters write: each query id once, as the first record read
   * with that id, so with the dataset of its first occurrence; and every
   * referenced doc id once, in first-seen order, requested in batches of at
   * most 10000 that together are exactly the needed ids.
   */
  lemma ExportOnce(splits: seq<Split>, utf8: seq<bv8> -> string)
    ensures var all := ExportQueryStream(splits, utf8);
            var qs := DedupBy(all, ExportQid);
            && (forall i, j :: 0 <= i < j < |qs| ==> qs[i].queryId != qs[j].queryId)
            && (forall x :: x in qs ==> FirstWithKey(all, ExportQid, x))
            && KeysOf(qs, ExportQid) == KeysOf(all, ExportQid)
    ensures var ids := DocIdValues(ExportQrelStream(splits, utf8));
            var needed := DedupBy(ids, Id);
            && NoDuplicates(needed)
            && (forall x :: x in needed <==> x in ids)
            && (forall i, j :: 0 <= i < j < |needed| ==> FirstPos(ids, Id, needed[i]) < FirstPos(ids, Id, needed[j]))
            && Flatten(ChunksOf(needed, DocBatchSize)) == needed
            && (forall k :: 0 <= k < |ChunksOf(needed, DocBatchSize)| ==> 0 < |ChunksOf(needed, DocBatchSize)[k]| <= DocBatchSize)
  {
    DedupByFirstOccurrence(ExportQueryStream(splits, utf8), ExportQid);
    var ids := DocIdValues(ExportQrelStream(splits, utf8));
    DistinctInOrder(ids);
    ChunksOfShape(DedupBy(ids, Id), DocBatchSize);
  }
}
