/**
 * The manual labelling script: the qrels still without a personal score
 * are grouped by query, the groups and the order of the queries are
 * shuffled, and an interactive loop walks the resulting list. Each answer
 * labels the current row (and commits), skips it, steps back to the row
 * visited before, or quits; end of input counts as quitting.
 *
 * The terminal is the parameter `input` (one line per prompt), the random
 * draws are parameters as in `Etl.Shuffle`, and the database is the log of
 * `UPDATE … SET personal_score` statements, each committed as it is made.
 */
module Labelling {
  import opened Common
  import opened Etl

  /** A qrel row still without a personal score; its texts are only displayed. */
  datatype Row = Row(qid: string, did: string)

  /** `LABELS` */
  const Labels: seq<string> := ["0", "1", "2", "3"]

  // ---------------------------------------------------------------------
  // build_randomized_sequence

  /** The query ids of the rows, in row order. */
  function Qids(rows: seq<Row>): (r: seq<string>)
    ensures |r| == |rows| && forall k :: 0 <= k < |rows| ==> r[k] == rows[k].qid
  {
    seq(|rows|, k requires 0 <= k < |rows| => rows[k].qid)
  }

  /** `by_qid[q]` once every row is read: the rows of query q in input order. */
  function RowsOf(rows: seq<Row>, q: string): (r: seq<Row>)
  {
    if |rows| == 0 then []
    else
      var last := rows[|rows| - 1];
      RowsOf(rows[..|rows| - 1], q) + (if last.qid == q then [last] else [])
  }

  /** The rows whose query id is in `qs`, in input order. */
  function Among(rows: seq<Row>, qs: set<string>): (r: seq<Row>)
  {
    if |rows| == 0 then []
    else
      var last := rows[|rows| - 1];
      Among(rows[..|rows| - 1], qs) + (if last.qid in qs then [last] else [])
  }

  /** The groups of the queries `qs`, one after the other, each shuffled with its own draws. */
  function Blocks(rows: seq<Row>, qs: seq<string>, groupDraws: string -> (nat -> nat)): seq<Row>
  {
    if |qs| == 0 then []
    else
      var q := qs[|qs| - 1];
      Blocks(rows, qs[..|qs| - 1], groupDraws) + Shuffle(RowsOf(rows, q), groupDraws(q))
  }

  /**
   * `build_randomized_sequence`: the query ids in first-seen order (the
   * keys of `by_qid`) are shuffled, and each query's rows, shuffled, are
   * laid out in that order.
   */
  function Randomized(rows: seq<Row>, groupDraws: string -> (nat -> nat), orderDraws: nat -> nat): seq<Row>
  {
    Blocks(rows, Shuffle(DedupBy(Qids(rows), Id), orderDraws), groupDraws)
  }

  /** Reading one more row adds it to its own query's group only. */
  lemma RowsOfSnoc(rows: seq<Row>, k: nat, q: string)
    requires k < |rows|
    ensures RowsOf(rows[..k + 1], q) == RowsOf(rows[..k], q) + (if rows[k].qid == q then [rows[k]] else [])
  {
    assert rows[..k + 1][..k] == rows[..k];
  }

  lemma QidsSnoc(rows: seq<Row>, k: nat)
    requires k < |rows|
    ensures Qids(rows[..k + 1]) == Qids(rows[..k]) + [rows[k].qid]
  {
  }

  /** The grouping loop: `by_qid.setdefault(r["query_id"], []).append(r)` for each row. */
  method GroupByQid(rows: seq<Row>) returns (byQid: map<string, seq<Row>>, keys: seq<string>)
    ensures keys == DedupBy(Qids(rows), Id)
    ensures forall q :: q in byQid <==> q in keys
    ensures forall q :: RowsOf(rows, q) == if q in byQid then byQid[q] else []
  {
    byQid, keys := map[], [];
    for k := 0 to |rows|
      invariant keys == DedupBy(Qids(rows[..k]), Id)
      invariant forall q :: q in byQid <==> q in keys
      invariant forall q :: RowsOf(rows[..k], q) == if q in byQid then byQid[q] else []
    {
      var r := rows[k];
      QidsSnoc(rows, k);
      DedupIdStep(Qids(rows[..k]), r.qid);
      if r.qid in byQid {
        byQid := byQid[r.qid := byQid[r.qid] + [r]];
      } else {
        byQid := byQid[r.qid := [r]];
        keys := keys + [r.qid];
      }
      forall q
        ensures RowsOf(rows[..k + 1], q) == if q in byQid then byQid[q] else []
      {
        RowsOfSnoc(rows, k, q);
      }
    }
    assert rows[..|rows|] == rows;
  }

  /** `random.shuffle(xs)` on a list: the list is shuffled in place, as an array. */
  method ShuffledList<T>(xs: seq<T>, draws: nat -> nat) returns (r: seq<T>)
    ensures r == Shuffle(xs, draws)
  {
    var a := new T[|xs|](i requires 0 <= i < |xs| => xs[i]);
    assert a[..] == xs;
    ShuffleInPlace(a, draws);
    r := a[..];
  }

  /** `random.shuffle(by_qid[qid])` for each query id, in key order. */
  method ShuffleGroups(byQid0: map<string, seq<Row>>, keys: seq<string>, groupDraws: string -> (nat -> nat))
    returns (byQid: map<string, seq<Row>>)
    requires forall q :: q in byQid0 <==> q in keys
    requires NoDuplicates(keys)
    ensures byQid.Keys == byQid0.Keys
    ensures forall q :: q in byQid ==> byQid[q] == Shuffle(byQid0[q], groupDraws(q))
  {
    byQid := byQid0;
    for k := 0 to |keys|
      invariant byQid.Keys == byQid0.Keys
      invariant forall j :: 0 <= j < k ==> byQid[keys[j]] == Shuffle(byQid0[keys[j]], groupDraws(keys[j]))
      invariant forall j :: k <= j < |keys| ==> byQid[keys[j]] == byQid0[keys[j]]
    {
      var q := keys[k];
      var group := ShuffledList(byQid[q], groupDraws(q));
      byQid := byQid[q := group];
    }
    forall q | q in byQid
      ensures byQid[q] == Shuffle(byQid0[q], groupDraws(q))
    {
      var j :| 0 <= j < |keys| && keys[j] == q;
    }
  }

  /** Laying out one more query appends its shuffled group. */
  lemma BlocksSnoc(rows: seq<Row>, qs: seq<string>, k: nat, groupDraws: string -> (nat -> nat))
    requires k < |qs|
    ensures Blocks(rows, qs[..k + 1], groupDraws) == Blocks(rows, qs[..k], groupDraws) + Shuffle(RowsOf(rows, qs[k]), groupDraws(qs[k]))
  {
    assert qs[..k + 1][..k] == qs[..k];
  }

  /** `build_randomized_sequence`, step by step: group, shuffle each group, shuffle the query ids, concatenate. */
  method BuildRandomizedSequence(rows: seq<Row>, groupDraws: string -> (nat -> nat), orderDraws: nat -> nat)
    returns (out: seq<Row>)
    ensures out == Randomized(rows, groupDraws, orderDraws)
  {
    var byQid0, keys := GroupByQid(rows);
    DistinctInOrder(Qids(rows));
    var byQid := ShuffleGroups(byQid0, keys, groupDraws);
    var qs := ShuffledList(keys, orderDraws);
    forall q | q in qs
      ensures q in byQid && byQid[q] == Shuffle(RowsOf(rows, q), groupDraws(q))
    {
      assert q in multiset(qs);
    }
    out := LayOut(byQid, qs, rows, groupDraws);
  }

  /** `for qid in qids: out.extend(by_qid[qid])` */
  method LayOut(byQid: map<string, seq<Row>>, qs: seq<string>, ghost rows: seq<Row>, groupDraws: string -> (nat -> nat))
    returns (out: seq<Row>)
    requires forall q :: q in qs ==> q in byQid && byQid[q] == Shuffle(RowsOf(rows, q), groupDraws(q))
    ensures out == Blocks(rows, qs, groupDraws)
  {
    out := [];
    for k := 0 to |qs|
      invariant out == Blocks(rows, qs[..k], groupDraws)
    {
      BlocksSnoc(rows, qs, k, groupDraws);
      out := out + byQid[qs[k]];
    }
    assert qs[..|qs|] == qs;
  }

  /** Splitting the selected query ids: one more id adds exactly that query's rows. */
  lemma {:induction false} AmongAdd(rows: seq<Row>, qs: set<string>, q: string)
    requires q !in qs
    ensures multiset(Among(rows, qs + {q})) == multiset(Among(rows, qs)) + multiset(RowsOf(rows, q))
  {
    if |rows| > 0 {
      var init, last := rows[..|rows| - 1], rows[|rows| - 1];
      AmongAdd(init, qs, q);
      var a, b, c := Among(init, qs + {q}), Among(init, qs), RowsOf(init, q);
      if last.qid == q {
        assert Among(rows, qs + {q}) == a + [last] && Among(rows, qs) == b && RowsOf(rows, q) == c + [last];
      } else if last.qid in qs {
        assert Among(rows, qs + {q}) == a + [last] && Among(rows, qs) == b + [last] && RowsOf(rows, q) == c;
      } else {
        assert Among(rows, qs + {q}) == a && Among(rows, qs) == b && RowsOf(rows, q) == c;
      }
    }
  }

  /** Selecting every query id present keeps every row. */
  lemma {:induction false} AmongAll(rows: seq<Row>, qs: set<string>)
    requires forall x :: x in rows ==> x.qid in qs
    ensures Among(rows, qs) == rows
  {
    if |rows| > 0 {
      AmongAll(rows[..|rows| - 1], qs);
      assert rows == rows[..|rows| - 1] + [rows[|rows| - 1]];
    }
  }

  /** The groups of distinct query ids together hold exactly those queries' rows. */
  lemma {:induction false} BlocksMultiset(rows: seq<Row>, qs: seq<string>, groupDraws: string -> (nat -> nat))
    requires NoDuplicates(qs)
    ensures multiset(Blocks(rows, qs, groupDraws)) == multiset(Among(rows, set q | q in qs))
  {
    if |qs| == 0 {
      assert (set q | q in qs) == {};
      AmongNone(rows);
    } else {
      var init, q := qs[..|qs| - 1], qs[|qs| - 1];
      assert NoDuplicates(init);
      assert q !in init;
      assert (set x | x in qs) == (set x | x in init) + {q};
      BlocksMultiset(rows, init, groupDraws);
      AmongAdd(rows, (set x | x in init), q);
    }
  }

  lemma {:induction false} AmongNone(rows: seq<Row>)
    ensures Among(rows, {}) == []
  {
    if |rows| > 0 {
      AmongNone(rows[..|rows| - 1]);
    }
  }

  /** A permutation of a sequence without repetitions has none either. */
  lemma DistinctPermutation<T>(a: seq<T>, b: seq<T>)
    requires NoDuplicates(a) && multiset(a) == multiset(b)
    ensures NoDuplicates(b)
  {
    forall i, j | 0 <= i < j < |b|
      ensures b[i] != b[j]
    {
      if b[i] == b[j] {
        TwiceCounted(b, i, j);
        OnceCounted(a, b[i]);
        assert false;
      }
    }
  }

  lemma {:induction false} OnceCounted<T>(s: seq<T>, x: T)
    requires NoDuplicates(s)
    ensures multiset(s)[x] <= 1
  {
    if |s| > 0 {
      var init := s[..|s| - 1];
      assert s == init + [s[|s| - 1]];
      assert NoDuplicates(init);
      OnceCounted(init, x);
      if s[|s| - 1] == x {
        assert x !in init;
      }
    }
  }

  lemma TwiceCounted<T>(s: seq<T>, i: nat, j: nat)
    requires i < j < |s| && s[i] == s[j]
    ensures multiset(s)[s[i]] >= 2
  {
    assert s == s[..j] + [s[j]] + s[j + 1..];
    assert s[i] in s[..j];
  }

  /** `build_randomized_sequence` returns a permutation of its input: no row lost, none repeated. */
  lemma RandomizedPermutation(rows: seq<Row>, groupDraws: string -> (nat -> nat), orderDraws: nat -> nat)
    ensures multiset(Randomized(rows, groupDraws, orderDraws)) == multiset(rows)
  {
    var keys := DedupBy(Qids(rows), Id);
    var order := Shuffle(keys, orderDraws);
    DistinctInOrder(Qids(rows));
    DistinctPermutation(keys, order);
    BlocksMultiset(rows, order, groupDraws);
    forall x | x in rows
      ensures x.qid in (set q | q in order)
    {
      var k :| 0 <= k < |rows| && rows[k] == x;
      assert Qids(rows)[k] == x.qid;
      assert x.qid in keys;
      assert x.qid in multiset(order) by {
        assert x.qid in multiset(keys);
      }
    }
    AmongAll(rows, set q | q in order);
  }

  /** All rows of one query stand next to each other. */
  predicate Contiguous(s: seq<Row>)
  {
    forall i, j, k :: 0 <= i < j < k < |s| && s[i].qid == s[k].qid ==> s[j].qid == s[i].qid
  }

  lemma ContiguousAppend(a: seq<Row>, b: seq<Row>, q: string)
    requires Contiguous(a)
    requires forall x :: x in a ==> x.qid != q
    requires forall x :: x in b ==> x.qid == q
    ensures Contiguous(a + b)
  {
    var s := a + b;
    forall i, j, k | 0 <= i < j < k < |s| && s[i].qid == s[k].qid
      ensures s[j].qid == s[i].qid
    {
      if k < |a| {
        assert s[i] == a[i] && s[j] == a[j] && s[k] == a[k];
      } else if i >= |a| {
        assert s[i] == b[i - |a|] && s[j] == b[j - |a|];
      }
    }
  }

  /** Laying out the groups of distinct query ids keeps each query's rows together. */
  lemma {:induction false} BlocksContiguous(rows: seq<Row>, qs: seq<string>, groupDraws: string -> (nat -> nat))
    requires NoDuplicates(qs)
    ensures Contiguous(Blocks(rows, qs, groupDraws))
  {
    if |qs| > 0 {
      var init, q := qs[..|qs| - 1], qs[|qs| - 1];
      assert NoDuplicates(init);
      assert q !in init;
      BlocksContiguous(rows, init, groupDraws);
      BlocksQids(rows, init, groupDraws);
      var a, b := Blocks(rows, init, groupDraws), Shuffle(RowsOf(rows, q), groupDraws(q));
      GroupQids(rows, q, groupDraws(q));
      ContiguousAppend(a, b, q);
    }
  }

  /** The groups of the ids `qs` hold only rows of those ids. */
  lemma {:induction false} BlocksQids(rows: seq<Row>, qs: seq<string>, groupDraws: string -> (nat -> nat))
    ensures forall x :: x in Blocks(rows, qs, groupDraws) ==> x.qid in qs
  {
    if |qs| > 0 {
      var init, q := qs[..|qs| - 1], qs[|qs| - 1];
      BlocksQids(rows, init, groupDraws);
      GroupQids(rows, q, groupDraws(q));
      assert forall x :: x in init ==> x in qs;
    }
  }

  /** A shuffled group holds only rows of its query id. */
  lemma GroupQids(rows: seq<Row>, q: string, draws: nat -> nat)
    ensures forall x :: x in Shuffle(RowsOf(rows, q), draws) ==> x.qid == q
  {
    var b := Shuffle(RowsOf(rows, q), draws);
    RowsOfMembers(rows, q);
    forall x | x in b
      ensures x.qid == q
    {
      assert x in multiset(b);
    }
  }

  /** A query's rows are rows of the input with that query id. */
  lemma {:induction false} RowsOfMembers(rows: seq<Row>, q: string)
    ensures forall x :: x in RowsOf(rows, q) ==> x.qid == q && x in rows
  {
    if |rows| > 0 {
      RowsOfMembers(rows[..|rows| - 1], q);
    }
  }

  /** In the output of `build_randomized_sequence` the rows of each query are contiguous. */
  lemma RandomizedContiguous(rows: seq<Row>, groupDraws: string -> (nat -> nat), orderDraws: nat -> nat)
    ensures Contiguous(Randomized(rows, groupDraws, orderDraws))
  {
    var keys := DedupBy(Qids(rows), Id);
    DistinctInOrder(Qids(rows));
    DistinctPermutation(keys, Shuffle(keys, orderDraws));
    BlocksContiguous(rows, Shuffle(keys, orderDraws), groupDraws);
  }

  // ---------------------------------------------------------------------
  // Reading an answer

  /** `prompt(...).strip().lower()`: the t-th input line normalised, or "q" once input has ended (EOFError). */
  function Answer(input: seq<string>, t: nat): (r: string)
    ensures t >= |input| ==> r == "q"
  {
    if t < |input| then Lower(Strip(input[t])) else "q"
  }

  /** What an answer asks for. */
  datatype Action = Quit | Back | Skip | Ignore | Score(score: int)

  /** `int(ans)` for an answer in LABELS: the label's position in LABELS. */
  function LabelValue(ans: string): (v: int)
    requires ans in Labels
    ensures 0 <= v < |Labels| && Labels[v] == ans
  {
    if ans == "0" then 0 else if ans == "1" then 1 else if ans == "2" then 2 else 3
  }

  /** The branches of the loop body, in the order they are tested. */
  function Classify(ans: string): (a: Action)
    ensures a.Score? <==> ans in Labels && ans != "q" && ans != "b" && ans != "s"
    ensures a.Score? ==> 0 <= a.score < |Labels| && Labels[a.score] == ans
  {
    if ans == "q" then Quit
    else if ans == "b" then Back
    else if ans == "s" then Skip
    else if ans in Labels then Score(LabelValue(ans))
    else Ignore
  }

  /** Upper- or lower-case, with or without surrounding whitespace, a command means the same. */
  lemma ClassifyNormalised(line: string, c: char)
    requires c in "qbs0123"
    requires Lower(Strip(line)) == [c]
    ensures Classify(Lower(Strip(line))) == Classify([c])
    ensures c == 'q' ==> Classify(Lower(Strip(line))) == Quit
    ensures c == 'b' ==> Classify(Lower(Strip(line))) == Back
    ensures c == 's' ==> Classify(Lower(Strip(line))) == Skip
    ensures '0' <= c <= '3' ==> Classify(Lower(Strip(line))) == Score(c as int - '0' as int)
  {
  }

  // ---------------------------------------------------------------------
  // The labelling loop

  /** The loop's position and its `history` stack of visited positions. */
  datatype Nav = Nav(i: int, history: seq<int>)

  /** What the loop keeps: 0 <= i <= n, and the history strictly increases and stays below i. */
  predicate NavInv(n: int, nav: Nav)
  {
    && 0 <= nav.i <= n
    && (forall a, b :: 0 <= a < b < |nav.history| ==> nav.history[a] < nav.history[b])
    && (forall a :: 0 <= a < |nav.history| ==> 0 <= nav.history[a] < nav.i)
  }

  /**
   * Where an answer other than quitting moves the loop: back pops the
   * history when there is one, skip and a label push the position and
   * advance, anything else stays.
   */
  function Move(nav: Nav, a: Action): (r: Nav)
    ensures r.i == nav.i || r.i == nav.i + 1 || r.i in nav.history
  {
    match a
    case Back =>
      if |nav.history| > 0 then Nav(nav.history[|nav.history| - 1], nav.history[..|nav.history| - 1]) else nav
    case Skip => Nav(nav.i + 1, nav.history + [nav.i])
    case Score(_) => Nav(nav.i + 1, nav.history + [nav.i])
    case _ => nav
  }

  /** Every answer keeps the loop's invariant while the position is inside the rows. */
  lemma MoveKeepsInv(n: int, nav: Nav, a: Action)
    requires NavInv(n, nav) && nav.i < n
    ensures NavInv(n, Move(nav, a))
  {
    var h := nav.history;
    if a.Back? && |h| > 0 {
      var h' := h[..|h| - 1];
      assert forall x :: 0 <= x < |h'| ==> h'[x] == h[x];
    }
  }

  /** Going back right after skipping or labelling returns to the row just left, with the history as it was. */
  lemma BackUndoes(nav: Nav, a: Action)
    requires a.Skip? || a.Score?
    ensures Move(Move(nav, a), Back) == nav
  {
    var h := nav.history + [nav.i];
    assert h[..|h| - 1] == nav.history;
  }

  /** Going back with an empty history changes nothing; only a label writes a score. */
  lemma BackAtStart(i: int)
    ensures Move(Nav(i, []), Back) == Nav(i, [])
  {
  }

  /** The state the loop leaves behind and the scores it wrote, each committed as written. */
  datatype Session = Session(nav: Nav, writes: seq<(Row, int)>)

  /** Every score written is one of LABELS, for one of the rows. */
  predicate ValidWrites(rows: seq<Row>, writes: seq<(Row, int)>)
  {
    forall k :: 0 <= k < |writes| ==> writes[k].0 in rows && 0 <= writes[k].1 < |Labels|
  }

  /** What each line of input asks for. */
  function Actions(input: seq<string>): (acts: seq<Action>)
    ensures |acts| == |input|
    ensures forall t :: 0 <= t < |input| ==> acts[t] == Classify(Answer(input, t))
  {
    seq(|input|, t requires 0 <= t < |input| => Classify(Answer(input, t)))
  }

  /**
   * The loop `while 0 <= i < n`, answer by answer from the t-th: quitting,
   * or running out of input, stops it where it stands; a label writes
   * (row, score) and moves on.
   */
  function Run(rows: seq<Row>, acts: seq<Action>, t: nat, nav: Nav, writes: seq<(Row, int)>): Session
    requires t <= |acts|
    decreases |acts| - t
  {
    if !(0 <= nav.i < |rows|) || t == |acts| || acts[t].Quit? then Session(nav, writes)
    else Run(rows, acts, t + 1, Move(nav, acts[t]), After(rows, nav, acts[t], writes))
  }

  /** The scores written once an answer is handled: a label adds (row, score). */
  function After(rows: seq<Row>, nav: Nav, a: Action, writes: seq<(Row, int)>): seq<(Row, int)>
    requires 0 <= nav.i < |rows|
  {
    if a.Score? then writes + [(rows[nav.i], a.score)] else writes
  }

  /** One turn of the loop that does not quit. */
  lemma RunStep(rows: seq<Row>, acts: seq<Action>, t: nat, nav: Nav, writes: seq<(Row, int)>)
    requires t < |acts| && 0 <= nav.i < |rows| && !acts[t].Quit?
    ensures Run(rows, acts, t, nav, writes) == Run(rows, acts, t + 1, Move(nav, acts[t]), After(rows, nav, acts[t], writes))
  {
  }

  /**
   * The loop keeps 0 <= i <= n with the history strictly increasing and
   * below i, and writes only scores from LABELS, for rows being labelled.
   */
  lemma {:induction false} RunKeepsInv(rows: seq<Row>, acts: seq<Action>, t: nat, nav: Nav, writes: seq<(Row, int)>)
    requires t <= |acts|
    requires NavInv(|rows|, nav) && ValidWrites(rows, writes)
    requires forall u :: t <= u < |acts| && acts[u].Score? ==> 0 <= acts[u].score < |Labels|
    ensures NavInv(|rows|, Run(rows, acts, t, nav, writes).nav)
    ensures ValidWrites(rows, Run(rows, acts, t, nav, writes).writes)
    decreases |acts| - t
  {
    if 0 <= nav.i < |rows| && t < |acts| && !acts[t].Quit? {
      MoveKeepsInv(|rows|, nav, acts[t]);
      RunKeepsInv(rows, acts, t + 1, Move(nav, acts[t]), After(rows, nav, acts[t], writes));
    }
  }

  /** Every action read off the input that labels, labels with one of LABELS. */
  lemma ActionsScores(input: seq<string>)
    ensures forall u :: 0 <= u < |input| && Actions(input)[u].Score? ==> 0 <= Actions(input)[u].score < |Labels|
  {
  }

  /** The loop body after the prompt, for an answer other than "q": back, skip, a label, or anything else. */
  method Turn(rows: seq<Row>, i: int, history: seq<int>, writes: seq<(Row, int)>, ans: string)
    returns (i': int, history': seq<int>, writes': seq<(Row, int)>)
    requires 0 <= i < |rows| && ans != "q"
    ensures Nav(i', history') == Move(Nav(i, history), Classify(ans))
    ensures writes' == if Classify(ans).Score? then writes + [(rows[i], Classify(ans).score)] else writes
  {
    i', history', writes' := i, history, writes;
    if ans == "b" {
      if |history| > 0 {
        i' := history[|history| - 1];
        history' := history[..|history| - 1];
      }
      return;
    }
    if ans == "s" {
      history' := history + [i];
      i' := i + 1;
      return;
    }
    if ans !in Labels {
      return;
    }
    var pred := LabelValue(ans);
    writes' := writes + [(rows[i], pred)];
    history' := history + [i];
    i' := i + 1;
  }

  /** The loop of `main`: prompt, normalise, and act, until the position leaves 0..n-1 or the answer is quit. */
  method LabelLoop(rows: seq<Row>, input: seq<string>) returns (s: Session)
    ensures s == Run(rows, Actions(input), 0, Nav(0, []), [])
  {
    ghost var acts := Actions(input);
    var n := |rows|;
    var i := 0;
    var history: seq<int> := [];
    var writes: seq<(Row, int)> := [];
    var t := 0;
    while 0 <= i < n
      invariant t <= |input|
      invariant NavInv(n, Nav(i, history))
      invariant Run(rows, acts, t, Nav(i, history), writes) == Run(rows, acts, 0, Nav(0, []), [])
      decreases |input| - t
    {
      var ans := Answer(input, t);
      if ans == "q" {
        break;
      }
      LoopStep(rows, input, t, Nav(i, history), writes);
      t := t + 1;
      i, history, writes := Turn(rows, i, history, writes, ans);
    }
    return Session(Nav(i, history), writes);
  }

  /** A turn whose answer is not "q" reads an input line and moves the loop on by one action. */
  lemma LoopStep(rows: seq<Row>, input: seq<string>, t: nat, nav: Nav, writes: seq<(Row, int)>)
    requires t <= |input| && NavInv(|rows|, nav) && 0 <= nav.i < |rows| && Answer(input, t) != "q"
    ensures t < |input|
    ensures var a := Classify(Answer(input, t));
            && NavInv(|rows|, Move(nav, a))
            && Run(rows, Actions(input), t, nav, writes) == Run(rows, Actions(input), t + 1, Move(nav, a), After(rows, nav, a, writes))
  {
    var acts := Actions(input);
    assert acts[t] == Classify(Answer(input, t));
    RunStep(rows, acts, t, nav, writes);
    MoveKeepsInv(|rows|, nav, acts[t]);
  }

  /** The loop stops before the last row only on a "q", typed or read at the end of input. */
  lemma {:induction false} EarlyStopIsQuit(rows: seq<Row>, input: seq<string>, t: nat, nav: Nav, writes: seq<(Row, int)>)
    requires t <= |input| && NavInv(|rows|, nav)
    requires Run(rows, Actions(input), t, nav, writes).nav.i < |rows|
    ensures exists u :: t <= u <= |input| && Answer(input, u) == "q"
    decreases |input| - t
  {
    var acts := Actions(input);
    if t == |input| {
      assert Answer(input, t) == "q";
    } else if acts[t].Quit? {
      assert Answer(input, t) == "q";
    } else {
      MoveKeepsInv(|rows|, nav, acts[t]);
      EarlyStopIsQuit(rows, input, t + 1, Move(nav, acts[t]), After(rows, nav, acts[t], writes));
    }
  }

  /** The scores written when every answer is a label, one row after the other from position t. */
  function LabelWrites(rows: seq<Row>, acts: seq<Action>, t: nat, m: nat): (r: seq<(Row, int)>)
    requires t <= m <= |rows| && m <= |acts|
    requires forall u :: t <= u < m ==> acts[u].Score?
    ensures |r| == m - t
  {
    seq(m - t, k requires 0 <= k < m - t => (rows[t + k], acts[t + k].score))
  }

  lemma LabelWritesCons(rows: seq<Row>, acts: seq<Action>, t: nat, m: nat)
    requires t < m <= |rows| && m <= |acts|
    requires forall u :: t <= u < m ==> acts[u].Score?
    ensures LabelWrites(rows, acts, t, m) == [(rows[t], acts[t].score)] + LabelWrites(rows, acts, t + 1, m)
  {
    var l, r := LabelWrites(rows, acts, t, m), LabelWrites(rows, acts, t + 1, m);
    assert forall k :: 1 <= k < |l| ==> l[k] == r[k - 1];
  }

  /**
   * Answering nothing but labels labels the rows in order: after the first
   * min(#answers, n) rows the loop stops, having finished exactly when the
   * answers reached the end of the rows.
   */
  lemma {:induction false} AllLabels(rows: seq<Row>, acts: seq<Action>, t: nat, history: seq<int>, writes: seq<(Row, int)>)
    requires t <= |acts| && t <= |rows|
    requires forall u :: t <= u < |acts| ==> acts[u].Score?
    ensures var m := if |acts| < |rows| then |acts| else |rows|;
            var r := Run(rows, acts, t, Nav(t, history), writes);
            && r.nav.i == m
            && r.writes == writes + LabelWrites(rows, acts, t, m)
    decreases |acts| - t
  {
    var m := if |acts| < |rows| then |acts| else |rows|;
    if t == m {
      assert LabelWrites(rows, acts, t, m) == [];
    } else {
      var a := acts[t];
      var w := writes + [(rows[t], a.score)];
      assert Move(Nav(t, history), a) == Nav(t + 1, history + [t]);
      AllLabels(rows, acts, t + 1, history + [t], w);
      LabelWritesCons(rows, acts, t, m);
      assert w + LabelWrites(rows, acts, t + 1, m) == writes + ([(rows[t], a.score)] + LabelWrites(rows, acts, t + 1, m));
    }
  }

  /**
   * `main` after the schema update and the fetch: nothing to do without
   * unlabelled rows; otherwise the rows are put in randomized order and
   * labelled interactively.
   */
  method LabelSession(rows: seq<Row>, groupDraws: string -> (nat -> nat), orderDraws: nat -> nat, input: seq<string>)
    returns (r: Option<Session>)
    ensures rows == [] <==> r.None?
    ensures r.Some? ==> r.value == Run(Randomized(rows, groupDraws, orderDraws), Actions(input), 0, Nav(0, []), [])
  {
    if rows == [] {
      return None;
    }
    var order := BuildRandomizedSequence(rows, groupDraws, orderDraws);
    var s := LabelLoop(order, input);
    return Some(s);
  }

  // ---------------------------------------------------------------------
  // wrap_block

  /** `"-" * k` */
  function Dashes(k: int): (r: string)
    ensures |r| == if k < 0 then 0 else k
    ensures forall c :: c in r ==> c == '-'
  {
    if k <= 0 then "" else Dashes(k - 1) + "-"
  }

  /**
   * The rule `wrap_block` draws under a title: dashes only, never wider
   * than `width` nor than needed, at least 20 wide and at least 4 wider
   * than the title when `width` leaves room for it, and exactly as wide as
   * the smaller of the two bounds.
   */
  function Bar(title: string, width: int): (r: string)
    ensures forall c :: c in r ==> c == '-'
    ensures |r| <= if width < 0 then 0 else width
    ensures |r| <= if |title| + 4 < 20 then 20 else |title| + 4
    ensures width >= 20 ==> |r| >= 20
    ensures width >= |title| + 4 ==> |r| >= |title| + 4
    ensures |r| == (if width < 0 then 0 else width) || |r| == (if |title| + 4 < 20 then 20 else |title| + 4)
  {
    var want := if |title| + 4 < 20 then 20 else |title| + 4;
    Dashes(if width < want then width else want)
  }
}
