/**
 * The pure half of the MS MARCO passage loader
 * (load_ms_marco_into_postgres/load_ms_marco_passage_to_postgres.py):
 * reading the TREC-DL 2019 queries TSV and qrels file, drawing a sample
 * balanced over the relevance classes, picking the needed passages out of
 * the collection, and cutting the upsert into pages.
 *
 * Files arrive as their rows (the queries TSV as its csv rows, the qrels
 * file as its lines, the collection as its `(doc_id, text)` pairs);
 * downloading, gzip/tar and csv decoding are not part of this model.
 */
module PassageLoader {
  import opened Common
  import opened PyJson
  import opened Etl
  import AuditStore

  /** `PER_CLASS`: qrels drawn per relevance class. */
  const PerClass: nat := 250

  /** `RELEVANCE_CLASSES`. */
  const RelevanceClasses: seq<int> := [0, 1, 2, 3]

  /** One judged pair `(query_id, doc_id, relevance)`. */
  datatype QrelTriple = QrelTriple(qid: string, did: string, rel: int)

  // ---------------------------------------------------------------------
  // str.split()

  /** The run of non-whitespace at the front of `t`. */
  function TakeWord(t: string): (w: string)
    ensures |w| <= |t| && w == t[..|w|]
    ensures forall i :: 0 <= i < |w| ==> !IsSpace(w[i])
    ensures |w| < |t| ==> IsSpace(t[|w|])
  {
    if |t| == 0 || IsSpace(t[0]) then []
    else
      var rest := TakeWord(t[1..]);
      assert t == [t[0]] + t[1..];
      [t[0]] + rest
  }

  /** `str.split()` with no separator: the maximal runs of non-whitespace. */
  function Words(s: string): seq<string>
    decreases |s|
  {
    var t := LStrip(s);
    LStripSpec(s);
    if |t| == 0 then []
    else
      var w := TakeWord(t);
      [w] + Words(t[|w|..])
  }

  lemma {:induction false} TakeWordOf(a: string, rest: string)
    requires forall i :: 0 <= i < |a| ==> !IsSpace(a[i])
    requires |rest| == 0 || IsSpace(rest[0])
    ensures TakeWord(a + rest) == a
    decreases |a|
  {
    if |a| > 0 {
      assert (a + rest)[1..] == a[1..] + rest;
      TakeWordOf(a[1..], rest);
      assert a == [a[0]] + a[1..];
    }
  }

  /** A word followed by whitespace (or by nothing) is the first word. */
  lemma WordsCons(a: string, rest: string)
    requires |a| > 0 && forall i :: 0 <= i < |a| ==> !IsSpace(a[i])
    requires |rest| == 0 || IsSpace(rest[0])
    ensures Words(a + rest) == [a] + Words(rest)
  {
    TakeWordOf(a, rest);
    assert (a + rest)[|a|..] == rest;
  }

  lemma WordsSpace(rest: string)
    ensures Words(" " + rest) == Words(rest)
  {
    assert (" " + rest)[1..] == rest;
  }

  // ---------------------------------------------------------------------
  // parse_qrels_file

  /** What one qrels line contributes. */
  datatype LineOutcome = Skipped | Kept(t: QrelTriple) | Raised(e: Exc)

  /** `rel.lstrip("-")`. */
  function LStripDash(s: string): string
  {
    if |s| > 0 && s[0] == '-' then LStripDash(s[1..]) else s
  }

  lemma NoDashParses(rel: string)
    requires IsDigits(LStripDash(rel)) && rel[0] != '-'
    ensures ParseIntLiteral(rel).Some?
  {
    assert DigitGroups(rel) by {
      assert LStripDash(rel) == rel;
      DigitsParse(rel);
    }
  }

  lemma OneDashParses(rel: string)
    requires IsDigits(LStripDash(rel)) && |rel| >= 2 && rel[0] == '-' && rel[1] != '-'
    ensures ParseIntLiteral(rel).Some?
  {
    var body := rel[1..];
    assert DigitGroups(body) by {
      assert LStripDash(rel) == body by {
        assert body[0] != '-';
        assert LStripDash(body) == body;
      }
      DigitsParse(body);
    }
  }

  /** Digits behind minus signs fail `int()` only behind two or more of them. */
  lemma DashedRelRaises(rel: string)
    requires IsDigits(LStripDash(rel)) && ParseIntLiteral(rel).None?
    ensures |rel| >= 2 && rel[0] == '-' && rel[1] == '-'
  {
    if rel[0] != '-' {
      NoDashParses(rel);
    } else if |rel| >= 2 && rel[1] != '-' {
      OneDashParses(rel);
    }
  }

  /**
   * The fields of a qrels line, `qid _ docid rel`: kept when `qid` is all
   * digits and `rel` is digits behind any number of minus signs, and then
   * `int(rel)` raises on more than one minus sign. Fewer than four fields
   * are skipped.
   */
  function FieldsOutcome(p: seq<string>): (r: LineOutcome)
    ensures r.Kept? ==> |p| >= 4 && IsDigits(r.t.qid) && r.t.qid == p[0] && r.t.did == p[2] && |r.t.did| > 0
    ensures r.Raised? ==> |p| >= 4 && |p[3]| >= 2 && p[3][0] == '-' && p[3][1] == '-'
    ensures r.Kept? <==> |p| >= 4 && IsDigits(p[0]) && |p[2]| > 0 && IsDigits(LStripDash(p[3]))
                         && ParseIntLiteral(p[3]).Some?
    ensures r.Kept? ==> r.t.rel == ParseIntLiteral(p[3]).value
    ensures r.Raised? <==> |p| >= 4 && IsDigits(p[0]) && |p[2]| > 0 && IsDigits(LStripDash(p[3]))
                           && ParseIntLiteral(p[3]).None?
    ensures r.Raised? ==> r.e == ValueError(InvalidLiteral(p[3]))
  {
    if |p| < 4 then Skipped
    else
      var qid, did, rel := p[0], p[2], p[3];
      if IsDigits(qid) && |did| > 0 && IsDigits(LStripDash(rel)) then
        match ParseIntLiteral(rel)
        case Some(v) => Kept(QrelTriple(qid, did, v))
        case None =>
          DashedRelRaises(rel);
          Raised(ValueError(InvalidLiteral(rel)))
      else Skipped
  }

  /** The message of the ValueError `int()` raises on text that is not an integer. */
  function InvalidLiteral(text: string): string
  {
    "invalid literal for int() with base 10: '" + text + "'"
  }

  /** One line of `parse_qrels_file`: stripped, skipped when blank, else split into fields. */
  function ParseQrelsLine(line: string): LineOutcome
  {
    var t := Strip(line);
    if |t| == 0 then Skipped else FieldsOutcome(Words(t))
  }

  /** A non-empty run without whitespace: what a single field of a qrels line is. */
  predicate IsWord(w: string)
  {
    |w| > 0 && forall i :: 0 <= i < |w| ==> !IsSpace(w[i])
  }

  /** Fields joined by single spaces. */
  function Spaced(ws: seq<string>): string
    decreases |ws|
  {
    if |ws| == 0 then "" else if |ws| == 1 then ws[0] else ws[0] + (" " + Spaced(ws[1..]))
  }

  /** The line a qrels file holds for a judgement, `qid 0 docid rel`. */
  function QrelsLine(t: QrelTriple): string
  {
    Spaced([t.qid, "0", t.did, IntToDecimal(t.rel)])
  }

  lemma WordThenRest(a: string, rest: string)
    requires IsWord(a)
    ensures Words(a + (" " + rest)) == [a] + Words(rest)
  {
    WordsCons(a, " " + rest);
    WordsSpace(rest);
  }

  /** Words joined by single spaces split back into those words. */
  lemma {:induction false} SplitSpaced(ws: seq<string>)
    requires forall k :: 0 <= k < |ws| ==> IsWord(ws[k])
    ensures Words(Spaced(ws)) == ws
    decreases |ws|
  {
    if |ws| == 0 {
      WordsEmpty();
    } else if |ws| == 1 {
      WordsCons(ws[0], []);
      WordsEmpty();
      assert ws[0] + [] == ws[0];
    } else {
      var rest := ws[1..];
      forall k | 0 <= k < |rest|
        ensures IsWord(rest[k])
      {
        assert rest[k] == ws[k + 1];
      }
      SplitSpaced(rest);
      assert Spaced(ws) == ws[0] + (" " + Spaced(rest));
      WordThenRest(ws[0], Spaced(rest));
      assert Words(Spaced(ws)) == [ws[0]] + rest;
      assert ws == [ws[0]] + rest;
    }
  }

  lemma WordsEmpty()
    ensures Words("") == []
  {
    assert LStrip("") == "";
  }

  /** A line of words starts with the first word's first character and ends with the last word's last one. */
  lemma {:induction false} SpacedEnds(ws: seq<string>)
    requires |ws| > 0 && forall k :: 0 <= k < |ws| ==> |ws[k]| > 0
    ensures |Spaced(ws)| > 0
    ensures Spaced(ws)[0] == ws[0][0]
    ensures Spaced(ws)[|Spaced(ws)| - 1] == ws[|ws| - 1][|ws[|ws| - 1]| - 1]
    decreases |ws|
  {
    if |ws| > 1 {
      SpacedEnds(ws[1..]);
    }
  }

  /** A line of words is its own strip. */
  lemma StripSpaced(ws: seq<string>)
    requires |ws| > 0 && forall k :: 0 <= k < |ws| ==> IsWord(ws[k])
    ensures Strip(Spaced(ws)) == Spaced(ws)
  {
    SpacedEnds(ws);
    var last := ws[|ws| - 1];
    assert IsWord(last) && IsWord(ws[0]);
    assert !IsSpace(last[|last| - 1]);
    StripNoop(Spaced(ws));
  }

  /** A line of words, stripped and split, gives back its words. */
  lemma SplitLine(ws: seq<string>)
    requires |ws| > 0 && forall k :: 0 <= k < |ws| ==> IsWord(ws[k])
    ensures |Strip(Spaced(ws))| > 0 && Words(Strip(Spaced(ws))) == ws
  {
    SplitSpaced(ws);
    StripSpaced(ws);
    SpacedEnds(ws);
  }

  lemma RelFieldParses(rel: int)
    ensures ParseIntLiteral(IntToDecimal(rel)) == Some(rel)
  {
    IntTextRoundTrip(rel);
    StripNoop(IntToDecimal(rel));
  }

  lemma RelFieldDigits(rel: int)
    ensures IsDigits(LStripDash(IntToDecimal(rel)))
  {
    var n: nat := if rel < 0 then -rel else rel;
    var d := NatToDecimal(n);
    if rel < 0 {
      assert IntToDecimal(rel) == "-" + d;
      assert ("-" + d)[1..] == d;
      assert d[0] != '-';
      assert LStripDash(d) == d;
    } else {
      assert IntToDecimal(rel) == d;
      assert d[0] != '-';
    }
  }

  lemma RelFieldIsWord(rel: int)
    ensures IsWord(IntToDecimal(rel))
  {
    var n: nat := if rel < 0 then -rel else rel;
    var d := NatToDecimal(n);
    var relText := IntToDecimal(rel);
    assert relText == (if rel < 0 then "-" + d else d);
    assert forall i :: 0 <= i < |relText| ==> relText[i] == '-' || IsAsciiDigit(relText[i]);
  }

  /** Every judgement with a numeric query id and a one-word doc id survives being written out and read back. */
  lemma QrelsLineRoundTrip(t: QrelTriple)
    requires IsDigits(t.qid) && IsWord(t.did)
    ensures ParseQrelsLine(QrelsLine(t)) == Kept(t)
  {
    var relText := IntToDecimal(t.rel);
    RelFieldParses(t.rel);
    RelFieldDigits(t.rel);
    RelFieldIsWord(t.rel);
    var ws := [t.qid, "0", t.did, relText];
    assert IsWord(t.qid) && IsWord("0");
    SplitLine(ws);
    assert FieldsOutcome(ws) == Kept(t);
  }

  lemma DoubleDashWord(digits: string)
    requires IsDigits(digits)
    ensures IsWord("--" + digits)
  {
    var rel := "--" + digits;
    assert forall i :: 0 <= i < |rel| ==> rel[i] == '-' || IsAsciiDigit(rel[i]);
  }

  lemma DoubleDashFiltered(digits: string)
    requires IsDigits(digits)
    ensures IsDigits(LStripDash("--" + digits))
  {
    var rel := "--" + digits;
    assert rel[1..] == "-" + digits && ("-" + digits)[1..] == digits;
    assert digits[0] != '-';
    assert LStripDash(digits) == digits;
  }

  lemma DoubleDashRejected(digits: string)
    ensures ParseIntLiteral("--" + digits).None?
  {
    var rel := "--" + digits;
    assert rel[1..][0] == '-';
  }

  /** A relevance written with two minus signs (`1 0 d --1`) passes the filter, but `int()` then raises. */
  lemma DoubleMinusRaises(qid: string, did: string, digits: string)
    requires IsDigits(qid) && IsWord(did) && IsDigits(digits)
    ensures ParseQrelsLine(Spaced([qid, "0", did, "--" + digits])) == Raised(ValueError(InvalidLiteral("--" + digits)))
  {
    DoubleDashWord(digits);
    DoubleDashFiltered(digits);
    DoubleDashRejected(digits);
    var ws := [qid, "0", did, "--" + digits];
    assert IsWord(qid) && IsWord("0");
    SplitLine(ws);
  }

  /** The kept triples of a run of line outcomes in order, or the first exception. */
  function Collect(outs: seq<LineOutcome>): Result<seq<QrelTriple>, Exc>
  {
    if |outs| == 0 then Success([]) else Absorb(Collect(outs[..|outs| - 1]), outs[|outs| - 1])
  }

  /** One more line: an earlier exception stands, a kept triple is appended, a raise ends the run. */
  function Absorb(before: Result<seq<QrelTriple>, Exc>, o: LineOutcome): Result<seq<QrelTriple>, Exc>
  {
    if before.Failure? then before
    else
      match o
      case Skipped => before
      case Kept(t) => Success(before.value + [t])
      case Raised(e) => Failure(e)
  }

  lemma CollectStep(outs: seq<LineOutcome>, i: nat)
    requires i < |outs|
    ensures Collect(outs[..i + 1]) == Absorb(Collect(outs[..i]), outs[i])
  {
    assert outs[..i + 1][..i] == outs[..i];
  }

  /**
   * The run succeeds exactly when no line raised; every kept triple comes
   * from a kept line; an exception is one some line raised.
   */
  lemma {:induction false} CollectSpec(outs: seq<LineOutcome>)
    ensures Collect(outs).Success? <==> forall i :: 0 <= i < |outs| ==> !outs[i].Raised?
    ensures Collect(outs).Success? ==> forall t :: t in Collect(outs).value ==> Kept(t) in outs
    ensures Collect(outs).Failure? ==> Raised(Collect(outs).error) in outs
  {
    if |outs| > 0 {
      var init := outs[..|outs| - 1];
      CollectSpec(init);
      assert forall i :: 0 <= i < |init| ==> init[i] == outs[i];
      assert forall x :: x in init ==> x in outs;
    }
  }

  function Outcomes(lines: seq<string>): (outs: seq<LineOutcome>)
    ensures |outs| == |lines| && forall i :: 0 <= i < |lines| ==> outs[i] == ParseQrelsLine(lines[i])
  {
    seq(|lines|, i requires 0 <= i < |lines| => ParseQrelsLine(lines[i]))
  }

  /** `parse_qrels_file` as a value: the kept triples in file order, or the first failing line's exception. */
  function QrelsOf(lines: seq<string>): Result<seq<QrelTriple>, Exc>
  {
    Collect(Outcomes(lines))
  }

  /** `parse_qrels_file`: read line by line, appending every kept triple. */
  method ParseQrelsFile(lines: seq<string>) returns (r: Result<seq<QrelTriple>, Exc>)
    ensures r == QrelsOf(lines)
  {
    var outs := Outcomes(lines);
    var items: seq<QrelTriple> := [];
    var i := 0;
    while i < |lines|
      invariant 0 <= i <= |lines|
      invariant Collect(outs[..i]) == Success(items)
    {
      var outcome := ParseQrelsLine(lines[i]);
      CollectStep(outs, i);
      match outcome {
        case Skipped =>
        case Kept(t) =>
          items := items + [t];
        case Raised(e) =>
          CollectFailureSticks(outs, i + 1);
          return Failure(e);
      }
      i := i + 1;
    }
    assert outs[..i] == outs;
    return Success(items);
  }

  /** Once a prefix has raised, the whole run raises the same exception. */
  lemma {:induction false} CollectFailureSticks(outs: seq<LineOutcome>, k: nat)
    requires k <= |outs| && Collect(outs[..k]).Failure?
    ensures Collect(outs) == Collect(outs[..k])
    decreases |outs| - k
  {
    if k < |outs| {
      CollectStep(outs, k);
      CollectFailureSticks(outs, k + 1);
    } else {
      assert outs[..k] == outs;
    }
  }

  // ---------------------------------------------------------------------
  // parse_queries_tsv_gz

  /** A csv row of the queries file that names a query: at least two columns, a numeric stripped id. */
  function QueryEntry(row: seq<string>): (e: Option<(string, string)>)
    ensures e.Some? ==> IsDigits(e.value.0)
  {
    if |row| >= 2 && IsDigits(Strip(row[0])) then Some((Strip(row[0]), row[1])) else None
  }

  function QueryEntries(rows: seq<seq<string>>): (es: seq<Option<(string, string)>>)
    ensures |es| == |rows| && forall i :: 0 <= i < |rows| ==> es[i] == QueryEntry(rows[i])
  {
    seq(|rows|, i requires 0 <= i < |rows| => QueryEntry(rows[i]))
  }

  /** The `{query_id: text}` dict of the queries file. */
  function QueriesOf(rows: seq<seq<string>>): map<string, string>
  {
    DictOf(QueryEntries(rows))
  }

  /** `parse_queries_tsv_gz`: the dict filled row by row. */
  method ParseQueriesTsv(rows: seq<seq<string>>) returns (out: map<string, string>)
    ensures out == QueriesOf(rows)
  {
    var es := QueryEntries(rows);
    out := map[];
    var i := 0;
    while i < |rows|
      invariant 0 <= i <= |rows|
      invariant out == DictOf(es[..i])
    {
      assert es[..i + 1][..i] == es[..i];
      assert es[..i + 1][i] == QueryEntry(rows[i]);
      if |rows[i]| >= 2 {
        var qid, text := Strip(rows[i][0]), rows[i][1];
        if |qid| > 0 && IsDigits(qid) {
          out := out[qid := text];
        }
      }
      i := i + 1;
    }
    assert es[..i] == es;
  }

  /** Every key of the queries dict is a numeric id. */
  lemma QueryIdsNumeric(rows: seq<seq<string>>)
    ensures forall k :: k in QueriesOf(rows) ==> IsDigits(k)
  {
    var es := QueryEntries(rows);
    DictLastWins(es);
    forall k | k in QueriesOf(rows) ensures IsDigits(k) {
      var j :| 0 <= j < |es| && es[j].Some? && es[j].value.0 == k;
      assert es[j] == QueryEntry(rows[j]);
    }
  }

  // ---------------------------------------------------------------------
  // balanced_sample_qrels

  function RelOf(t: QrelTriple): int { t.rel }

  /** The judgements of class `c`, in file order. */
  function ClassBucket(all: seq<QrelTriple>, c: int): seq<QrelTriple>
  {
    Bucket(all, RelOf, c)
  }

  /** The classes in dict order: a repeated class keeps its first place. */
  function ClassOrder(classes: seq<int>): seq<int>
  {
    DedupBy(classes, (c: int) => c)
  }

  /** `(class, size)` for every class whose bucket holds fewer than `perClass`. */
  function Shortages(all: seq<QrelTriple>, cs: seq<int>, perClass: int): seq<(int, nat)>
  {
    if |cs| == 0 then []
    else
      var init := Shortages(all, cs[..|cs| - 1], perClass);
      var c := cs[|cs| - 1];
      if |ClassBucket(all, c)| < perClass then init + [(c, |ClassBucket(all, c)|)] else init
  }

  /** The shortage list names exactly the classes that are short, each with its bucket size. */
  lemma {:induction false} ShortagesExact(all: seq<QrelTriple>, cs: seq<int>, perClass: int)
    ensures forall p :: p in Shortages(all, cs, perClass) ==> p.0 in cs && p.1 == |ClassBucket(all, p.0)| < perClass
    ensures forall c :: c in cs && |ClassBucket(all, c)| < perClass ==> exists p :: p in Shortages(all, cs, perClass) && p.0 == c
    decreases |cs|
  {
    if |cs| > 0 {
      var init := cs[..|cs| - 1];
      ShortagesExact(all, init, perClass);
      assert forall x :: x in cs ==> x in init || x == cs[|cs| - 1];
      assert forall x :: x in init ==> x in cs;
    }
  }

  function ShortageDetails(sh: seq<(int, nat)>, perClass: int): string
  {
    if |sh| == 0 then ""
    else
      var item := "rel=" + IntToDecimal(sh[0].0) + ": have " + IntToDecimal(sh[0].1) + ", need " + IntToDecimal(perClass);
      if |sh| == 1 then item else item + ", " + ShortageDetails(sh[1..], perClass)
  }

  /** The shuffled bucket of `c`, cut to `perClass` (`lst[:per_class]`). */
  function Picked(all: seq<QrelTriple>, c: int, perClass: int, draws: int -> (nat -> nat)): seq<QrelTriple>
  {
    PyPrefix(Shuffle(ClassBucket(all, c), draws(c)), perClass)
  }

  /** The picks of every class in `cs`, one class after the other. */
  function Gathered(all: seq<QrelTriple>, cs: seq<int>, perClass: int, draws: int -> (nat -> nat)): seq<QrelTriple>
  {
    if |cs| == 0 then []
    else Gathered(all, cs[..|cs| - 1], perClass, draws) + Picked(all, cs[|cs| - 1], perClass, draws)
  }

  /** `(rel, qid, did)` order, as `out.sort(key=lambda t: (t[2], t[0], t[1]))`. */
  predicate TripleLe(a: QrelTriple, b: QrelTriple)
  {
    a.rel < b.rel
    || (a.rel == b.rel && ((AuditStore.StrLe(a.qid, b.qid) && a.qid != b.qid)
                           || (a.qid == b.qid && AuditStore.StrLe(a.did, b.did))))
  }

  lemma TripleLeTotal(a: QrelTriple, b: QrelTriple)
    ensures TripleLe(a, b) || TripleLe(b, a)
  {
    AuditStore.StrLeTotal(a.qid, b.qid);
    AuditStore.StrLeTotal(a.did, b.did);
  }

  predicate SortedTriples(s: seq<QrelTriple>)
  {
    forall i :: 0 <= i < |s| - 1 ==> TripleLe(s[i], s[i + 1])
  }

  function InsertTriple(x: QrelTriple, s: seq<QrelTriple>): (r: seq<QrelTriple>)
    requires SortedTriples(s)
    ensures SortedTriples(r)
    ensures multiset(r) == multiset(s) + multiset{x}
    ensures |r| > 0 && (r[0] == x || (|s| > 0 && r[0] == s[0]))
  {
    if |s| == 0 then [x]
    else if TripleLe(x, s[0]) then [x] + s
    else
      TripleLeTotal(x, s[0]);
      var t := InsertTriple(x, s[1..]);
      assert s == [s[0]] + s[1..];
      [s[0]] + t
  }

  /** The sorted list: in `(rel, qid, did)` order and a permutation of the input. */
  function SortTriples(s: seq<QrelTriple>): (r: seq<QrelTriple>)
    ensures SortedTriples(r)
    ensures multiset(r) == multiset(s) && |r| == |s|
  {
    if |s| == 0 then []
    else
      assert s == [s[0]] + s[1..];
      InsertTriple(s[0], SortTriples(s[1..]))
  }

  /**
   * `balanced_sample_qrels` as a value: a RuntimeError listing every short
   * class, else the picks of every class sorted. `draws(c)` is what the
   * seeded generator hands the shuffle of class `c`.
   */
  function BalancedSample(all: seq<QrelTriple>, classes: seq<int>, perClass: int, draws: int -> (nat -> nat)): Result<seq<QrelTriple>, Exc>
  {
    var cs := ClassOrder(classes);
    var sh := Shortages(all, cs, perClass);
    if |sh| > 0 then
      Failure(RuntimeError("Not enough judged qrels for balanced sampling: " + ShortageDetails(sh, perClass)))
    else
      Success(SortTriples(Gathered(all, cs, perClass, draws)))
  }

  /** The bucket loop: one list per class key, each judgement appended to its class's list. */
  method FillBuckets(all: seq<QrelTriple>, keys: set<int>) returns (buckets: map<int, seq<QrelTriple>>)
    ensures buckets.Keys == keys
    ensures forall c :: c in keys ==> buckets[c] == ClassBucket(all, c)
  {
    buckets := map c | c in keys :: [];
    var i := 0;
    while i < |all|
      invariant 0 <= i <= |all|
      invariant buckets.Keys == keys
      invariant forall c :: c in keys ==> buckets[c] == ClassBucket(all[..i], c)
    {
      assert all[..i + 1][..i] == all[..i];
      var t := all[i];
      if t.rel in buckets {
        buckets := buckets[t.rel := buckets[t.rel] + [t]];
      }
      i := i + 1;
    }
    assert all[..i] == all;
  }

  /** The `shortages` dict comprehension, in class order. */
  method FindShortages(all: seq<QrelTriple>, cs: seq<int>, perClass: int, buckets: map<int, seq<QrelTriple>>)
    returns (sh: seq<(int, nat)>)
    requires forall c :: c in cs ==> c in buckets && buckets[c] == ClassBucket(all, c)
    ensures sh == Shortages(all, cs, perClass)
  {
    sh := [];
    var k := 0;
    while k < |cs|
      invariant 0 <= k <= |cs|
      invariant sh == Shortages(all, cs[..k], perClass)
    {
      assert cs[..k + 1][..k] == cs[..k];
      var c := cs[k];
      if |buckets[c]| < perClass {
        sh := sh + [(c, |buckets[c]|)];
      }
      k := k + 1;
    }
    assert cs[..k] == cs;
  }

  /** The extend loop: each class's bucket shuffled and cut to `perClass`, one class after the other. */
  method GatherPicks(all: seq<QrelTriple>, cs: seq<int>, perClass: int, draws: int -> (nat -> nat), buckets: map<int, seq<QrelTriple>>)
    returns (out: seq<QrelTriple>)
    requires forall c :: c in cs ==> c in buckets && buckets[c] == ClassBucket(all, c)
    ensures out == Gathered(all, cs, perClass, draws)
  {
    out := [];
    var k := 0;
    while k < |cs|
      invariant 0 <= k <= |cs|
      invariant out == Gathered(all, cs[..k], perClass, draws)
    {
      assert cs[..k + 1][..k] == cs[..k];
      var c := cs[k];
      var lst := Shuffle(buckets[c], draws(c));
      out := out + PyPrefix(lst, perClass);
      k := k + 1;
    }
    assert cs[..k] == cs;
  }

  /**
   * `balanced_sample_qrels`: fill a bucket per class, collect the short
   * ones, then shuffle each bucket, keep its head and sort the lot.
   */
  method BalancedSampleQrels(all: seq<QrelTriple>, classes: seq<int>, perClass: int, draws: int -> (nat -> nat))
    returns (r: Result<seq<QrelTriple>, Exc>)
    ensures r == BalancedSample(all, classes, perClass, draws)
  {
    var cs, keys := FirstOccurrences(classes, (c: int) => c);
    assert forall c :: c in cs <==> c in keys by {
      DedupByFirstOccurrence(classes, (c: int) => c);
      forall c ensures c in cs <==> c in keys {
        if c in keys {
          var i :| 0 <= i < |cs| && cs[i] == c;
        }
      }
    }
    var buckets := FillBuckets(all, keys);
    var sh := FindShortages(all, cs, perClass, buckets);
    if |sh| > 0 {
      return Failure(RuntimeError("Not enough judged qrels for balanced sampling: " + ShortageDetails(sh, perClass)));
    }
    var out := GatherPicks(all, cs, perClass, draws, buckets);
    return Success(SortTriples(out));
  }

  /** A class's pick comes from its bucket without repetition, and is `perClass` long when the bucket is big enough. */
  lemma PickedShape(all: seq<QrelTriple>, c: int, perClass: int, draws: int -> (nat -> nat))
    ensures multiset(Picked(all, c, perClass, draws)) <= multiset(ClassBucket(all, c))
    ensures 0 <= perClass <= |ClassBucket(all, c)| ==> |Picked(all, c, perClass, draws)| == perClass
  {
    var sh := Shuffle(ClassBucket(all, c), draws(c));
    var p := Picked(all, c, perClass, draws);
    assert p == sh[..|p|];
    assert sh == sh[..|p|] + sh[|p|..];
  }

  /** Every judgement a class picks carries that class. */
  lemma PickedRels(all: seq<QrelTriple>, c: int, perClass: int, draws: int -> (nat -> nat))
    ensures forall t :: t in Picked(all, c, perClass, draws) ==> RelOf(t) == c
  {
    var p := Picked(all, c, perClass, draws);
    PickedShape(all, c, perClass, draws);
    BucketMembers(all, RelOf, c);
    forall t | t in p ensures RelOf(t) == c {
      assert t in multiset(p);
      assert t in multiset(ClassBucket(all, c));
    }
  }

  /** Gathering the classes `cs` yields only judgements of those classes. */
  lemma {:induction false} GatheredRels(all: seq<QrelTriple>, cs: seq<int>, perClass: int, draws: int -> (nat -> nat))
    ensures forall t :: t in Gathered(all, cs, perClass, draws) ==> t.rel in cs
    decreases |cs|
  {
    if |cs| > 0 {
      var init, last := cs[..|cs| - 1], cs[|cs| - 1];
      GatheredRels(all, init, perClass, draws);
      PickedRels(all, last, perClass, draws);
      assert forall x :: x in init ==> x in cs;
    }
  }

  /** Distinct classes gathered one after the other: class `c`'s part of the result is exactly its pick. */
  lemma {:induction false} GatheredBuckets(all: seq<QrelTriple>, cs: seq<int>, perClass: int, draws: int -> (nat -> nat), c: int)
    requires forall i, j :: 0 <= i < j < |cs| ==> cs[i] != cs[j]
    ensures ClassBucket(Gathered(all, cs, perClass, draws), c) == if c in cs then Picked(all, c, perClass, draws) else []
    decreases |cs|
  {
    if |cs| > 0 {
      var init, last := cs[..|cs| - 1], cs[|cs| - 1];
      GatheredBuckets(all, init, perClass, draws, c);
      var p := Picked(all, last, perClass, draws);
      PickedRels(all, last, perClass, draws);
      BucketUniform(p, RelOf, last, c);
      BucketConcat(Gathered(all, init, perClass, draws), p, RelOf, c);
      assert forall x :: x in cs <==> x in init || x == last;
      assert last !in init;
    }
  }

  /**
   * A successful balanced sample holds exactly `perClass` judgements of
   * every class, each drawn
   * from that class's judgements without repetition, nothing of any other
   * class, in `(rel, qid, did)` order.
   */
  lemma BalancedSampleShape(all: seq<QrelTriple>, classes: seq<int>, perClass: int, draws: int -> (nat -> nat))
    requires BalancedSample(all, classes, perClass, draws).Success?
    ensures var out := BalancedSample(all, classes, perClass, draws).value;
      && SortedTriples(out)
      && (forall t :: t in out ==> t.rel in classes)
      && (forall c :: c in classes && perClass >= 0 ==> |ClassBucket(out, c)| == perClass)
      && (forall c :: c in classes ==> multiset(ClassBucket(out, c)) <= multiset(ClassBucket(all, c)))
  {
    var cs := ClassOrder(classes);
    DedupByFirstOccurrence(classes, (c: int) => c);
    assert forall c :: c in classes <==> c in cs by {
      assert forall c :: c in classes <==> c in KeysOf(classes, (c: int) => c);
      assert forall c :: c in cs <==> c in KeysOf(cs, (c: int) => c);
    }
    var g := Gathered(all, cs, perClass, draws);
    var out := SortTriples(g);
    GatheredRels(all, cs, perClass, draws);
    assert forall t :: t in out ==> t in multiset(g);
    forall c | c in classes
      ensures perClass >= 0 ==> |ClassBucket(out, c)| == perClass
      ensures multiset(ClassBucket(out, c)) <= multiset(ClassBucket(all, c))
    {
      GatheredBuckets(all, cs, perClass, draws, c);
      BucketPermutation(out, g, RelOf, c);
      assert |ClassBucket(all, c)| >= perClass by {
        ShortagesExact(all, cs, perClass);
      }
      PickedShape(all, c, perClass, draws);
    }
  }

  /** The sample fails exactly when some class has fewer than `perClass` judgements. */
  lemma BalancedSampleFails(all: seq<QrelTriple>, classes: seq<int>, perClass: int, draws: int -> (nat -> nat))
    ensures BalancedSample(all, classes, perClass, draws).Failure?
            <==> exists c :: c in classes && |ClassBucket(all, c)| < perClass
  {
    var cs := ClassOrder(classes);
    DedupByFirstOccurrence(classes, (c: int) => c);
    assert forall c :: c in classes <==> c in cs by {
      assert forall c :: c in classes <==> c in KeysOf(classes, (c: int) => c);
      assert forall c :: c in cs <==> c in KeysOf(cs, (c: int) => c);
    }
    var sh := Shortages(all, cs, perClass);
    ShortagesExact(all, cs, perClass);
    if |sh| > 0 {
      assert sh[0] in sh;
    }
  }

  // ---------------------------------------------------------------------
  // collect_docs_subset_from_collection

  /** The text of the first collection row with id `d`. */
  function FirstText(stream: seq<(string, string)>, d: string): (r: Option<string>)
    ensures r.Some? <==> exists i :: 0 <= i < |stream| && stream[i].0 == d
    ensures r.Some? ==> exists i :: 0 <= i < |stream| && stream[i] == (d, r.value)
                                   && forall j :: 0 <= j < i ==> stream[j].0 != d
  {
    if |stream| == 0 then None
    else if stream[0].0 == d then Some(stream[0].1)
    else
      var r := FirstText(stream[1..], d);
      assert forall i :: 0 <= i < |stream| - 1 ==> stream[1..][i] == stream[i + 1];
      r
  }

  lemma {:induction false} FirstTextPrefix(stream: seq<(string, string)>, k: nat, d: string)
    requires k <= |stream|
    ensures FirstText(stream[..k], d).Some? ==> FirstText(stream, d) == FirstText(stream[..k], d)
    ensures k < |stream| ==>
              FirstText(stream[..k + 1], d) ==
                if FirstText(stream[..k], d).Some? then FirstText(stream[..k], d)
                else if stream[k].0 == d then Some(stream[k].1) else None
    decreases k
  {
    if k > 0 {
      assert stream[..k][1..] == stream[1..][..k - 1];
      FirstTextPrefix(stream[1..], k - 1, d);
      if k < |stream| {
        assert stream[..k + 1][1..] == stream[1..][..k];
      }
    } else if k < |stream| {
      assert stream[..1][1..] == [];
    }
  }

  /** The needed ids the stream never carries. */
  ghost function MissingIds(stream: seq<(string, string)>, needed: seq<string>): set<string>
  {
    set d | d in needed && FirstText(stream, d).None?
  }

  /** `found` holds exactly the first texts in `prefix` of the wanted ids seen there. */
  ghost predicate Scanned(prefix: seq<(string, string)>, want: set<string>, found: map<string, string>)
  {
    && found.Keys <= want
    && (forall d :: d in found ==> FirstText(prefix, d) == Some(found[d]))
    && (forall d :: d in want && d !in found ==> FirstText(prefix, d).None?)
  }

  /** Keeping a row's text only when its id is wanted and not yet seen preserves `Scanned`. */
  lemma ScanStep(stream: seq<(string, string)>, i: nat, want: set<string>, found: map<string, string>)
    requires i < |stream| && Scanned(stream[..i], want, found)
    ensures Scanned(stream[..i + 1], want,
                    if stream[i].0 in want && stream[i].0 !in found then found[stream[i].0 := stream[i].1] else found)
  {
    forall d
      ensures FirstText(stream[..i + 1], d) ==
                if FirstText(stream[..i], d).Some? then FirstText(stream[..i], d)
                else if stream[i].0 == d then Some(stream[i].1) else None
    {
      FirstTextPrefix(stream, i, d);
    }
  }

  /** Once every wanted id is found, the rest of the stream changes nothing. */
  lemma ScanComplete(stream: seq<(string, string)>, i: nat, want: set<string>, found: map<string, string>)
    requires i <= |stream| && Scanned(stream[..i], want, found) && found.Keys == want
    ensures Scanned(stream, want, found)
  {
    forall d | d in found
      ensures FirstText(stream, d) == Some(found[d])
    {
      FirstTextPrefix(stream, i, d);
    }
  }

  /**
   * The scan of `collect_docs_subset_from_collection`: keep the first text
   * seen for each wanted id and stop as soon as every wanted id is found
   * (`total` is the number of wanted ids). What it finds is what a full
   * scan would find.
   */
  method ScanCollection(stream: seq<(string, string)>, want: set<string>, total: nat) returns (found: map<string, string>)
    requires total == |want|
    ensures found.Keys <= want
    ensures forall d :: d in found ==> FirstText(stream, d) == Some(found[d])
    ensures forall d :: d in want && d !in found ==> FirstText(stream, d).None?
  {
    found := map[];
    var i := 0;
    while i < |stream|
      invariant 0 <= i <= |stream|
      invariant Scanned(stream[..i], want, found)
    {
      ScanStep(stream, i, want, found);
      var (docId, text) := stream[i];
      if docId in want && docId !in found {
        found := found[docId := text];
        if |found| == total {
          SubsetSameSize(found.Keys, want);
          ScanComplete(stream, i + 1, want, found);
          return;
        }
      }
      i := i + 1;
    }
    assert stream[..i] == stream;
  }

  /**
   * `collect_docs_subset_from_collection`: the first text of every needed
   * id, in the id set's iteration order `needed`; a missing id is a
   * RuntimeError counting the missing ids.
   */
  method CollectDocsSubset(stream: seq<(string, string)>, needed: seq<string>) returns (r: Result<seq<(string, string)>, Exc>)
    requires NoDuplicates(needed)
    ensures r.Success? <==> forall d :: d in needed ==> FirstText(stream, d).Some?
    ensures r.Success? ==> |r.value| == |needed|
                           && forall k :: 0 <= k < |needed| ==> r.value[k] == (needed[k], FirstText(stream, needed[k]).value)
    ensures r.Failure? ==> r.error == RuntimeError("Missing " + NatToDecimal(|MissingIds(stream, needed)|) + " documents from collection")
  {
    var want := set d | d in needed;
    DistinctCardinality(needed);
    var found := ScanCollection(stream, want, |needed|);
    var missing := set d | d in needed && d !in found;
    assert missing == MissingIds(stream, needed);
    if d :| d in needed && d !in found {
      assert d in missing;
      return Failure(RuntimeError("Missing " + NatToDecimal(|missing|) + " documents from collection"));
    }
    var out := seq(|needed|, k requires 0 <= k < |needed| => (needed[k], found[needed[k]]));
    return Success(out);
  }

  lemma {:induction false} DistinctCardinality<T>(s: seq<T>)
    requires NoDuplicates(s)
    ensures |set x | x in s| == |s|
    decreases |s|
  {
    if |s| > 0 {
      var init := s[..|s| - 1];
      DistinctCardinality(init);
      assert (set x | x in s) == (set x | x in init) + {s[|s| - 1]};
      assert s[|s| - 1] !in init;
    }
  }

  lemma SubsetSameSize<T>(a: set<T>, b: set<T>)
    requires a <= b && |a| == |b|
    ensures a == b
  {
    if a != b {
      var x :| x in b && x !in a;
      AuditStore.SubsetCardinality(a, b - {x});
    }
  }

  // ---------------------------------------------------------------------
  // execute_values_upsert

  /**
   * `execute_values_upsert`: pull up to `pageSize` rows at a time and send
   * each non-empty page as one statement, committing once at the end. A
   * `pageSize` of 0 or less yields an empty first page, so nothing is sent.
   */
  method ExecuteValuesUpsert<T>(rows: seq<T>, pageSize: int) returns (pages: seq<seq<T>>, commits: nat)
    ensures pageSize >= 1 ==> pages == ChunksOf(rows, pageSize)
    ensures pageSize <= 0 ==> pages == []
    ensures commits == 1
  {
    pages := [];
    var i := 0;
    while true
      invariant 0 <= i <= |rows|
      invariant pageSize >= 1 ==> (Whole(i, pageSize) || i == |rows|) && pages == ChunksOf(rows[..i], pageSize)
      invariant pageSize <= 0 ==> pages == [] && i == 0
      decreases |rows| - i
    {
      var end := if pageSize <= 0 then i else if i + pageSize <= |rows| then i + pageSize else |rows|;
      var chunk := rows[i..end];
      if |chunk| == 0 {
        break;
      }
      assert rows[..end] == rows[..i] + chunk;
      ChunksAppend(rows[..i], chunk, pageSize);
      if end == i + pageSize {
        WholeStep(i, pageSize);
      }
      pages := pages + [chunk];
      i := end;
    }
    if pageSize >= 1 {
      assert rows[..i] == rows;
    }
    commits := 1;
  }
}
