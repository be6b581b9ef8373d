/**
 * What the MS MARCO loaders share: the value normalisation `_nt` /
 * `nt_get`, first-occurrence de-duplication (a `seen` set or an
 * `OrderedDict` beside an output list), cutting a stream of rows into
 * batches, and the standard library's `random.shuffle` / `random.sample`.
 *
 * Random draws are the parameter `draws`: `draws(i)` is the number
 * `randbelow(i + 1)` hands back when the shuffle reaches position i.
 * UTF-8 decoding is the parameter `utf8`.
 */
module Etl {
  import opened Common

  // ---------------------------------------------------------------------
  // _nt and nt_get

  /** A value read off an `ir_datasets` record: None, bytes, text, an int, or anything else (with its `str()`). */
  datatype PyValue = PyNone | PyBytes(bytes: seq<bv8>) | PyStr(s: string) | PyInt(i: int) | PyOther(repr: string)

  /** `s.replace("\x00", "")`. */
  function RemoveNul(s: string): (r: string)
    ensures '\0' !in r
    ensures |r| <= |s|
    ensures '\0' !in s ==> r == s
  {
    if |s| == 0 then []
    else
      var init := RemoveNul(s[..|s| - 1]);
      assert '\0' !in s ==> '\0' !in s[..|s| - 1] && s == s[..|s| - 1] + [s[|s| - 1]];
      if s[|s| - 1] == '\0' then init else init + [s[|s| - 1]]
  }

  /** Removing NULs keeps every other character, in order. */
  lemma {:induction false} RemoveNulKeepsOthers(a: string, b: string)
    ensures RemoveNul(a + b) == RemoveNul(a) + RemoveNul(b)
    decreases |b|
  {
    if |b| == 0 {
      assert a + b == a;
    } else {
      var b' := b[..|b| - 1];
      assert (a + b)[..|a + b| - 1] == a + b';
      RemoveNulKeepsOthers(a, b');
    }
  }

  /** `str(v)` for the values a record field can hold; bytes are decoded. */
  function TextOf(v: PyValue, utf8: seq<bv8> -> string): string
  {
    match v
    case PyNone => ""
    case PyBytes(b) => utf8(b)
    case PyStr(s) => s
    case PyInt(i) => IntToDecimal(i)
    case PyOther(repr) => repr
  }

  /**
   * `_nt`: None becomes "", bytes are decoded, anything else goes through
   * `str()`, and every NUL is removed, since Postgres cannot store it.
   */
  function Nt(v: PyValue, utf8: seq<bv8> -> string): (r: string)
    ensures '\0' !in r
    ensures v.PyNone? ==> r == ""
    ensures v.PyStr? && '\0' !in v.s ==> r == v.s
    ensures v.PyBytes? ==> r == RemoveNul(utf8(v.bytes))
  {
    RemoveNul(TextOf(v, utf8))
  }

  /** Normalising twice is normalising once. */
  lemma NtIdempotent(v: PyValue, utf8: seq<bv8> -> string)
    ensures Nt(PyStr(Nt(v, utf8)), utf8) == Nt(v, utf8)
  {
  }

  /**
   * `nt_get(obj, name)`: the attribute (or "" when it is missing), with
   * bytes decoded and every other value handed back unchanged — None and
   * NULs included.
   */
  function NtGet(attr: Option<PyValue>, utf8: seq<bv8> -> string): (r: PyValue)
    ensures attr.None? ==> r == PyStr("")
    ensures attr.Some? && attr.value.PyBytes? ==> r == PyStr(utf8(attr.value.bytes))
    ensures attr.Some? && !attr.value.PyBytes? ==> r == attr.value
  {
    if attr.None? then PyStr("")
    else if attr.value.PyBytes? then PyStr(utf8(attr.value.bytes))
    else attr.value
  }

  // ---------------------------------------------------------------------
  // First-occurrence de-duplication

  /** The keys that occur in `s`. */
  function KeysOf<T, K(==)>(s: seq<T>, key: T -> K): set<K>
  {
    set i | 0 <= i < |s| :: key(s[i])
  }

  lemma KeysOfAppend<T, K>(s: seq<T>, x: T, key: T -> K)
    ensures KeysOf(s + [x], key) == KeysOf(s, key) + {key(x)}
  {
    var t := s + [x];
    assert forall i :: 0 <= i < |s| ==> t[i] == s[i];
    assert t[|s|] == x;
  }

  /** The elements of `s` whose key has not occurred before them, in order. */
  function DedupBy<T, K(==)>(s: seq<T>, key: T -> K): seq<T>
  {
    if |s| == 0 then []
    else
      var init := s[..|s| - 1];
      var last := s[|s| - 1];
      if key(last) in KeysOf(init, key) then DedupBy(init, key) else DedupBy(init, key) + [last]
  }

  /** `x` is the first element of `s` with its key. */
  predicate FirstWithKey<T(==), K(==)>(s: seq<T>, key: T -> K, x: T)
  {
    exists i :: 0 <= i < |s| && s[i] == x && forall j :: 0 <= j < i ==> key(s[j]) != key(x)
  }

  lemma FirstWithKeyExtends<T, K>(s: seq<T>, t: seq<T>, key: T -> K, x: T)
    requires FirstWithKey(s, key, x)
    ensures FirstWithKey(s + t, key, x)
  {
    var i :| 0 <= i < |s| && s[i] == x && forall j :: 0 <= j < i ==> key(s[j]) != key(x);
    assert (s + t)[i] == x;
  }

  /**
   * De-duplication keeps one element per key — the first with that key —
   * and loses no key.
   */
  lemma {:induction false} DedupByFirstOccurrence<T, K>(s: seq<T>, key: T -> K)
    ensures KeysOf(DedupBy(s, key), key) == KeysOf(s, key)
    ensures forall i, j :: 0 <= i < j < |DedupBy(s, key)| ==> key(DedupBy(s, key)[i]) != key(DedupBy(s, key)[j])
    ensures forall x :: x in DedupBy(s, key) ==> FirstWithKey(s, key, x)
    decreases |s|
  {
    if |s| > 0 {
      var init, last := s[..|s| - 1], s[|s| - 1];
      assert s == init + [last];
      DedupByFirstOccurrence(init, key);
      KeysOfAppend(init, last, key);
      var d := DedupBy(init, key);
      forall x | x in d
        ensures FirstWithKey(s, key, x)
      {
        FirstWithKeyExtends(init, [last], key, x);
      }
      if key(last) !in KeysOf(init, key) {
        KeysOfAppend(d, last, key);
        assert FirstWithKey(s, key, last) by {
          assert s[|s| - 1] == last;
          forall j | 0 <= j < |s| - 1
            ensures key(s[j]) != key(last)
          {
            assert key(init[j]) in KeysOf(init, key);
          }
        }
        forall i | 0 <= i < |d|
          ensures key(d[i]) != key(last)
        {
          assert key(d[i]) in KeysOf(d, key);
        }
      }
    }
  }

  /** Re-deduplicating changes nothing. */
  lemma DedupByIdempotent<T, K>(s: seq<T>, key: T -> K)
    ensures DedupBy(DedupBy(s, key), key) == DedupBy(s, key)
  {
    DedupByFirstOccurrence(s, key);
    DistinctDedupNoop(DedupBy(s, key), key);
  }

  lemma {:induction false} DistinctDedupNoop<T, K>(s: seq<T>, key: T -> K)
    requires forall i, j :: 0 <= i < j < |s| ==> key(s[i]) != key(s[j])
    ensures DedupBy(s, key) == s
    decreases |s|
  {
    if |s| > 0 {
      var init := s[..|s| - 1];
      DistinctDedupNoop(init, key);
      assert key(s[|s| - 1]) !in KeysOf(init, key);
      assert s == init + [s[|s| - 1]];
    }
  }

  /**
   * The shared `seen`-set loop: walk the stream, keep an element when its
   * key is new, remember the key.
   */
  method FirstOccurrences<T, K(==)>(s: seq<T>, key: T -> K) returns (out: seq<T>, seen: set<K>)
    ensures out == DedupBy(s, key)
    ensures seen == KeysOf(s, key)
  {
    out, seen := [], {};
    var i := 0;
    while i < |s|
      invariant 0 <= i <= |s|
      invariant out == DedupBy(s[..i], key) && seen == KeysOf(s[..i], key)
    {
      assert s[..i + 1][..i] == s[..i] && s[..i + 1][i] == s[i];
      KeysOfAppend(s[..i], s[i], key);
      assert s[..i + 1] == s[..i] + [s[i]];
      if key(s[i]) !in seen {
        out := out + [s[i]];
        seen := seen + {key(s[i])};
      }
      i := i + 1;
    }
    assert s[..i] == s;
  }

  /** The identity, as the key of de-duplication by value. */
  function Id<T>(x: T): T { x }

  /** An element is in the de-duplicated sequence exactly when it is in the sequence. */
  lemma DedupMembers<T>(s: seq<T>, x: T)
    ensures x in DedupBy(s, Id) <==> x in s
  {
    DedupByFirstOccurrence(s, Id);
    if x in s {
      var i :| 0 <= i < |s| && s[i] == x;
      assert Id(s[i]) in KeysOf(s, Id);
      var j :| 0 <= j < |DedupBy(s, Id)| && Id(DedupBy(s, Id)[j]) == x;
    }
    if x in DedupBy(s, Id) {
      var d := DedupBy(s, Id);
      var j :| 0 <= j < |d| && d[j] == x;
      assert Id(d[j]) in KeysOf(d, Id);
      var i :| 0 <= i < |s| && Id(s[i]) == x;
    }
  }

  /** Reading one more value appends it exactly when it is new. */
  lemma DedupIdStep<T>(ds: seq<T>, did: T)
    ensures DedupBy(ds + [did], Id) == if did in DedupBy(ds, Id) then DedupBy(ds, Id) else DedupBy(ds, Id) + [did]
  {
    assert (ds + [did])[..|ds|] == ds;
    DedupMembers(ds, did);
    if did in ds {
      var i :| 0 <= i < |ds| && ds[i] == did;
      assert Id(ds[i]) in KeysOf(ds, Id);
    }
  }

  /**
   * First-occurrence de-duplication of plain values: no value twice,
   * exactly the values that occur, in the order each first occurs.
   */
  lemma DistinctInOrder<T>(s: seq<T>)
    ensures NoDuplicates(DedupBy(s, Id))
    ensures forall x :: x in DedupBy(s, Id) <==> x in s
    ensures forall i, j :: 0 <= i < j < |DedupBy(s, Id)| ==> FirstPos(s, Id, DedupBy(s, Id)[i]) < FirstPos(s, Id, DedupBy(s, Id)[j])
  {
    DedupByFirstOccurrence(s, Id);
    DedupByOrder(s, Id);
    forall x
      ensures x in DedupBy(s, Id) <==> x in s
    {
      DedupMembers(s, x);
    }
  }

  // ---------------------------------------------------------------------
  // Batches

  /** `s` cut into consecutive pieces of `n` (`n >= 1`), the last one possibly shorter. */
  function ChunksOf<T>(s: seq<T>, n: nat): (r: seq<seq<T>>)
    requires n >= 1
    decreases |s|
  {
    if |s| == 0 then []
    else if |s| <= n then [s]
    else [s[..n]] + ChunksOf(s[n..], n)
  }

  /** A length made of whole pieces of `n`. */
  predicate Whole(len: nat, n: nat)
    requires n >= 1
    decreases len
  {
    len == 0 || (len >= n && Whole(len - n, n))
  }

  /**
   * The pieces put back together give the input; none is empty; all but
   * the last have exactly `n` rows, and there is a last, shorter piece
   * exactly when the length is not a whole number of pieces.
   */
  lemma ChunksOfShape<T>(s: seq<T>, n: nat)
    requires n >= 1
    ensures Flatten(ChunksOf(s, n)) == s
    ensures forall k :: 0 <= k < |ChunksOf(s, n)| ==> 0 < |ChunksOf(s, n)[k]| <= n
    ensures forall k :: 0 <= k < |ChunksOf(s, n)| - 1 ==> |ChunksOf(s, n)[k]| == n
    ensures |s| > 0 ==> (|ChunksOf(s, n)[|ChunksOf(s, n)| - 1]| == n <==> Whole(|s|, n))
  {
    ChunksOfFlatten(s, n);
    ChunksOfSizes(s, n);
    ChunksOfLast(s, n);
  }

  /** The pieces put back together give the input. */
  lemma {:induction false} ChunksOfFlatten<T>(s: seq<T>, n: nat)
    requires n >= 1
    ensures Flatten(ChunksOf(s, n)) == s
    decreases |s|
  {
    if |s| == 0 {
    } else if |s| <= n {
      assert Flatten([s]) == Flatten([]) + s;
    } else {
      ChunksOfFlatten(s[n..], n);
      FlattenConcat([s[..n]], ChunksOf(s[n..], n));
      assert Flatten([s[..n]]) == Flatten([]) + s[..n];
      assert s == s[..n] + s[n..];
    }
  }

  /** No piece is empty, and all but the last have exactly `n` rows. */
  lemma {:induction false} ChunksOfSizes<T>(s: seq<T>, n: nat)
    requires n >= 1
    ensures forall k :: 0 <= k < |ChunksOf(s, n)| ==> 0 < |ChunksOf(s, n)[k]| <= n
    ensures forall k :: 0 <= k < |ChunksOf(s, n)| - 1 ==> |ChunksOf(s, n)[k]| == n
    decreases |s|
  {
    if |s| > n {
      var r, rest := ChunksOf(s, n), ChunksOf(s[n..], n);
      ChunksOfSizes(s[n..], n);
      assert r == [s[..n]] + rest;
      assert forall k :: 1 <= k < |r| ==> r[k] == rest[k - 1];
    }
  }

  /** There is a last, shorter piece exactly when the length is not a whole number of pieces. */
  lemma {:induction false} ChunksOfLast<T>(s: seq<T>, n: nat)
    requires n >= 1
    ensures |s| > 0 ==> (|ChunksOf(s, n)[|ChunksOf(s, n)| - 1]| == n <==> Whole(|s|, n))
    decreases |s|
  {
    if |s| == 0 {
    } else if |s| <= n {
      if |s| == n {
        assert Whole(0, n);
      }
    } else {
      var r, rest := ChunksOf(s, n), ChunksOf(s[n..], n);
      ChunksOfLast(s[n..], n);
      assert r == [s[..n]] + rest;
      assert r[|r| - 1] == rest[|rest| - 1];
    }
  }

  /** Whole pieces already cut stay as they are when more rows follow. */
  lemma {:induction false} ChunksAppend<T>(a: seq<T>, b: seq<T>, n: nat)
    requires n >= 1 && Whole(|a|, n) && 0 < |b| <= n
    ensures ChunksOf(a + b, n) == ChunksOf(a, n) + [b]
    decreases |a|
  {
    if |a| == 0 {
      assert a + b == b;
    } else {
      assert (a + b)[..n] == a[..n];
      assert (a + b)[n..] == a[n..] + b;
      ChunksAppend(a[n..], b, n);
      if |a| == n {
        assert a[n..] + b == b;
      }
    }
  }

  lemma WholeStep(len: nat, n: nat)
    requires n >= 1 && Whole(len, n)
    ensures Whole(len + n, n)
  {
    assert len + n - n == len;
  }

  /**
   * The buffer loop of `exec_batch` (scripts/…/load_ms_marco_doc_v2_subset_to_postgres.py)
   * and of the `batched` generators: append each row, flush when the
   * buffer holds `page` rows, flush what is left at the end. A `page` of 0
   * or less flushes after every row.
   */
  method Batches<T>(rows: seq<T>, page: int) returns (batches: seq<seq<T>>)
    ensures batches == ChunksOf(rows, if page >= 1 then page else 1)
  {
    var n: nat := if page >= 1 then page else 1;
    batches := [];
    var buf: seq<T> := [];
    var i := 0;
    ghost var start := 0;
    while i < |rows|
      invariant 0 <= start <= i <= |rows|
      invariant |buf| < n && buf == rows[start..i]
      invariant Whole(start, n)
      invariant batches == ChunksOf(rows[..start], n)
    {
      buf := buf + [rows[i]];
      i := i + 1;
      assert buf == rows[start..i];
      if |buf| >= page {
        ChunkCut(rows, start, i, n);
        batches := batches + [buf];
        buf := [];
        start := i;
      }
    }
    if |buf| > 0 {
      ChunkCut(rows, start, i, n);
      assert rows[..i] == rows;
      batches := batches + [buf];
    } else {
      assert rows[..start] == rows;
    }
  }

  /** Cutting off the rows k..i as the next piece after whole pieces. */
  lemma ChunkCut<T>(rows: seq<T>, k: nat, i: nat, n: nat)
    requires n >= 1 && k < i <= |rows| && i - k <= n && Whole(k, n)
    ensures ChunksOf(rows[..i], n) == ChunksOf(rows[..k], n) + [rows[k..i]]
    ensures i - k == n ==> Whole(i, n)
  {
    assert rows[..i] == rows[..k] + rows[k..i];
    ChunksAppend(rows[..k], rows[k..i], n);
    if i - k == n {
      WholeStep(k, n);
    }
  }

  // ---------------------------------------------------------------------
  // random.shuffle and random.sample

  function Swap<T>(s: seq<T>, i: nat, j: nat): (r: seq<T>)
    requires i < |s| && j < |s|
    ensures |r| == |s| && multiset(r) == multiset(s)
  {
    s[i := s[j]][j := s[i]]
  }

  /** The swaps of `random.shuffle` for positions k-1 down to 1. */
  function ShuffleDown<T>(s: seq<T>, k: nat, draws: nat -> nat): (r: seq<T>)
    requires k <= |s|
    ensures |r| == |s| && multiset(r) == multiset(s)
    decreases k
  {
    if k <= 1 then s else ShuffleDown(Swap(s, k - 1, draws(k - 1) % k), k - 1, draws)
  }

  /** `random.shuffle`: a permutation of the input, chosen by the draws. */
  function Shuffle<T>(s: seq<T>, draws: nat -> nat): (r: seq<T>)
    ensures |r| == |s| && multiset(r) == multiset(s)
  {
    ShuffleDown(s, |s|, draws)
  }

  /** `random.sample(pool, k)`: `k` elements at distinct positions; a `k` outside 0..len(pool) is a ValueError. */
  function Sample<T>(pool: seq<T>, k: int, draws: nat -> nat): (r: Result<seq<T>, Exc>)
    ensures r.Failure? <==> k < 0 || k > |pool|
    ensures r.Failure? ==> r.error == ValueError("Sample larger than population or is negative")
    ensures r.Success? ==> |r.value| == k && multiset(r.value) <= multiset(pool)
  {
    if k < 0 || k > |pool| then Failure(ValueError("Sample larger than population or is negative"))
    else
      var sh := Shuffle(pool, draws);
      assert sh == sh[..k] + sh[k..];
      Success(sh[..k])
  }

  /** A sample holds only elements of its pool. */
  lemma SampleMembers<T>(pool: seq<T>, k: int, draws: nat -> nat)
    ensures Sample(pool, k, draws).Success? ==> forall x :: x in Sample(pool, k, draws).value ==> x in pool
  {
    if Sample(pool, k, draws).Success? {
      var v := Sample(pool, k, draws).value;
      forall x | x in v ensures x in pool {
        assert x in multiset(v);
      }
    }
  }

  // ---------------------------------------------------------------------
  // Buckets by tag

  /** The elements of `s` whose tag is `c`, in order. */
  function Bucket<T>(s: seq<T>, tag: T -> int, c: int): (r: seq<T>)
    ensures |r| <= |s|
  {
    if |s| == 0 then []
    else
      var init := Bucket(s[..|s| - 1], tag, c);
      if tag(s[|s| - 1]) == c then init + [s[|s| - 1]] else init
  }

  /** A bucket holds only elements of `s` with tag `c`. */
  lemma {:induction false} BucketMembers<T>(s: seq<T>, tag: T -> int, c: int)
    ensures forall x :: x in Bucket(s, tag, c) ==> x in s && tag(x) == c
    decreases |s|
  {
    if |s| > 0 {
      BucketMembers(s[..|s| - 1], tag, c);
    }
  }

  /** A bucket holds every copy of each element with its tag, and nothing else. */
  lemma {:induction false} BucketCount<T>(s: seq<T>, tag: T -> int, c: int, x: T)
    ensures multiset(Bucket(s, tag, c))[x] == if tag(x) == c then multiset(s)[x] else 0
    decreases |s|
  {
    if |s| > 0 {
      BucketCount(s[..|s| - 1], tag, c, x);
      assert s == s[..|s| - 1] + [s[|s| - 1]];
    }
  }

  lemma MultisetExt<T>(a: multiset<T>, b: multiset<T>)
    requires forall x :: a[x] == b[x]
    ensures a == b
  {
  }

  /** Permuted inputs have permuted buckets. */
  lemma BucketPermutation<T>(a: seq<T>, b: seq<T>, tag: T -> int, c: int)
    requires multiset(a) == multiset(b)
    ensures multiset(Bucket(a, tag, c)) == multiset(Bucket(b, tag, c))
    ensures |Bucket(a, tag, c)| == |Bucket(b, tag, c)|
  {
    var ma, mb := multiset(Bucket(a, tag, c)), multiset(Bucket(b, tag, c));
    forall x
      ensures ma[x] == mb[x]
    {
      BucketCount(a, tag, c, x);
      BucketCount(b, tag, c, x);
      assert multiset(a)[x] == multiset(b)[x];
    }
    assert forall x :: ma[x] == mb[x];
    MultisetExt(ma, mb);
    assert |multiset(Bucket(a, tag, c))| == |Bucket(a, tag, c)|;
    assert |multiset(Bucket(b, tag, c))| == |Bucket(b, tag, c)|;
  }

  lemma {:induction false} BucketConcat<T>(a: seq<T>, b: seq<T>, tag: T -> int, c: int)
    ensures Bucket(a + b, tag, c) == Bucket(a, tag, c) + Bucket(b, tag, c)
    decreases |b|
  {
    if |b| == 0 {
      assert a + b == a;
    } else {
      var b' := b[..|b| - 1];
      assert (a + b)[..|a + b| - 1] == a + b';
      BucketConcat(a, b', tag, c);
    }
  }

  /** A sequence whose elements all carry tag `c` is its own bucket for `c` and has none for any other tag. */
  lemma {:induction false} BucketUniform<T>(s: seq<T>, tag: T -> int, c: int, d: int)
    requires forall x :: x in s ==> tag(x) == c
    ensures Bucket(s, tag, c) == s
    ensures d != c ==> Bucket(s, tag, d) == []
    decreases |s|
  {
    if |s| > 0 {
      BucketUniform(s[..|s| - 1], tag, c, d);
      assert s[|s| - 1] in s;
      assert s == s[..|s| - 1] + [s[|s| - 1]];
    }
  }

  // ---------------------------------------------------------------------
  // Dicts filled entry by entry (`None` entries are skipped)

  /** The dict a run of `out[key] = value` assignments leaves; a later entry overwrites an earlier one. */
  function DictOf<K, V>(es: seq<Option<(K, V)>>): map<K, V>
  {
    if |es| == 0 then map[]
    else
      var m := DictOf(es[..|es| - 1]);
      match es[|es| - 1]
      case None => m
      case Some((k, v)) => m[k := v]
  }

  /**
   * The dict has a key for every key some entry names, and each key maps to
   * the value of the LAST entry naming it.
   */
  lemma {:induction false} DictLastWins<K, V>(es: seq<Option<(K, V)>>)
    ensures forall k :: k in DictOf(es) <==> exists j :: 0 <= j < |es| && es[j].Some? && es[j].value.0 == k
    ensures forall j :: 0 <= j < |es| && es[j].Some? &&
                        (forall j' :: j < j' < |es| ==> es[j'].None? || es[j'].value.0 != es[j].value.0)
                        ==> DictOf(es)[es[j].value.0] == es[j].value.1
    decreases |es|
  {
    if |es| > 0 {
      var init := es[..|es| - 1];
      DictLastWins(init);
      assert forall j :: 0 <= j < |init| ==> init[j] == es[j];
    }
  }

  /** The dict a run of `if key not in out: out[key] = value` leaves: the first entry for a key wins. */
  function FirstDictOf<K, V>(es: seq<Option<(K, V)>>): map<K, V>
  {
    if |es| == 0 then map[]
    else
      var m := FirstDictOf(es[..|es| - 1]);
      match es[|es| - 1]
      case None => m
      case Some((k, v)) => if k in m then m else m[k := v]
  }

  /**
   * The dict has a key for every key some entry names, and each key maps to
   * the value of the FIRST entry naming it.
   */
  lemma {:induction false} DictFirstWins<K, V>(es: seq<Option<(K, V)>>)
    ensures forall k :: k in FirstDictOf(es) <==> exists j :: 0 <= j < |es| && es[j].Some? && es[j].value.0 == k
    ensures forall j :: 0 <= j < |es| && es[j].Some? &&
                        (forall j' :: 0 <= j' < j ==> es[j'].None? || es[j'].value.0 != es[j].value.0)
                        ==> FirstDictOf(es)[es[j].value.0] == es[j].value.1
    decreases |es|
  {
    if |es| > 0 {
      var init := es[..|es| - 1];
      DictFirstWins(init);
      assert forall j :: 0 <= j < |init| ==> init[j] == es[j];
    }
  }

  /** Extending a prefix by one element. */
  lemma PrefixSnoc<T>(done: seq<T>, es: seq<T>, k: nat)
    requires k < |es|
    ensures done + es[..k + 1] == (done + es[..k]) + [es[k]]
  {
    assert es[..k + 1] == es[..k] + [es[k]];
  }

  /** One more entry: added when its key is new, ignored otherwise. */
  lemma FirstDictStep<K, V>(es: seq<Option<(K, V)>>, e: Option<(K, V)>)
    ensures e.None? ==> FirstDictOf(es + [e]) == FirstDictOf(es)
    ensures e.Some? ==> FirstDictOf(es + [e]) == if e.value.0 in FirstDictOf(es) then FirstDictOf(es)
                                                  else FirstDictOf(es)[e.value.0 := e.value.1]
  {
    assert (es + [e])[..|es|] == es;
  }

  // ---------------------------------------------------------------------
  // First positions: the order first-occurrence de-duplication keeps

  /** The position of the first element of `s` with key `k`, or `|s|` when there is none. */
  function FirstPos<T, K(==)>(s: seq<T>, key: T -> K, k: K): (r: nat)
    ensures r <= |s|
    ensures forall j :: 0 <= j < r ==> key(s[j]) != k
    ensures r < |s| ==> key(s[r]) == k
  {
    if |s| == 0 then 0
    else if key(s[0]) == k then 0
    else
      var r := FirstPos(s[1..], key, k);
      assert forall j :: 1 <= j < |s| ==> s[1..][j - 1] == s[j];
      1 + r
  }

  /** A key occurs exactly when its first position is inside the sequence. */
  lemma FirstPosInside<T, K>(s: seq<T>, key: T -> K, k: K)
    ensures FirstPos(s, key, k) < |s| <==> k in KeysOf(s, key)
  {
    var r := FirstPos(s, key, k);
    if r < |s| {
      assert key(s[r]) in KeysOf(s, key);
    }
  }

  lemma {:induction false} FirstPosAppend<T, K>(s: seq<T>, x: T, key: T -> K, k: K)
    ensures FirstPos(s, key, k) < |s| ==> FirstPos(s + [x], key, k) == FirstPos(s, key, k)
    ensures FirstPos(s, key, k) == |s| && key(x) == k ==> FirstPos(s + [x], key, k) == |s|
    decreases |s|
  {
    if |s| > 0 {
      assert (s + [x])[0] == s[0];
      assert (s + [x])[1..] == s[1..] + [x];
      FirstPosAppend(s[1..], x, key, k);
    } else {
      assert (s + [x])[0] == x;
    }
  }

  /**
   * De-duplication keeps, for each key, the element at that key's first
   * position, and lists them in increasing order of first position: the
   * first-seen order.
   */
  lemma {:induction false} DedupByOrder<T, K>(s: seq<T>, key: T -> K)
    ensures forall i :: 0 <= i < |DedupBy(s, key)| ==>
              FirstPos(s, key, key(DedupBy(s, key)[i])) < |s| && DedupBy(s, key)[i] == s[FirstPos(s, key, key(DedupBy(s, key)[i]))]
    ensures forall i, j :: 0 <= i < j < |DedupBy(s, key)| ==>
              FirstPos(s, key, key(DedupBy(s, key)[i])) < FirstPos(s, key, key(DedupBy(s, key)[j]))
    decreases |s|
  {
    if |s| > 0 {
      var init, last := s[..|s| - 1], s[|s| - 1];
      assert s == init + [last];
      DedupByOrder(init, key);
      var d := DedupBy(init, key);
      forall i | 0 <= i < |d|
        ensures FirstPos(s, key, key(d[i])) == FirstPos(init, key, key(d[i])) < |init|
      {
        FirstPosAppend(init, last, key, key(d[i]));
      }
      if key(last) !in KeysOf(init, key) {
        FirstPosInside(init, key, key(last));
        FirstPosAppend(init, last, key, key(last));
        assert DedupBy(s, key) == d + [last];
      }
    }
  }

  // ---------------------------------------------------------------------
  // random.shuffle in place

  /** `random.shuffle(x)`: swap each position from the last down to 1 with a drawn position at or below it. */
  method ShuffleInPlace<T>(a: array<T>, draws: nat -> nat)
    modifies a
    ensures a[..] == Shuffle(old(a[..]), draws)
  {
    var k := a.Length;
    while k > 1
      invariant 0 <= k <= a.Length
      invariant ShuffleDown(a[..], k, draws) == Shuffle(old(a[..]), draws)
      decreases k
    {
      var j := draws(k - 1) % k;
      ghost var before := a[..];
      ShuffleDownStep(before, k, draws);
      SwapInPlace(a, k - 1, j);
      k := k - 1;
    }
  }

  /** One step of `ShuffleDown`: swap position k-1 with its draw, then go on below it. */
  lemma ShuffleDownStep<T>(s: seq<T>, k: nat, draws: nat -> nat)
    requires 1 < k <= |s|
    ensures ShuffleDown(s, k, draws) == ShuffleDown(Swap(s, k - 1, draws(k - 1) % k), k - 1, draws)
  {
  }

  /** `x[i], x[j] = x[j], x[i]`. */
  method SwapInPlace<T>(a: array<T>, i: nat, j: nat)
    requires i < a.Length && j < a.Length
    modifies a
    ensures a[..] == Swap(old(a[..]), i, j)
  {
    var tmp := a[i];
    a[i] := a[j];
    a[j] := tmp;
  }
}
