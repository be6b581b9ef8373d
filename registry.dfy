/**
 * Starting a run in llm_judging/bt/db.py: run keys are twelve symbols
 * drawn from a 30-letter alphabet, and `start_run` tries up to five fresh
 * keys, retrying only when the insert collides with an existing key.
 *
 * `secrets.choice` is the parameter `draws`: `draws(a, k)` is the index
 * drawn for position k of the key tried on attempt a (taken modulo 30).
 * Database errors other than a collision are the parameter `fault`.
 * The prompt hash stored with a run is not modelled.
 */
module RunRegistry {
  import opened Common
  import opened AuditStore

  const Alphabet := "ABCDEFGHJKMNPQRSTVWXYZ23456789"

  const KeyLength := 12

  const MaxAttempts := 5

  /** The run-key format the `llm_runs` table checks: `^[A-Z2-9]{12}$`. */
  predicate KeyFormat(s: string)
  {
    |s| == KeyLength && forall i :: 0 <= i < |s| ==> ('A' <= s[i] <= 'Z' || '2' <= s[i] <= '9')
  }

  /** Orders digits after letters, so that the alphabet is strictly increasing under it. */
  function Rank(c: char): int
  {
    if '0' <= c <= '9' then c as int + 100 else c as int
  }

  lemma {:induction false} IncreasingDistinct(s: string, i: nat, j: nat)
    requires forall k :: 0 <= k < |s| - 1 ==> Rank(s[k]) < Rank(s[k + 1])
    requires i < j < |s|
    ensures Rank(s[i]) < Rank(s[j])
    decreases j - i
  {
    if i + 1 < j {
      IncreasingDistinct(s, i + 1, j);
    }
  }

  /** The alphabet has 30 distinct symbols, none of I, L, O, U, 0, 1, all within [A-Z2-9]. */
  lemma AlphabetShape()
    ensures |Alphabet| == 30 && NoDuplicates(Alphabet)
    ensures forall i :: 0 <= i < |Alphabet| ==> Alphabet[i] !in "ILOU01"
    ensures forall i :: 0 <= i < |Alphabet| ==> ('A' <= Alphabet[i] <= 'Z' || '2' <= Alphabet[i] <= '9')
  {
    AlphabetIncreasing();
    forall i, j | 0 <= i < j < |Alphabet|
      ensures Alphabet[i] != Alphabet[j]
    {
      IncreasingDistinct(Alphabet, i, j);
    }
    AlphabetSymbols();
  }

  /** The alphabet is listed letters first, each part in code-point order. */
  lemma AlphabetIncreasing()
    ensures forall k :: 0 <= k < |Alphabet| - 1 ==> Rank(Alphabet[k]) < Rank(Alphabet[k + 1])
  {
  }

  /** Each symbol is in [A-Z2-9], and none is I, L, O, U, 0 or 1. */
  lemma AlphabetSymbols()
    ensures forall i :: 0 <= i < |Alphabet| ==> Alphabet[i] !in "ILOU01"
    ensures forall i :: 0 <= i < |Alphabet| ==> ('A' <= Alphabet[i] <= 'Z' || '2' <= Alphabet[i] <= '9')
  {
  }

  /** `_gen_run_key(n)`: `n` symbols, each chosen from the alphabet. */
  function GenRunKey(n: nat, pick: nat -> nat): (r: string)
    ensures |r| == n
    ensures forall i :: 0 <= i < n ==> r[i] == Alphabet[pick(i) % |Alphabet|]
  {
    seq(n, i requires 0 <= i => Alphabet[pick(i) % |Alphabet|])
  }

  /** Every generated key of the default length passes the table's check. */
  lemma GeneratedKeyFormat(pick: nat -> nat)
    ensures KeyFormat(GenRunKey(KeyLength, pick))
    ensures forall i :: 0 <= i < KeyLength ==> GenRunKey(KeyLength, pick)[i] in Alphabet
  {
    AlphabetShape();
  }

  /** The draw that yields symbol `c`. */
  function DrawFor(c: char): (j: nat)
    ensures c in Alphabet ==> j < |Alphabet| && Alphabet[j] == c
  {
    match FirstIndex(Alphabet, c)
    case Some(j) => j
    case None => 0
  }

  /** The draws that spell out `s`. */
  function DrawsFor(s: string): nat -> nat
  {
    (k: nat) => if k < |s| then DrawFor(s[k]) else 0
  }

  lemma ReachOne(c: char)
    requires c in Alphabet
    ensures Alphabet[DrawFor(c) % |Alphabet|] == c
  {
    var j := DrawFor(c);
    ModBelow(j, |Alphabet|);
  }

  lemma ModBelow(j: nat, n: nat)
    requires j < n
    ensures j % n == j
  {
  }

  /** Every key over the alphabet can be drawn: drawing its symbols' positions gives it back. */
  lemma EveryKeyReachable(s: string)
    requires forall i :: 0 <= i < |s| ==> s[i] in Alphabet
    ensures GenRunKey(|s|, DrawsFor(s)) == s
  {
    var g := GenRunKey(|s|, DrawsFor(s));
    forall i | 0 <= i < |s|
      ensures g[i] == s[i]
    {
      ReachOne(s[i]);
    }
  }

  /** The key tried on attempt `a`. */
  function AttemptKey(draws: (nat, nat) -> nat, a: nat): (r: string)
    ensures KeyFormat(r)
  {
    GeneratedKeyFormat(k => draws(a, k));
    GenRunKey(KeyLength, k => draws(a, k))
  }

  /**
   * `start_run`: at most five inserts, each under a fresh key. The first
   * that succeeds is committed and its key returned; a collision rolls back
   * and tries again; any other error rolls back and escapes; five
   * collisions raise RuntimeError and leave no new run.
   */
  method StartRun(t: AuditTables<string>, meta: RunMeta, draws: (nat, nat) -> nat, fault: nat -> Option<Exc>)
    returns (r: Result<string, Exc>, attempts: nat)
    requires t.Valid()
    modifies t
    ensures t.Valid()
    ensures 1 <= attempts <= MaxAttempts
    ensures forall a :: 0 <= a < attempts - 1 ==>
              fault(a).None? && AttemptKey(draws, a) in (if a == 0 then old(t.runs) else old(t.savedRuns))
    ensures r.Success? ==>
              && r.value == AttemptKey(draws, attempts - 1) && KeyFormat(r.value)
              && fault(attempts - 1).None?
              && var base := if attempts == 1 then old(t.runs) else old(t.savedRuns);
              && r.value !in base
              && t.runs == base[r.value := NewRun(meta)]
              && t.preds == (if attempts == 1 then old(t.preds) else old(t.savedPreds))
              && t.savedRuns == t.runs && t.savedPreds == t.preds
    ensures r.Failure? ==> t.runs == old(t.savedRuns) && t.preds == old(t.savedPreds)
    ensures r.Failure? ==> t.savedRuns == old(t.savedRuns) && t.savedPreds == old(t.savedPreds)
    ensures r.Failure? && fault(attempts - 1).Some? ==> r.error == fault(attempts - 1).value
    ensures r.Failure? && fault(attempts - 1).None? ==>
              attempts == MaxAttempts && r.error == RuntimeError("Failed to allocate a unique run_key after several attempts")
  {
    attempts := 0;
    while attempts < MaxAttempts
      invariant 0 <= attempts <= MaxAttempts
      invariant t.Valid()
      invariant attempts > 0 ==> t.runs == old(t.savedRuns) && t.preds == old(t.savedPreds)
      invariant attempts == 0 ==> t.runs == old(t.runs) && t.preds == old(t.preds)
      invariant t.savedRuns == old(t.savedRuns) && t.savedPreds == old(t.savedPreds)
      invariant forall a :: 0 <= a < attempts ==>
                  fault(a).None? && AttemptKey(draws, a) in (if a == 0 then old(t.runs) else old(t.savedRuns))
    {
      var key := AttemptKey(draws, attempts);
      attempts := attempts + 1;
      if fault(attempts - 1).Some? {
        t.Rollback();
        return Failure(fault(attempts - 1).value), attempts;
      }
      var inserted := TryInsertRun(t, key, meta);
      if inserted {
        return Success(key), attempts;
      }
    }
    return Failure(RuntimeError("Failed to allocate a unique run_key after several attempts")), attempts;
  }

  /** One insert under `key`: committed when the key is new, rolled back on a collision. */
  method TryInsertRun(t: AuditTables<string>, key: string, meta: RunMeta) returns (inserted: bool)
    requires t.Valid()
    modifies t
    ensures t.Valid()
    ensures inserted <==> key !in old(t.runs)
    ensures inserted ==> t.runs == old(t.runs)[key := NewRun(meta)] && t.preds == old(t.preds)
                         && t.savedRuns == t.runs && t.savedPreds == t.preds
    ensures !inserted ==> t.runs == old(t.savedRuns) && t.preds == old(t.savedPreds)
                          && t.savedRuns == old(t.savedRuns) && t.savedPreds == old(t.savedPreds)
  {
    var ins := t.InsertRun(key, NewRun(meta));
    if ins.Success? {
      t.Commit();
      return true;
    }
    t.Rollback();
    return false;
  }
}

/**
 * Starting a run in scripts/llm_judging/db.py (and the passage/doc v2
 * scripts): the id comes from the table's BIGSERIAL sequence, so the
 * single insert cannot collide, and it is committed at once.
 */
module SerialRegistry {
  import opened Common
  import opened AuditStore

  /** A Postgres sequence: `nextval` hands out increasing ids and is never rolled back. */
  class IdSequence {
    var next: int

    constructor ()
      ensures next == 1
    {
      next := 1;
    }
  }

  /** Every existing run id was handed out by the sequence. */
  ghost predicate IdsIssued(t: AuditTables<int>, ids: IdSequence)
    reads t, ids
  {
    (forall id :: id in t.runs ==> id < ids.next) && (forall id :: id in t.savedRuns ==> id < ids.next)
  }

  /** `start_run ... RETURNING run_id`: exactly one new row under the next id, committed. */
  method StartRunSerial(t: AuditTables<int>, ids: IdSequence, meta: RunMeta) returns (id: int)
    requires t.Valid() && IdsIssued(t, ids)
    modifies t, ids
    ensures t.Valid() && IdsIssued(t, ids)
    ensures id == old(ids.next) && ids.next == id + 1
    ensures id !in old(t.runs)
    ensures t.runs == old(t.runs)[id := NewRun(meta)] && t.preds == old(t.preds)
    ensures t.savedRuns == t.runs && t.savedPreds == t.preds
  {
    id := ids.next;
    ids.next := ids.next + 1;
    var ins := t.InsertRun(id, NewRun(meta));
    assert ins.Success?;
    t.Commit();
  }
}
