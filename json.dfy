/**
 * JSON values as Python's `json.loads` hands them back, and the Python
 * conversions the modelled code applies to them: truthiness, `d[key]`,
 * `str(v)` on scalars and the `int(v)` coercion.
 *
 * An object is the list of its (key, value) members in insertion order,
 * which is the iteration order of the Python dict it stands for. A float
 * carries its value and the text Python's `str()` prints for it; NaN and
 * the infinities, which `json.loads` accepts, are kept apart because
 * `int()` rejects them.
 */
module PyJson {
  import opened Common

  datatype Json =
    | JNull
    | JBool(b: bool)
    | JInt(i: int)
    | JFloat(value: real, repr: string)
    | JNonFinite(repr: string)
    | JStr(s: string)
    | JArr(items: seq<Json>)
    | JObj(members: seq<(string, Json)>)

  /** Python truthiness of a decoded value. */
  predicate Truthy(v: Json)
  {
    match v
    case JNull => false
    case JBool(b) => b
    case JInt(i) => i != 0
    case JFloat(x, _) => x != 0.0
    case JNonFinite(_) => true
    case JStr(s) => |s| > 0
    case JArr(items) => |items| > 0
    case JObj(members) => |members| > 0
  }

  /** `key in d`. */
  predicate HasKey(members: seq<(string, Json)>, key: string)
  {
    exists i :: 0 <= i < |members| && members[i].0 == key
  }

  /** `d[key]` / `d.get(key)`: the value stored under exactly `key`. */
  function Get(members: seq<(string, Json)>, key: string): (r: Option<Json>)
    ensures r.Some? <==> HasKey(members, key)
    ensures r.Some? ==> exists i :: 0 <= i < |members| && members[i] == (key, r.value)
  {
    if |members| == 0 then None
    else if members[0].0 == key then Some(members[0].1)
    else
      var r := Get(members[1..], key);
      assert HasKey(members, key) ==> HasKey(members[1..], key) by {
        if HasKey(members, key) {
          var i :| 0 <= i < |members| && members[i].0 == key;
          assert members[1..][i - 1].0 == key;
        }
      }
      assert r.Some? ==> HasKey(members, key) by {
        if r.Some? {
          var i :| 0 <= i < |members[1..]| && members[1..][i] == (key, r.value);
          assert members[i + 1] == (key, r.value);
        }
      }
      if r.Some? then
        var i :| 0 <= i < |members[1..]| && members[1..][i] == (key, r.value);
        assert members[i + 1] == (key, r.value);
        r
      else r
  }

  /** `{k: v for k, v in d.items() if k != key}`. */
  function RemoveKey(members: seq<(string, Json)>, key: string): (r: seq<(string, Json)>)
    ensures !HasKey(r, key)
    ensures forall m :: m in r <==> m in members && m.0 != key
  {
    if |members| == 0 then []
    else if members[0].0 == key then RemoveKey(members[1..], key)
    else [members[0]] + RemoveKey(members[1..], key)
  }

  /** `str(v)` for the scalar types `str`, `int`, `float` and `bool`; None otherwise. */
  function ScalarText(v: Json): (r: Option<string>)
    ensures r.Some? <==> (v.JStr? || v.JInt? || v.JFloat? || v.JNonFinite? || v.JBool?)
    ensures v.JStr? ==> r == Some(v.s)
  {
    match v
    case JStr(s) => Some(s)
    case JInt(i) => Some(IntToDecimal(i))
    case JFloat(_, repr) => Some(repr)
    case JNonFinite(repr) => Some(repr)
    case JBool(b) => Some(if b then "True" else "False")
    case _ => None
  }

  // ---------------------------------------------------------------------
  // int(v)

  /** `int(x)` on a finite float: truncation toward zero. */
  function TruncateTowardZero(x: real): (n: int)
    ensures x >= 0.0 ==> n as real <= x < n as real + 1.0
    ensures x < 0.0 ==> n as real - 1.0 < x <= n as real
    ensures x >= 0.0 ==> n >= 0
    ensures x <= 0.0 ==> n <= 0
  {
    if x >= 0.0 then x.Floor else -((-x).Floor)
  }

  /** The digit run of an integer literal: digits, single underscores between them. */
  predicate DigitGroups(b: string)
  {
    && |b| > 0
    && IsAsciiDigit(b[0])
    && IsAsciiDigit(b[|b| - 1])
    && (forall i :: 0 <= i < |b| ==> IsAsciiDigit(b[i]) || b[i] == '_')
    && (forall i :: 0 <= i < |b| - 1 ==> !(b[i] == '_' && b[i + 1] == '_'))
  }

  function WithoutUnderscores(b: string): (r: string)
    requires forall i :: 0 <= i < |b| ==> IsAsciiDigit(b[i]) || b[i] == '_'
    ensures forall i :: 0 <= i < |r| ==> IsAsciiDigit(r[i])
    ensures (forall i :: 0 <= i < |b| ==> IsAsciiDigit(b[i])) ==> r == b
  {
    if |b| == 0 then []
    else if b[0] == '_' then WithoutUnderscores(b[1..])
    else [b[0]] + WithoutUnderscores(b[1..])
  }

  /** `int(t)` on text that is already stripped: an optional sign and a digit run. */
  function ParseIntLiteral(t: string): (r: Option<int>)
    ensures r.Some? <==> (DigitGroups(t) || (|t| > 0 && (t[0] == '+' || t[0] == '-') && DigitGroups(t[1..])))
  {
    if |t| > 0 && (t[0] == '+' || t[0] == '-') then
      var body := t[1..];
      if DigitGroups(body) then
        var n: int := DigitsValue(WithoutUnderscores(body));
        Some(if t[0] == '-' then -n else n)
      else None
    else if DigitGroups(t) then Some(DigitsValue(WithoutUnderscores(t)))
    else None
  }

  /**
   * Python's `int(v)` applied to a decoded value: booleans give 0/1,
   * floats truncate, strings are stripped and read as a decimal literal;
   * None, NaN, the infinities, lists and dicts raise (None here).
   */
  function CoerceInt(v: Json): (r: Option<int>)
    ensures v.JInt? ==> r == Some(v.i)
    ensures v.JBool? ==> r == Some(if v.b then 1 else 0)
    ensures v.JFloat? ==> r == Some(TruncateTowardZero(v.value))
    ensures v.JStr? ==> r == ParseIntLiteral(Strip(v.s))
    ensures (v.JNull? || v.JNonFinite? || v.JArr? || v.JObj?) ==> r.None?
  {
    match v
    case JBool(b) => Some(if b then 1 else 0)
    case JInt(i) => Some(i)
    case JFloat(x, _) => Some(TruncateTowardZero(x))
    case JStr(s) => ParseIntLiteral(Strip(s))
    case _ => None
  }

  /** A plain run of digits is read as its value. */
  lemma DigitsParse(d: string)
    requires IsDigits(d)
    ensures DigitGroups(d) && WithoutUnderscores(d) == d
    ensures ParseIntLiteral(d) == Some(DigitsValue(d))
    ensures ParseIntLiteral("-" + d) == Some(-(DigitsValue(d) as int))
  {
    assert ("-" + d)[1..] == d;
  }

  /** `int(str(i)) == i`: the decimal text of an integer coerces back to it. */
  lemma {:induction false} IntTextRoundTrip(i: int)
    ensures CoerceInt(JStr(IntToDecimal(i))) == Some(i)
  {
    IntTextStripped(i);
    IntTextParses(i);
  }

  /** The decimal text of an integer has no surrounding whitespace. */
  lemma IntTextStripped(i: int)
    ensures Strip(IntToDecimal(i)) == IntToDecimal(i)
  {
    var d := NatToDecimal(if i < 0 then -i else i);
    var t := IntToDecimal(i);
    assert t[|t| - 1] == d[|d| - 1];
    assert !IsSpace(t[0]) && !IsSpace(t[|t| - 1]);
    StripNoop(t);
  }

  /** The decimal text of an integer reads back as that integer. */
  lemma IntTextParses(i: int)
    ensures ParseIntLiteral(IntToDecimal(i)) == Some(i)
  {
    var n: nat := if i < 0 then -i else i;
    DecimalRoundTrip(n);
    DigitsParse(NatToDecimal(n));
  }
}
