/**
 * Run settings, llm_judging/bt/config.py: the frozen `Settings` record
 * with its defaults, and `load_settings_file`, which reads a JSON file
 * from the run_configs folder (only the final path component of the
 * argument is used) holding one settings object or a list of them. Keys
 * `Settings` does not declare are dropped; an empty or missing
 * "hf_api_token" is taken from the HUGGINGFACE_API_TOKEN environment
 * variable, given here as `envToken`. The dataclass checks no types, so a
 * loaded record keeps whatever values the file gives; `AsSettings` is the
 * typed view the rest of the model reads.
 *
 * Reading and decoding the file is the parameter `readJson`.
 */
module Config {
  import opened Common
  import opened PyJson

  datatype Settings = Settings(
    dataSchema: string,
    auditSchema: string,
    provider: string,
    model: string,
    temperature: real,
    reasoningEnabled: bool,
    llmTimeoutMs: Option<int>,
    hfEndpointUrl: Option<string>,
    hfApiToken: Option<string>,
    maxNewTokens: int,
    topP: Option<real>,
    topK: Option<int>,
    repetitionPenalty: Option<real>,
    maxTextChars: Option<int>,
    commitEvery: int,
    limitQrels: Option<int>,
    official: bool,
    userNotes: Option<string>,
    retryEnabled: bool,
    retryAttempts: int,
    retryBackoffMs: int)

  const Defaults := Settings(
    "passagev2", "passagev2", "ollama", "deepseek-r1:14b", 0.0, false, Some(120000),
    None, None, 256, None, None, None,
    None, 5, Some(1000), false, None,
    true, 2, 50)

  /** The Python type a field is declared with. */
  datatype Kind = KStr | KOptStr | KInt | KOptInt | KReal | KOptReal | KBool

  const FieldKinds: map<string, Kind> := map[
    "data_schema" := KStr, "audit_schema" := KStr, "provider" := KStr, "model" := KStr,
    "temperature" := KReal, "reasoning_enabled" := KBool, "llm_timeout_ms" := KOptInt,
    "hf_endpoint_url" := KOptStr, "hf_api_token" := KOptStr, "max_new_tokens" := KInt,
    "top_p" := KOptReal, "top_k" := KOptInt, "repetition_penalty" := KOptReal,
    "max_text_chars" := KOptInt, "commit_every" := KInt, "limit_qrels" := KOptInt,
    "official" := KBool, "user_notes" := KOptStr,
    "retry_enabled" := KBool, "retry_attempts" := KInt, "retry_backoff_ms" := KInt]

  /** A JSON value that denotes a value of the declared type. */
  predicate Fits(k: Kind, v: Json)
  {
    match k
    case KStr => v.JStr?
    case KOptStr => v.JStr? || v.JNull?
    case KInt => v.JInt?
    case KOptInt => v.JInt? || v.JNull?
    case KReal => v.JInt? || v.JFloat?
    case KOptReal => v.JInt? || v.JFloat? || v.JNull?
    case KBool => v.JBool?
  }

  // ---------------------------------------------------------------------
  // Reading one field

  function StrOf(m: map<string, Json>, key: string, dflt: string): string
  {
    if key in m && m[key].JStr? then m[key].s else dflt
  }

  function OptStrOf(m: map<string, Json>, key: string, dflt: Option<string>): Option<string>
  {
    if key in m && m[key].JStr? then Some(m[key].s)
    else if key in m && m[key].JNull? then None
    else dflt
  }

  function IntOf(m: map<string, Json>, key: string, dflt: int): int
  {
    if key in m && m[key].JInt? then m[key].i else dflt
  }

  function OptIntOf(m: map<string, Json>, key: string, dflt: Option<int>): Option<int>
  {
    if key in m && m[key].JInt? then Some(m[key].i)
    else if key in m && m[key].JNull? then None
    else dflt
  }

  function RealOf(m: map<string, Json>, key: string, dflt: real): real
  {
    if key in m && m[key].JInt? then m[key].i as real
    else if key in m && m[key].JFloat? then m[key].value
    else dflt
  }

  function OptRealOf(m: map<string, Json>, key: string, dflt: Option<real>): Option<real>
  {
    if key in m && m[key].JInt? then Some(m[key].i as real)
    else if key in m && m[key].JFloat? then Some(m[key].value)
    else if key in m && m[key].JNull? then None
    else dflt
  }

  function BoolOf(m: map<string, Json>, key: string, dflt: bool): bool
  {
    if key in m && m[key].JBool? then m[key].b else dflt
  }

  /** The typed fields of `Settings(**filtered)`: each declared field from `m`, or its default. */
  function SettingsOf(m: map<string, Json>): Settings
  {
    var d := Defaults;
    Settings(
      StrOf(m, "data_schema", d.dataSchema), StrOf(m, "audit_schema", d.auditSchema),
      StrOf(m, "provider", d.provider), StrOf(m, "model", d.model),
      RealOf(m, "temperature", d.temperature), BoolOf(m, "reasoning_enabled", d.reasoningEnabled),
      OptIntOf(m, "llm_timeout_ms", d.llmTimeoutMs),
      OptStrOf(m, "hf_endpoint_url", d.hfEndpointUrl), OptStrOf(m, "hf_api_token", d.hfApiToken),
      IntOf(m, "max_new_tokens", d.maxNewTokens), OptRealOf(m, "top_p", d.topP),
      OptIntOf(m, "top_k", d.topK), OptRealOf(m, "repetition_penalty", d.repetitionPenalty),
      OptIntOf(m, "max_text_chars", d.maxTextChars), IntOf(m, "commit_every", d.commitEvery),
      OptIntOf(m, "limit_qrels", d.limitQrels), BoolOf(m, "official", d.official),
      OptStrOf(m, "user_notes", d.userNotes),
      BoolOf(m, "retry_enabled", d.retryEnabled), IntOf(m, "retry_attempts", d.retryAttempts),
      IntOf(m, "retry_backoff_ms", d.retryBackoffMs))
  }

  // ---------------------------------------------------------------------
  // dict(d)

  /** `type(v).__name__` of a decoded value. */
  function TypeName(v: Json): string
  {
    match v
    case JNull => "NoneType"
    case JBool(_) => "bool"
    case JInt(_) => "int"
    case JFloat(_, _) => "float"
    case JNonFinite(_) => "float"
    case JStr(_) => "str"
    case JArr(_) => "list"
    case JObj(_) => "dict"
  }

  /** The decoded values Python can iterate over. */
  predicate Iterable(v: Json)
  {
    v.JStr? || v.JArr? || v.JObj?
  }

  /** What iterating a value yields: a string's characters, a list's elements, a dict's keys. */
  function Elements(v: Json): (r: seq<Json>)
    requires Iterable(v)
    ensures v.JStr? ==> |r| == |v.s| && forall i :: 0 <= i < |r| ==> r[i] == JStr([v.s[i]])
    ensures v.JArr? ==> r == v.items
    ensures v.JObj? ==> |r| == |v.members| && forall i :: 0 <= i < |r| ==> r[i] == JStr(v.members[i].0)
  {
    match v
    case JStr(s) => seq(|s|, i requires 0 <= i < |s| => JStr([s[i]]))
    case JArr(items) => items
    case JObj(members) => seq(|members|, i requires 0 <= i < |members| => JStr(members[i].0))
  }

  /** Lists and dicts cannot be dict keys. */
  predicate Hashable(v: Json)
  {
    !v.JArr? && !v.JObj?
  }

  /** The errors `dict` raises for element number `index` of a sequence of pairs. */
  function NotASequence(index: nat): Exc
  {
    TypeError("cannot convert dictionary update sequence element #" + NatToDecimal(index) + " to a sequence")
  }

  function BadLength(index: nat, n: nat): Exc
  {
    ValueError("dictionary update sequence element #" + NatToDecimal(index)
               + " has length " + NatToDecimal(n) + "; 2 is required")
  }

  function Unhashable(key: Json): Exc
  {
    TypeError("unhashable type: '" + TypeName(key) + "'")
  }

  /**
   * Element number `index` of the sequence `dict(...)` is built from: it
   * must iterate to exactly two items, a key and a value, and the key must
   * be hashable. A key that is not a string can never name a declared
   * field and is filtered out later, so it is dropped here (`None`).
   */
  function UpdatePair(e: Json, index: nat): (r: Result<Option<(string, Json)>, Exc>)
    ensures r.Success? <==> Iterable(e) && |Elements(e)| == 2 && Hashable(Elements(e)[0])
    ensures r.Success? ==> (r.value.Some? <==> Elements(e)[0].JStr?)
    ensures r.Success? && r.value.Some? ==> r.value.value == (Elements(e)[0].s, Elements(e)[1])
    ensures !Iterable(e) ==> r == Failure(NotASequence(index))
    ensures Iterable(e) && |Elements(e)| != 2 ==> r == Failure(BadLength(index, |Elements(e)|))
    ensures Iterable(e) && |Elements(e)| == 2 && !Hashable(Elements(e)[0]) ==> r == Failure(Unhashable(Elements(e)[0]))
  {
    if !Iterable(e) then Failure(NotASequence(index))
    else
      var kv := Elements(e);
      if |kv| != 2 then Failure(BadLength(index, |kv|))
      else if !Hashable(kv[0]) then Failure(Unhashable(kv[0]))
      else if kv[0].JStr? then Success(Some((kv[0].s, kv[1])))
      else Success(None)
  }

  /**
   * Adding the pairs `items[k..]` to `acc`, as `dict` does, stopping at
   * the first element that is not a pair.
   */
  function UpdateAll(acc: map<string, Json>, items: seq<Json>, k: nat): (r: Result<map<string, Json>, Exc>)
    requires k <= |items|
    ensures r.Success? <==> forall i :: k <= i < |items| ==> UpdatePair(items[i], i).Success?
    ensures r.Failure? ==> exists i :: k <= i < |items| && UpdatePair(items[i], i) == Failure(r.error)
                                       && forall j :: k <= j < i ==> UpdatePair(items[j], j).Success?
    decreases |items| - k
  {
    if k == |items| then Success(acc)
    else
      var p := UpdatePair(items[k], k);
      if p.Failure? then Failure(p.error)
      else UpdateAll(if p.value.Some? then acc[p.value.value.0 := p.value.value.1] else acc, items, k + 1)
  }

  /** `dict(d)` of a dict: its copy; a later duplicate key overrides an earlier one. */
  function DictOf(members: seq<(string, Json)>): (m: map<string, Json>)
    ensures m.Keys == set i | 0 <= i < |members| :: members[i].0
  {
    if |members| == 0 then map[]
    else
      var init := members[..|members| - 1];
      var last := members[|members| - 1];
      var m := DictOf(init)[last.0 := last.1];
      assert m.Keys == (set i | 0 <= i < |init| :: init[i].0) + {last.0};
      assert forall i :: 0 <= i < |init| ==> init[i] == members[i];
      m
  }

  /**
   * `dict(x)` for any decoded value: a dict is copied, a list or a string
   * is read as a sequence of pairs, and anything else is not iterable.
   */
  function PyDict(x: Json): (r: Result<map<string, Json>, Exc>)
    ensures x.JObj? ==> r == Success(DictOf(x.members))
    ensures x.JArr? ==> r == UpdateAll(map[], x.items, 0)
    ensures x.JStr? ==> r == UpdateAll(map[], Elements(x), 0)
    ensures !Iterable(x) ==> r == Failure(TypeError("'" + TypeName(x) + "' object is not iterable"))
  {
    if x.JObj? then Success(DictOf(x.members))
    else if Iterable(x) then UpdateAll(map[], Elements(x), 0)
    else Failure(TypeError("'" + TypeName(x) + "' object is not iterable"))
  }

  /** The empty string and the empty list give the empty dict. */
  lemma EmptySequencesGiveEmptyDict()
    ensures PyDict(JStr("")) == Success(map[])
    ensures PyDict(JArr([])) == Success(map[])
  {
    assert Elements(JStr("")) == [];
  }

  /** A non-empty string iterates to one-character strings, none of which is a pair. */
  lemma NonEmptyStringRaises(s: string)
    requires s != ""
    ensures PyDict(JStr(s)) == Failure(BadLength(0, 1))
  {
    var es := Elements(JStr(s));
    assert Elements(es[0]) == [JStr([s[0]])];
    assert UpdatePair(es[0], 0 + 0) == Failure(BadLength(0, 1));
  }

  /** A two-character string is a pair: its first character is the key, its second the value. */
  lemma TwoCharStringPair(a: char, b: char, index: nat)
    ensures UpdatePair(JStr([a, b]), index) == Success(Some(([a], JStr([b]))))
  {
    assert Elements(JStr([a, b])) == [JStr([a]), JStr([b])];
  }

  /**
   * A list of two-element lists with string keys loads like the object
   * with those members: `dict([[k, v], ...]) == {k: v, ...}`.
   */
  lemma {:induction false} PairListLikeObject(pairs: seq<Json>, members: seq<(string, Json)>)
    requires |pairs| == |members|
    requires forall i :: 0 <= i < |pairs| ==> pairs[i] == JArr([JStr(members[i].0), members[i].1])
    ensures PyDict(JArr(pairs)) == PyDict(JObj(members))
  {
    UpdatePairs(map[], pairs, members, 0);
    assert members[0..] == members;
    assert map[] + DictOf(members) == DictOf(members);
  }

  lemma {:induction false} UpdatePairs(acc: map<string, Json>, pairs: seq<Json>, members: seq<(string, Json)>, k: nat)
    requires |pairs| == |members| && k <= |pairs|
    requires forall i :: 0 <= i < |pairs| ==> pairs[i] == JArr([JStr(members[i].0), members[i].1])
    ensures UpdateAll(acc, pairs, k) == Success(acc + DictOf(members[k..]))
    decreases |pairs| - k
  {
    if k == |pairs| {
      assert members[k..] == [];
      assert acc + map[] == acc;
    } else {
      var key := members[k].0;
      var v := members[k].1;
      PairStep(pairs[k], key, v, k);
      assert UpdateAll(acc, pairs, k) == UpdateAll(acc[key := v], pairs, k + 1);
      UpdatePairs(acc[key := v], pairs, members, k + 1);
      assert members[k..] == [members[k]] + members[k + 1..];
      DictOfCons(members[k], members[k + 1..]);
      UpdateThenMerge(acc, key, v, DictOf(members[k + 1..]));
    }
  }

  lemma PairStep(e: Json, key: string, v: Json, k: nat)
    requires e == JArr([JStr(key), v])
    ensures UpdatePair(e, k) == Success(Some((key, v)))
  {
    assert Elements(e) == [JStr(key), v];
  }

  lemma UpdateThenMerge(acc: map<string, Json>, key: string, v: Json, m: map<string, Json>)
    ensures acc[key := v] + m == acc + (map[key := v] + m)
  {
  }

  /** Building a dict from the front: the first member is overridden by any later one with its key. */
  lemma {:induction false} DictOfCons(first: (string, Json), rest: seq<(string, Json)>)
    ensures DictOf([first] + rest) == map[first.0 := first.1] + DictOf(rest)
    decreases |rest|
  {
    var ms := [first] + rest;
    if |rest| == 0 {
      assert ms[..|ms| - 1] == [];
    } else {
      var init := rest[..|rest| - 1];
      var last := rest[|rest| - 1];
      assert ms[..|ms| - 1] == [first] + init;
      assert ms[|ms| - 1] == last;
      DictOfCons(first, init);
      assert DictOf(rest) == DictOf(init)[last.0 := last.1];
      assert (map[first.0 := first.1] + DictOf(init))[last.0 := last.1]
          == map[first.0 := first.1] + DictOf(init)[last.0 := last.1];
    }
  }

  // ---------------------------------------------------------------------
  // _from_dict

  /**
   * A `Settings` instance as `_from_dict` builds it: the declared fields
   * the dict sets, each with the value it was given; every other field
   * keeps its default. The dataclass checks no types, so a field can hold
   * any decoded value.
   */
  type Record = map<string, Json>

  /** The merged dict with the token fallback applied. */
  function WithToken(m: map<string, Json>, envToken: Option<string>): (r: map<string, Json>)
    ensures "hf_api_token" in r
    ensures "hf_api_token" in m && Truthy(m["hf_api_token"]) ==> r == m
    ensures !("hf_api_token" in m && Truthy(m["hf_api_token"])) ==>
              r == m["hf_api_token" := if envToken.Some? then JStr(envToken.value) else JNull]
  {
    if "hf_api_token" in m && Truthy(m["hf_api_token"]) then m
    else m["hf_api_token" := if envToken.Some? then JStr(envToken.value) else JNull]
  }

  /** `{k: v for k, v in merged.items() if k in allowed}`. */
  function Filtered(m: map<string, Json>): (r: Record)
    ensures r.Keys == m.Keys * FieldKinds.Keys
    ensures forall k :: k in r ==> r[k] == m[k]
  {
    map k | k in m && k in FieldKinds :: m[k]
  }

  /**
   * `_from_dict`: `dict(d)`, the token fallback and the filter. Only
   * `dict(d)` can raise; the values are stored whatever their type.
   */
  function FromDict(d: Json, envToken: Option<string>): (r: Result<Record, Exc>)
    ensures r.Success? <==> PyDict(d).Success?
    ensures r.Failure? ==> r.error == PyDict(d).error
    ensures r.Success? ==> r.value.Keys <= FieldKinds.Keys && "hf_api_token" in r.value
    ensures r.Success? ==> forall k :: k in r.value && k != "hf_api_token" ==>
                                         k in PyDict(d).value && r.value[k] == PyDict(d).value[k]
    ensures r.Success? ==> forall k :: k in PyDict(d).value && k in FieldKinds ==> k in r.value
  {
    match PyDict(d)
    case Failure(e) => Failure(e)
    case Success(m) => Success(Filtered(WithToken(m, envToken)))
  }

  /** Every field set has a value of its declared type. */
  predicate AllFit(f: Record)
  {
    forall k :: k in f && k in FieldKinds ==> Fits(FieldKinds[k], f[k])
  }

  /**
   * The typed view of a record, which the rest of the model works with:
   * defined exactly when every field set holds a value of its declared type.
   */
  function AsSettings(rec: Record): (r: Option<Settings>)
    ensures r.Some? <==> AllFit(rec)
    ensures r.Some? ==> r.value == SettingsOf(rec)
  {
    if AllFit(rec) then Some(SettingsOf(rec)) else None
  }

  /** An object always loads, and a declared field keeps the value it was given, whatever its type. */
  lemma AnyValueKept(members: seq<(string, Json)>, key: string, v: Json, envToken: Option<string>)
    requires key in FieldKinds
    requires key != "hf_api_token" || Truthy(v)
    ensures FromDict(JObj(members + [(key, v)]), envToken).Success?
    ensures FromDict(JObj(members + [(key, v)]), envToken).value[key] == v
  {
    var ms := members + [(key, v)];
    assert ms[..|ms| - 1] == members;
    assert DictOf(ms)[key] == v;
  }

  /** A key the record does not declare has no effect. */
  lemma UnknownKeyIgnored(members: seq<(string, Json)>, key: string, v: Json, envToken: Option<string>)
    requires key !in FieldKinds
    ensures FromDict(JObj(members + [(key, v)]), envToken) == FromDict(JObj(members), envToken)
  {
    var ms := members + [(key, v)];
    assert ms[..|ms| - 1] == members;
    var m := DictOf(members);
    assert DictOf(ms) == m[key := v];
    TokenKind();
    assert WithToken(m[key := v], envToken) == WithToken(m, envToken)[key := v];
    FilteredIgnores(WithToken(m, envToken), key, v);
  }

  /** Setting an undeclared key leaves the filtered dict as it was. */
  lemma FilteredIgnores(m: map<string, Json>, key: string, v: Json)
    requires key !in FieldKinds
    ensures Filtered(m[key := v]) == Filtered(m)
  {
  }

  /**
   * An empty object, an empty list and an empty string all give the
   * defaults, with the token taken from the environment.
   */
  lemma EmptyGivesDefaults(d: Json, envToken: Option<string>)
    requires d == JObj([]) || d == JArr([]) || d == JStr("")
    ensures FromDict(d, envToken).Success?
    ensures AsSettings(FromDict(d, envToken).value) == Some(Defaults.(hfApiToken := envToken))
  {
    EmptySequencesGiveEmptyDict();
    assert PyDict(d) == Success(map[]);
    var f := Filtered(WithToken(map[], envToken));
    assert f == map["hf_api_token" := if envToken.Some? then JStr(envToken.value) else JNull];
    TokenOnly(f["hf_api_token"]);
    TokenKind();
    assert AllFit(f);
  }

  /** "hf_api_token" is declared as an optional string. */
  lemma TokenKind()
    ensures "hf_api_token" in FieldKinds && FieldKinds["hf_api_token"] == KOptStr
  {
  }

  /** Settings read from a dict holding only a token: the defaults with that token. */
  lemma TokenOnly(x: Json)
    requires x.JStr? || x.JNull?
    ensures SettingsOf(map["hf_api_token" := x]) == Defaults.(hfApiToken := if x.JStr? then Some(x.s) else None)
  {
    var m := map["hf_api_token" := x];
    assert m.Keys == {"hf_api_token"};
  }

  /** A non-empty token in the file wins over the environment. */
  lemma FileTokenWins(members: seq<(string, Json)>, token: string, envToken: Option<string>)
    requires |token| > 0
    ensures FromDict(JObj(members + [("hf_api_token", JStr(token))]), envToken).Success?
    ensures FromDict(JObj(members + [("hf_api_token", JStr(token))]), envToken).value["hf_api_token"] == JStr(token)
  {
    AnyValueKept(members, "hf_api_token", JStr(token), envToken);
  }

  /** An empty or missing token in the file is replaced by the environment's. */
  lemma EnvTokenFills(d: Json, envToken: Option<string>)
    requires FromDict(d, envToken).Success?
    requires var m := PyDict(d).value; !("hf_api_token" in m && Truthy(m["hf_api_token"]))
    ensures FromDict(d, envToken).value["hf_api_token"] == if envToken.Some? then JStr(envToken.value) else JNull
  {
  }

  // ---------------------------------------------------------------------
  // load_settings_file

  predicate IsComponent(c: string)
  {
    c != "" && c != "."
  }

  /** The last path component that is neither empty nor ".", as `pathlib` normalises it. */
  function LastComponent(p: string): (r: Option<string>)
    ensures r.Some? ==> IsComponent(r.value) && '/' !in r.value
    decreases |p|
  {
    match LastIndex(p, '/')
    case None => if IsComponent(p) then Some(p) else None
    case Some(i) =>
      if IsComponent(p[i + 1..]) then Some(p[i + 1..]) else LastComponent(p[..i])
  }

  /** `pathlib.Path(p).name`. */
  function Basename(p: string): (r: string)
    ensures '/' !in r
  {
    var c := LastComponent(p);
    if c.Some? then c.value else ""
  }

  /** Only the file name counts: any directory part of the argument is dropped. */
  lemma BasenameDropsDirectory(dir: string, name: string)
    requires IsComponent(name) && '/' !in name
    ensures Basename(dir + "/" + name) == name
  {
    var p := dir + "/" + name;
    assert p[|dir|] == '/';
    assert p[|dir| + 1..] == name;
    assert LastIndex(p, '/') == Some(|dir|);
  }

  /** The file `load_settings_file` opens. */
  function ConfigPath(arg: string): string
  {
    if Basename(arg) == "" then "run_configs" else "run_configs/" + Basename(arg)
  }

  /** `[_from_dict(x) for x in obj]`: the first element that fails ends the list. */
  function FromDictAll(items: seq<Json>, envToken: Option<string>): (r: Result<seq<Record>, Exc>)
    ensures r.Success? <==> forall i :: 0 <= i < |items| ==> FromDict(items[i], envToken).Success?
    ensures r.Success? ==> |r.value| == |items| && forall i :: 0 <= i < |items| ==> FromDict(items[i], envToken) == Success(r.value[i])
    ensures r.Failure? ==> exists i :: 0 <= i < |items| && FromDict(items[i], envToken) == Failure(r.error)
                                       && forall j :: 0 <= j < i ==> FromDict(items[j], envToken).Success?
  {
    MapAll(items, x => FromDict(x, envToken))
  }

  /**
   * `load_settings_file`: one object gives one settings record, a list one
   * per element, in order, each element going through `_from_dict`;
   * anything else is a ValueError. The file read is `readJson`, which
   * reports what `open` and `json.load` raise; a path whose name part is
   * empty names the `run_configs` folder itself, so what happens then is
   * what opening that path does (IsADirectoryError when the folder exists,
   * FileNotFoundError when it does not).
   */
  function LoadSettingsFile(arg: string, readJson: string -> Result<Json, Exc>, envToken: Option<string>)
    : (r: Result<seq<Record>, Exc>)
    ensures Basename(arg) == "" ==> ConfigPath(arg) == "run_configs"
    ensures readJson(ConfigPath(arg)).Failure? ==> r == Failure(readJson(ConfigPath(arg)).error)
    ensures r.Success? ==> readJson(ConfigPath(arg)).Success?
    ensures readJson(ConfigPath(arg)).Success? && readJson(ConfigPath(arg)).value.JObj? ==>
              r == Success([FromDict(readJson(ConfigPath(arg)).value, envToken).value])
    ensures readJson(ConfigPath(arg)).Success? && readJson(ConfigPath(arg)).value.JArr? ==>
              var items := readJson(ConfigPath(arg)).value.items;
              (r.Success? <==> forall i :: 0 <= i < |items| ==> FromDict(items[i], envToken).Success?)
    ensures r.Success? && readJson(ConfigPath(arg)).value.JArr? ==>
              var items := readJson(ConfigPath(arg)).value.items;
              |r.value| == |items| && forall i :: 0 <= i < |items| ==> FromDict(items[i], envToken) == Success(r.value[i])
    ensures readJson(ConfigPath(arg)).Success?
            && !readJson(ConfigPath(arg)).value.JObj? && !readJson(ConfigPath(arg)).value.JArr?
            ==> r == Failure(ValueError("Config JSON must be either an object or an array of objects."))
  {
    var obj := readJson(ConfigPath(arg));
    if obj.Failure? then Failure(obj.error)
    else if obj.value.JObj? then Success([FromDict(obj.value, envToken).value])
    else if obj.value.JArr? then FromDictAll(obj.value.items, envToken)
    else Failure(ValueError("Config JSON must be either an object or an array of objects."))
  }
}

/** Choosing the client for a provider, llm_judging/bt/llm/factory.py. */
module Factory {
  import opened Common
  import opened Config

  datatype ClientKind = OllamaClient | HFHubClient | HFEndpointClient

  /**
   * `build_llm_client`: "ollama", "hf_hub" and "hf_endpoint" select their
   * client; the endpoint client needs a non-empty URL; any other provider
   * is a ValueError.
   */
  function BuildLlmClient(s: Settings): (r: Result<ClientKind, Exc>)
    ensures r == Success(OllamaClient) <==> s.provider == "ollama"
    ensures r == Success(HFHubClient) <==> s.provider == "hf_hub"
    ensures r == Success(HFEndpointClient) <==>
              s.provider == "hf_endpoint" && s.hfEndpointUrl.Some? && s.hfEndpointUrl.value != ""
    ensures r.Failure? ==> r.error.ValueError?
  {
    if s.provider == "ollama" then Success(OllamaClient)
    else if s.provider == "hf_hub" then Success(HFHubClient)
    else if s.provider == "hf_endpoint" then
      if s.hfEndpointUrl.None? || s.hfEndpointUrl.value == "" then
        Failure(ValueError("hf_endpoint_url must be set when provider='hf_endpoint'"))
      else Success(HFEndpointClient)
    else Failure(ValueError("Unknown provider: " + s.provider))
  }
}
