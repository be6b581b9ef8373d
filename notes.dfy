/**
 * The run-notes payload of scripts/llm_judging/passage_v2/notes.py:
 * `RunNotes.render` builds a nested dict describing a run (model and
 * knobs, schemas, prompt fingerprint, free-form notes, extras, host) and
 * removes every `None` value from it before serialising.
 *
 * The prompt hash is the parameter `sha256`; the host description and the
 * clock are the parameter `host`. Serialisation (`json.dumps`) is not
 * modelled: the payload is returned as the JSON value it would print.
 */
module RunNotesPayload {
  import opened Common
  import opened PyJson

  // ---------------------------------------------------------------------
  // drop_nones

  /** No object at any depth has a `None` value. */
  predicate NoNulls(v: Json)
    decreases v
  {
    match v
    case JObj(ms) => forall i :: 0 <= i < |ms| ==> ms[i].1 != JNull && NoNulls(ms[i].1)
    case JArr(items) => forall i :: 0 <= i < |items| ==> NoNulls(items[i])
    case _ => true
  }

  /**
   * `drop_nones`: every object member whose value is `None` is removed, at
   * every depth; lists keep their length and order (a `None` element stays);
   * any other value is returned as it is.
   */
  function DropNones(v: Json): Json
    decreases v, 1
  {
    match v
    case JObj(ms) => JObj(DropMembers(v, ms))
    case JArr(items) => JArr(DropItems(v, items))
    case _ => v
  }

  /** The members of an object kept by `drop_nones`, each value cleaned, in order. */
  function DropMembers(parent: Json, ms: seq<(string, Json)>): seq<(string, Json)>
    requires forall i :: 0 <= i < |ms| ==> ms[i].1 < parent
    decreases parent, 0, |ms|
  {
    if |ms| == 0 then []
    else
      var rest := DropMembers(parent, ms[1..]);
      if ms[0].1 == JNull then rest
      else [(ms[0].0, DropNones(ms[0].1))] + rest
  }

  /** The elements of a list, each cleaned, in order. */
  function DropItems(parent: Json, items: seq<Json>): seq<Json>
    requires forall i :: 0 <= i < |items| ==> items[i] < parent
    decreases parent, 0, |items|
  {
    if |items| == 0 then []
    else [DropNones(items[0])] + DropItems(parent, items[1..])
  }

  /**
   * The result has no `None` member at any depth; it is `None`, a list or
   * an object exactly when the input is; a list is cleaned element by
   * element; any other value is unchanged.
   */
  lemma {:induction false} DropNonesSpec(v: Json)
    ensures NoNulls(DropNones(v))
    ensures DropNones(v).JNull? <==> v.JNull?
    ensures v.JArr? <==> DropNones(v).JArr?
    ensures v.JObj? <==> DropNones(v).JObj?
    ensures v.JArr? ==>
              && |DropNones(v).items| == |v.items|
              && forall i :: 0 <= i < |v.items| ==> DropNones(v).items[i] == DropNones(v.items[i])
    ensures !v.JArr? && !v.JObj? ==> DropNones(v) == v
    decreases v, 1
  {
    match v
    case JObj(ms) =>
      DropMembersSpec(v, ms);
    case JArr(items) =>
      DropItemsSpec(v, items);
      forall i | 0 <= i < |items|
        ensures NoNulls(DropNones(items[i]))
      {
        DropNonesSpec(items[i]);
      }
    case _ =>
  }

  /**
   * The kept members: no more than there were, none `None` or holding one,
   * every non-`None` member kept (cleaned), and nothing else.
   */
  lemma {:induction false} DropMembersSpec(parent: Json, ms: seq<(string, Json)>)
    requires forall i :: 0 <= i < |ms| ==> ms[i].1 < parent
    ensures |DropMembers(parent, ms)| <= |ms|
    ensures forall m :: m in DropMembers(parent, ms) ==> m.1 != JNull && NoNulls(m.1)
    ensures forall i :: 0 <= i < |ms| && ms[i].1 != JNull ==> (ms[i].0, DropNones(ms[i].1)) in DropMembers(parent, ms)
    ensures forall m :: m in DropMembers(parent, ms) ==>
              exists i :: 0 <= i < |ms| && ms[i].1 != JNull && m == (ms[i].0, DropNones(ms[i].1))
    decreases parent, 0, |ms|
  {
    if |ms| > 0 {
      var rest := ms[1..];
      assert forall i :: 1 <= i < |ms| ==> ms[i] == rest[i - 1];
      DropMembersSpec(parent, rest);
      if ms[0].1 != JNull {
        DropNonesSpec(ms[0].1);
      }
      forall m | m in DropMembers(parent, rest)
        ensures exists i :: 0 <= i < |ms| && ms[i].1 != JNull && m == (ms[i].0, DropNones(ms[i].1))
      {
        var k :| 0 <= k < |rest| && rest[k].1 != JNull && m == (rest[k].0, DropNones(rest[k].1));
        assert ms[k + 1] == rest[k];
      }
    }
  }

  /** The cleaned list has the same length and holds each element cleaned. */
  lemma {:induction false} DropItemsSpec(parent: Json, items: seq<Json>)
    requires forall i :: 0 <= i < |items| ==> items[i] < parent
    ensures |DropItems(parent, items)| == |items|
    ensures forall i :: 0 <= i < |items| ==> DropItems(parent, items)[i] == DropNones(items[i])
    decreases parent, 0, |items|
  {
    if |items| > 0 {
      var rest := items[1..];
      assert forall i :: 1 <= i < |items| ==> items[i] == rest[i - 1];
      DropItemsSpec(parent, rest);
    }
  }

  /** A value with no `None` member anywhere is left exactly as it is. */
  lemma {:induction false} DropNonesFixed(v: Json)
    requires NoNulls(v)
    ensures DropNones(v) == v
    decreases v, 1
  {
    match v
    case JObj(ms) => DropMembersFixed(v, ms);
    case JArr(items) =>
      forall i | 0 <= i < |items|
        ensures DropNones(items[i]) == items[i]
      {
        DropNonesFixed(items[i]);
      }
      DropItemsSpec(v, items);
      assert DropItems(v, items) == items;
    case _ =>
  }

  lemma {:induction false} DropMembersFixed(parent: Json, ms: seq<(string, Json)>)
    requires forall i :: 0 <= i < |ms| ==> ms[i].1 < parent && ms[i].1 != JNull && NoNulls(ms[i].1)
    ensures DropMembers(parent, ms) == ms
    decreases parent, 0, |ms|
  {
    if |ms| > 0 {
      DropNonesFixed(ms[0].1);
      DropMembersFixed(parent, ms[1..]);
      assert ms == [ms[0]] + ms[1..];
    }
  }

  /** Cleaning twice is cleaning once. */
  lemma DropNonesIdempotent(v: Json)
    ensures DropNones(DropNones(v)) == DropNones(v)
  {
    DropNonesSpec(v);
    DropNonesFixed(DropNones(v));
  }

  // ---------------------------------------------------------------------
  // The prompt fingerprint

  /** The characters `str.splitlines` breaks at. */
  predicate IsLineBreak(c: char)
  {
    ('\n' <= c <= '\r') || ('\U{1C}' <= c <= '\U{1E}') || c == '\U{85}' || c == '\U{2028}' || c == '\U{2029}'
  }

  /** Everything before the first line break. */
  function UpToLineBreak(s: string): (r: string)
    ensures r <= s
    ensures forall i :: 0 <= i < |r| ==> !IsLineBreak(r[i])
    ensures |r| < |s| ==> IsLineBreak(s[|r|])
  {
    if |s| == 0 || IsLineBreak(s[0]) then [] else [s[0]] + UpToLineBreak(s[1..])
  }

  /**
   * `template.strip().splitlines()[0][:160] if template else ""`: an
   * empty template gives "", a template of only whitespace has no lines and
   * raises IndexError, anything else gives the first line of the stripped
   * text, cut to 160 characters — never empty, since every line break is
   * whitespace and the stripped text starts with none.
   */
  function FirstLine(template: string): (r: Result<string, Exc>)
    ensures r.Failure? <==> template != "" && Strip(template) == ""
    ensures r.Failure? ==> r.error == IndexError
    ensures template == "" ==> r == Success("")
    ensures r.Success? && template != "" ==>
              && r.value <= Strip(template) && 0 < |r.value| <= 160
              && forall i :: 0 <= i < |r.value| ==> !IsLineBreak(r.value[i])
    ensures r.Success? && template != "" ==>
              |r.value| == 160 || |r.value| == |Strip(template)| || IsLineBreak(Strip(template)[|r.value|])
  {
    if template == "" then Success("")
    else
      var s := Strip(template);
      if s == "" then Failure(IndexError)
      else
        assert !IsLineBreak(s[0]);
        Success(PyPrefix(UpToLineBreak(s), 160))
  }

  // ---------------------------------------------------------------------
  // The payload

  datatype RunNotes = RunNotes(
    model: string, promptTemplate: string, maxTextChars: Option<int>,
    dataSchema: string, auditSchema: string,
    commitEvery: Option<int>, limit: Option<int>, temperature: real, temperatureRepr: string,
    userNotes: Option<string>, extras: Option<seq<(string, Json)>>)

  /** What `render` learns about the machine and the clock. */
  datatype Host = Host(startedAtUtc: string, python: string, platform: string, machine: string, hostname: string)

  function OptInt(x: Option<int>): Json
  {
    if x.Some? then JInt(x.value) else JNull
  }

  /** `(user_notes or "").strip() or None`. */
  function NotesValue(userNotes: Option<string>): (v: Json)
    ensures v == JNull <==> userNotes.None? || Strip(userNotes.value) == ""
    ensures v != JNull ==> v == JStr(Strip(userNotes.value))
  {
    var s := Strip(if userNotes.Some? then userNotes.value else "");
    if s == "" then JNull else JStr(s)
  }

  /** The "prompt" section: the template's hash, its first line and its length before stripping. */
  function PromptSection(template: string, first: string, sha256: string -> string): (v: Json)
    ensures v.JObj? && v != JNull
    ensures Get(v.members, "first_line") == Some(JStr(first))
    ensures Get(v.members, "chars") == Some(JInt(|template|))
  {
    var ms := [("sha256", JStr(sha256(template))), ("first_line", JStr(first)), ("chars", JInt(|template|))];
    assert ms[1..][1..] == [ms[2]];
    JObj(ms)
  }

  /** The "extras" section: the extras when there are any, else `None`. */
  function ExtrasSection(extras: Option<seq<(string, Json)>>): (v: Json)
    ensures v == JNull <==> extras.None? || |extras.value| == 0
    ensures v != JNull ==> v == JObj(extras.value)
  {
    if extras.Some? && |extras.value| > 0 then JObj(extras.value) else JNull
  }

  /** The "system" section: the host facts when asked for, else `None`. */
  function SystemSection(includeSystem: bool, host: Host): (v: Json)
    ensures v == JNull <==> !includeSystem
  {
    if includeSystem then
      JObj([("started_at_utc", JStr(host.startedAtUtc)), ("python", JStr(host.python)),
            ("platform", JStr(host.platform)), ("machine", JStr(host.machine)), ("hostname", JStr(host.hostname))])
    else JNull
  }

  /** The dict `render` builds, before `drop_nones`. */
  function Payload(n: RunNotes, includeSystem: bool, host: Host, sha256: string -> string): (r: Result<Json, Exc>)
    ensures r.Failure? <==> FirstLine(n.promptTemplate).Failure?
    ensures r.Success? ==>
              && r.value.JObj? && |r.value.members| == 6
              && var ms := r.value.members;
              && ms[0].0 == "run" && ms[0].1.JObj? && ms[1].0 == "data" && ms[1].1.JObj?
              && ms[2] == ("prompt", PromptSection(n.promptTemplate, FirstLine(n.promptTemplate).value, sha256))
              && ms[3] == ("notes", NotesValue(n.userNotes))
              && ms[4] == ("extras", ExtrasSection(n.extras))
              && ms[5] == ("system", SystemSection(includeSystem, host))
  {
    match FirstLine(n.promptTemplate)
    case Failure(e) => Failure(e)
    case Success(first) =>
      Success(JObj([
        ("run", JObj([("model", JStr(n.model)), ("temperature", JFloat(n.temperature, n.temperatureRepr)),
                      ("max_text_chars", OptInt(n.maxTextChars)), ("limit", OptInt(n.limit)),
                      ("commit_every", OptInt(n.commitEvery))])),
        ("data", JObj([("data_schema", JStr(n.dataSchema)), ("audit_schema", JStr(n.auditSchema))])),
        ("prompt", PromptSection(n.promptTemplate, first, sha256)),
        ("notes", NotesValue(n.userNotes)),
        ("extras", ExtrasSection(n.extras)),
        ("system", SystemSection(includeSystem, host))]))
  }

  /** `render` (before `json.dumps`): the payload with every `None` removed. */
  function Render(n: RunNotes, includeSystem: bool, host: Host, sha256: string -> string): (r: Result<Json, Exc>)
    ensures r.Failure? <==> FirstLine(n.promptTemplate).Failure?
    ensures r.Success? ==> r.value.JObj? && NoNulls(r.value)
  {
    match Payload(n, includeSystem, host, sha256)
    case Failure(e) => Failure(e)
    case Success(p) => DropNonesSpec(p); Success(DropNones(p))
  }

  /**
   * The top-level keys that survive: "run", "data" and "prompt" always;
   * "notes" exactly when the stripped notes are non-empty, "extras" exactly
   * when there are extras, "system" exactly when it was asked for.
   */
  lemma RenderKeys(n: RunNotes, includeSystem: bool, host: Host, sha256: string -> string)
    requires FirstLine(n.promptTemplate).Success?
    ensures var ms := Render(n, includeSystem, host, sha256).value.members;
            && HasKey(ms, "run") && HasKey(ms, "data") && HasKey(ms, "prompt")
            && (HasKey(ms, "notes") <==> n.userNotes.Some? && Strip(n.userNotes.value) != "")
            && (HasKey(ms, "extras") <==> n.extras.Some? && |n.extras.value| > 0)
            && (HasKey(ms, "system") <==> includeSystem)
  {
    var p := Payload(n, includeSystem, host, sha256).value;
    RenderedMembers(n, includeSystem, host, sha256);
    SectionKeysKept(p, Render(n, includeSystem, host, sha256).value.members, n, includeSystem, host);
  }

  /** The rendered object's members are the payload's, cleaned. */
  lemma RenderedMembers(n: RunNotes, includeSystem: bool, host: Host, sha256: string -> string)
    requires FirstLine(n.promptTemplate).Success?
    ensures Render(n, includeSystem, host, sha256).value.members ==
            DropMembers(Payload(n, includeSystem, host, sha256).value, Payload(n, includeSystem, host, sha256).value.members)
  {
    RenderIsCleanPayload(n, includeSystem, host, sha256);
    CleanObject(Payload(n, includeSystem, host, sha256).value);
  }

  /** `render` cleans the payload. */
  lemma RenderIsCleanPayload(n: RunNotes, includeSystem: bool, host: Host, sha256: string -> string)
    requires FirstLine(n.promptTemplate).Success?
    ensures Render(n, includeSystem, host, sha256) == Success(DropNones(Payload(n, includeSystem, host, sha256).value))
  {
  }

  /** Cleaning an object cleans its members. */
  lemma CleanObject(p: Json)
    requires p.JObj?
    ensures DropNones(p) == JObj(DropMembers(p, p.members))
  {
  }

  /** The surviving keys of a six-section payload, in terms of the notes it was built from. */
  lemma SectionKeysKept(p: Json, ms: seq<(string, Json)>, n: RunNotes, includeSystem: bool, host: Host)
    requires p.JObj? && |p.members| == 6
    requires p.members[0].0 == "run" && p.members[1].0 == "data" && p.members[2].0 == "prompt"
    requires p.members[3].0 == "notes" && p.members[4].0 == "extras" && p.members[5].0 == "system"
    requires p.members[0].1.JObj? && p.members[1].1.JObj? && p.members[2].1.JObj?
    requires p.members[3].1 == NotesValue(n.userNotes) && p.members[4].1 == ExtrasSection(n.extras)
    requires p.members[5].1 == SystemSection(includeSystem, host)
    requires ms == DropMembers(p, p.members)
    ensures && HasKey(ms, "run") && HasKey(ms, "data") && HasKey(ms, "prompt")
            && (HasKey(ms, "notes") <==> n.userNotes.Some? && Strip(n.userNotes.value) != "")
            && (HasKey(ms, "extras") <==> n.extras.Some? && |n.extras.value| > 0)
            && (HasKey(ms, "system") <==> includeSystem)
  {
    PayloadKeysKept(p);
  }

  /** Which of the six top-level keys survive, in terms of the values under them. */
  lemma PayloadKeysKept(p: Json)
    requires p.JObj? && |p.members| == 6
    requires p.members[0].0 == "run" && p.members[1].0 == "data" && p.members[2].0 == "prompt"
    requires p.members[3].0 == "notes" && p.members[4].0 == "extras" && p.members[5].0 == "system"
    ensures var r := DropMembers(p, p.members);
            && (HasKey(r, "run") <==> p.members[0].1 != JNull)
            && (HasKey(r, "data") <==> p.members[1].1 != JNull)
            && (HasKey(r, "prompt") <==> p.members[2].1 != JNull)
            && (HasKey(r, "notes") <==> p.members[3].1 != JNull)
            && (HasKey(r, "extras") <==> p.members[4].1 != JNull)
            && (HasKey(r, "system") <==> p.members[5].1 != JNull)
  {
    var ms := p.members;
    PayloadKeysDistinct(ms);
    KeptUnique(p, ms, 0);
    KeptUnique(p, ms, 1);
    KeptUnique(p, ms, 2);
    KeptUnique(p, ms, 3);
    KeptUnique(p, ms, 4);
    KeptUnique(p, ms, 5);
  }

  predicate DistinctKeys(ms: seq<(string, Json)>)
  {
    forall i, j :: 0 <= i < j < |ms| ==> ms[i].0 != ms[j].0
  }

  lemma PayloadKeysDistinct(ms: seq<(string, Json)>)
    requires |ms| == 6
    requires ms[0].0 == "run" && ms[1].0 == "data" && ms[2].0 == "prompt"
    requires ms[3].0 == "notes" && ms[4].0 == "extras" && ms[5].0 == "system"
    ensures DistinctKeys(ms)
  {
    var keys := ["run", "data", "prompt", "notes", "extras", "system"];
    assert forall i :: 0 <= i < 6 ==> ms[i].0 == keys[i];
    assert keys[0][0] == 'r' && keys[1][0] == 'd' && keys[2][0] == 'p';
    assert keys[3][0] == 'n' && keys[4][0] == 'e' && keys[5][0] == 's';
  }

  /** Under distinct keys, a member's key survives exactly when its value is not `None`. */
  lemma KeptUnique(parent: Json, ms: seq<(string, Json)>, j: nat)
    requires forall i :: 0 <= i < |ms| ==> ms[i].1 < parent
    requires DistinctKeys(ms) && j < |ms|
    ensures HasKey(DropMembers(parent, ms), ms[j].0) <==> ms[j].1 != JNull
  {
    KeptKey(parent, ms, ms[j].0);
  }

  /** A key survives `drop_nones` exactly when some member under it is not `None`. */
  lemma KeptKey(parent: Json, ms: seq<(string, Json)>, k: string)
    requires forall i :: 0 <= i < |ms| ==> ms[i].1 < parent
    ensures HasKey(DropMembers(parent, ms), k) <==> exists i :: 0 <= i < |ms| && ms[i].0 == k && ms[i].1 != JNull
  {
    var r := DropMembers(parent, ms);
    DropMembersSpec(parent, ms);
    if HasKey(r, k) {
      var j :| 0 <= j < |r| && r[j].0 == k;
      assert r[j] in r;
    }
    if exists i :: 0 <= i < |ms| && ms[i].0 == k && ms[i].1 != JNull {
      var i :| 0 <= i < |ms| && ms[i].0 == k && ms[i].1 != JNull;
      var m := (ms[i].0, DropNones(ms[i].1));
      assert m in r;
      var j :| 0 <= j < |r| && r[j] == m;
      assert r[j].0 == k;
    }
  }
}
