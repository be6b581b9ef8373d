/**
 * Parsing a judge model's free-text answer into (score, reason), as
 * llm_judging/bt/util/parsing.py does (old/llm_judging/bt/util/parsing.py
 * is the same file).
 *
 * The parser first looks for a JSON object: it strips a surrounding
 * Markdown code fence, then scans for the first balanced `{...}` block
 * (quote- and escape-aware) that decodes. A usable object has a "score"
 * key (any letter case) whose value coerces to an integer in 0..3. When
 * there is none, it falls back to the first `score: N` / `score=N` in the
 * text. JSON decoding is the parameter `decode`.
 */
module ResponseParsing {
  import opened Common
  import opened PyJson

  type Decoder = string -> Option<Json>

  // ---------------------------------------------------------------------
  // Code fences

  /** Text that opens and closes with three backticks, which `_RE_FENCE` needs of the stripped text. */
  predicate Fenced(t: string)
  {
    |t| >= 6 && t[..3] == "```" && t[|t| - 3..] == "```"
  }

  /**
   * `_strip_code_fences`: when the stripped text is a fenced block
   * "```" [json] ... "```", the stripped body; otherwise the text unchanged.
   * The optional language tag is matched in any letter case.
   */
  function StripCodeFences(text: string): (r: string)
    ensures r != text <==> Fenced(Strip(text))
    ensures Fenced(Strip(text)) ==> |r| + 6 <= |text|
  {
    var t := Strip(text);
    if Fenced(t) then
      var k := if |t| >= 10 && Lower(t[3..7]) == "json" then 7 else 3;
      Strip(t[k..|t| - 3])
    else text
  }

  /** A fenced answer tagged "json" in any letter case loses its fence and tag, and only those. */
  lemma {:induction false} TaggedFenceRemoved(tag: string, body: string)
    requires |tag| == 4 && Lower(tag) == "json"
    ensures StripCodeFences("```" + tag + body + "```") == Strip(body)
  {
    var t := "```" + tag + body + "```";
    assert t[0] == '`' && t[|t| - 1] == '`';
    StripNoop(t);
    assert t[..3] == "```" && t[|t| - 3..] == "```";
    assert t[3..7] == tag;
    assert t[7..|t| - 3] == body;
  }

  /** An untagged fenced answer loses its fence, unless its body itself begins with "json". */
  lemma {:induction false} UntaggedFenceRemoved(body: string)
    requires |body| < 4 || Lower(body[..4]) != "json"
    ensures StripCodeFences("```" + body + "```") == Strip(body)
  {
    var t := "```" + body + "```";
    assert t[0] == '`' && t[|t| - 1] == '`';
    StripNoop(t);
    assert t[..3] == "```" && t[|t| - 3..] == "```";
    assert |t| >= 10 ==> t[3..7] == body[..4];
    assert t[3..|t| - 3] == body;
  }

  /** Text that does not start with a fence (after stripping) is left alone. */
  lemma NoFenceUnchanged(text: string)
    requires |Strip(text)| < 3 || Strip(text)[..3] != "```"
    ensures StripCodeFences(text) == text
  {
  }

  // ---------------------------------------------------------------------
  // The balanced-block scanner

  /** Scanner state after a prefix: brace depth, inside a string, after a backslash, where the open block began. */
  datatype ScanState = ScanState(depth: nat, inStr: bool, esc: bool, start: nat)

  /** One character of `_find_first_json_object`'s state machine, at position `i`. */
  function Step(st: ScanState, i: nat, ch: char): ScanState
  {
    if st.inStr then
      if st.esc then st.(esc := false)
      else if ch == '\\' then st.(esc := true)
      else if ch == '"' then st.(inStr := false)
      else st
    else if ch == '"' then st.(inStr := true)
    else if ch == '{' then st.(depth := st.depth + 1, start := if st.depth == 0 then i else st.start)
    else if ch == '}' && st.depth > 0 then st.(depth := st.depth - 1)
    else st
  }

  /** The scanner state before position `i` of `s`. */
  function StateAt(s: string, i: nat): (r: ScanState)
    requires i <= |s|
    ensures r.depth > 0 ==> r.start < i && s[r.start] == '{'
  {
    if i == 0 then ScanState(0, false, false, 0)
    else Step(StateAt(s, i - 1), i - 1, s[i - 1])
  }

  /** Position `i` holds the `}` that closes a top-level block outside any string. */
  predicate ClosesBlock(s: string, i: nat)
    requires i < |s|
  {
    var st := StateAt(s, i);
    !st.inStr && s[i] == '}' && st.depth == 1
  }

  /** The block closed at `i`, from its opening brace. */
  function Candidate(s: string, i: nat): (c: string)
    requires i < |s| && ClosesBlock(s, i)
    ensures |c| >= 2 && c[0] == '{' && c[|c| - 1] == '}'
  {
    s[StateAt(s, i).start..i + 1]
  }

  /** The first closed top-level block at or after `i` that decodes. */
  function FirstBlockFrom(s: string, decode: Decoder, i: nat): (r: Option<string>)
    requires i <= |s|
    ensures r.Some? ==> decode(r.value).Some? && |r.value| >= 2
                        && r.value[0] == '{' && r.value[|r.value| - 1] == '}'
    decreases |s| - i
  {
    if i == |s| then None
    else if ClosesBlock(s, i) && decode(Candidate(s, i)).Some? then Some(Candidate(s, i))
    else FirstBlockFrom(s, decode, i + 1)
  }

  /**
   * The block found is the leftmost accepted one: it is closed at some
   * position `j`, decodes, and every block closed earlier fails to decode;
   * nothing is found exactly when no block decodes.
   */
  lemma FirstBlockIsLeftmost(s: string, decode: Decoder, i: nat)
    requires i <= |s|
    ensures var r := FirstBlockFrom(s, decode, i);
      r.Some? ==> exists j :: i <= j < |s| && ClosesBlock(s, j) && r.value == Candidate(s, j)
                    && forall k :: i <= k < j && ClosesBlock(s, k) ==> decode(Candidate(s, k)).None?
    ensures FirstBlockFrom(s, decode, i).None? <==>
              forall j :: i <= j < |s| && ClosesBlock(s, j) ==> decode(Candidate(s, j)).None?
  {
    FirstBlockFound(s, decode, i);
    FirstBlockNone(s, decode, i);
  }

  /** A block found is closed at some `j`, and every block closed earlier fails to decode. */
  lemma {:induction false} FirstBlockFound(s: string, decode: Decoder, i: nat)
    requires i <= |s|
    ensures var r := FirstBlockFrom(s, decode, i);
      r.Some? ==> exists j :: i <= j < |s| && ClosesBlock(s, j) && r.value == Candidate(s, j)
                    && forall k :: i <= k < j && ClosesBlock(s, k) ==> decode(Candidate(s, k)).None?
    decreases |s| - i
  {
    var r := FirstBlockFrom(s, decode, i);
    if i == |s| {
    } else if ClosesBlock(s, i) && decode(Candidate(s, i)).Some? {
      assert i <= i < |s| && ClosesBlock(s, i) && r.value == Candidate(s, i);
    } else {
      FirstBlockFound(s, decode, i + 1);
      if r.Some? {
        var j :| i + 1 <= j < |s| && ClosesBlock(s, j) && r.value == Candidate(s, j)
                 && forall k :: i + 1 <= k < j && ClosesBlock(s, k) ==> decode(Candidate(s, k)).None?;
        assert i <= j < |s| && ClosesBlock(s, j) && r.value == Candidate(s, j);
      }
    }
  }

  /** Nothing is found exactly when no block closed from `i` on decodes. */
  lemma {:induction false} FirstBlockNone(s: string, decode: Decoder, i: nat)
    requires i <= |s|
    ensures FirstBlockFrom(s, decode, i).None? <==>
              forall j :: i <= j < |s| && ClosesBlock(s, j) ==> decode(Candidate(s, j)).None?
    decreases |s| - i
  {
    if i < |s| && !(ClosesBlock(s, i) && decode(Candidate(s, i)).Some?) {
      FirstBlockNone(s, decode, i + 1);
    }
  }

  /**
   * Every closed block is balanced: its opening brace is at depth 0 outside
   * a string, and the depth stays positive up to its closing brace, so no
   * top-level block ends inside it.
   */
  lemma {:induction false} OpenBlockBalanced(s: string, i: nat)
    requires i <= |s|
    ensures var st := StateAt(s, i);
      st.depth > 0 ==>
        && StateAt(s, st.start).depth == 0
        && !StateAt(s, st.start).inStr
        && forall k :: st.start < k <= i ==> StateAt(s, k).depth > 0
  {
    if i > 0 {
      OpenBlockBalanced(s, i - 1);
      var prev := StateAt(s, i - 1);
      var st := StateAt(s, i);
      if st.depth > 0 && !(prev.depth == 0 && !prev.inStr && s[i - 1] == '{') {
        assert prev.depth > 0 && st.start == prev.start;
      }
    }
  }

  /** Moving past a position that does not yield an accepted block keeps the answer. */
  lemma SkipPosition(s: string, decode: Decoder, i: nat)
    requires i < |s|
    requires !(ClosesBlock(s, i) && decode(Candidate(s, i)).Some?)
    ensures FirstBlockFrom(s, decode, i) == FirstBlockFrom(s, decode, i + 1)
    ensures StateAt(s, i + 1) == Step(StateAt(s, i), i, s[i])
  {
  }

  /** `_find_first_json_object`: scan once, trying each top-level block as it closes. */
  method FindFirstJsonObject(s: string, decode: Decoder) returns (r: Option<string>)
    ensures r == FirstBlockFrom(s, decode, 0)
  {
    var depth: nat := 0;
    var inStr := false;
    var esc := false;
    var start: Option<nat> := None;
    var i := 0;
    while i < |s|
      invariant 0 <= i <= |s|
      invariant StateAt(s, i).depth == depth && StateAt(s, i).inStr == inStr && StateAt(s, i).esc == esc
      invariant depth > 0 ==> start == Some(StateAt(s, i).start)
      invariant FirstBlockFrom(s, decode, 0) == FirstBlockFrom(s, decode, i)
    {
      var ch := s[i];
      if inStr {
        SkipPosition(s, decode, i);
        if esc {
          esc := false;
        } else if ch == '\\' {
          esc := true;
        } else if ch == '"' {
          inStr := false;
        }
        i := i + 1;
        continue;
      }
      if ch == '"' {
        SkipPosition(s, decode, i);
        inStr := true;
        i := i + 1;
        continue;
      }
      if ch == '{' {
        SkipPosition(s, decode, i);
        if depth == 0 {
          start := Some(i);
        }
        depth := depth + 1;
        i := i + 1;
        continue;
      }
      if ch == '}' && depth > 0 {
        depth := depth - 1;
        if depth == 0 && start.Some? {
          var candidate := s[start.value..i + 1];
          assert ClosesBlock(s, i) && candidate == Candidate(s, i);
          if decode(candidate).Some? {
            return Some(candidate);
          }
          SkipPosition(s, decode, i);
          start := None;
        } else {
          SkipPosition(s, decode, i);
        }
      } else {
        SkipPosition(s, decode, i);
      }
      i := i + 1;
    }
    return None;
  }

  /** Without a closing brace there is no block, whatever the decoder accepts. */
  lemma {:induction false} NoClosingBraceNoBlock(s: string, decode: Decoder, i: nat)
    requires i <= |s| && '}' !in s
    ensures FirstBlockFrom(s, decode, i).None?
    decreases |s| - i
  {
    if i < |s| {
      assert s[i] != '}';
      NoClosingBraceNoBlock(s, decode, i + 1);
    }
  }

  /** `extract_json_block`: the first decodable balanced object in the unfenced text. */
  function ExtractJsonBlock(text: string, decode: Decoder): (r: Option<string>)
    ensures r.Some? ==> decode(r.value).Some? && |r.value| >= 2
                        && r.value[0] == '{' && r.value[|r.value| - 1] == '}'
  {
    FirstBlockFrom(StripCodeFences(text), decode, 0)
  }

  // ---------------------------------------------------------------------
  // Keys and scores

  /** `_get_ci_key`: the value of the first key equal to `name` ignoring case. */
  function GetCiKey(members: seq<(string, Json)>, name: string): (r: Option<Json>)
    ensures r.Some? <==> exists i :: 0 <= i < |members| && Lower(members[i].0) == Lower(name)
    ensures r.Some? ==> exists i :: 0 <= i < |members| && Lower(members[i].0) == Lower(name)
                          && members[i].1 == r.value
                          && forall j :: 0 <= j < i ==> Lower(members[j].0) != Lower(name)
  {
    if |members| == 0 then None
    else if Lower(members[0].0) == Lower(name) then Some(members[0].1)
    else
      var r := GetCiKey(members[1..], name);
      assert forall i :: 1 <= i < |members| ==> members[i] == members[1..][i - 1];
      r
  }

  /** `_normalize_score`: `int(value)` when that succeeds and lies in 0..3. */
  function NormalizeScore(v: Json): (r: Option<int>)
    ensures r.Some? ==> 0 <= r.value <= 3
    ensures r.Some? <==> CoerceInt(v).Some? && 0 <= CoerceInt(v).value <= 3
    ensures r.Some? ==> r == CoerceInt(v)
  {
    var n := CoerceInt(v);
    if n.Some? && 0 <= n.value <= 3 then n else None
  }

  /**
   * The JSON path of `parse_score_and_reason`: usable exactly when the
   * first decodable block is an object whose "score" (any letter case)
   * coerces to 0..3. The reason is then `str()` of a string, number or
   * boolean "reason" (any letter case); any other value, or no such key,
   * gives no reason.
   */
  function JsonScoreAndReason(text: string, decode: Decoder): (r: Option<(int, Option<string>)>)
    ensures r.Some? ==> 0 <= r.value.0 <= 3
    ensures var block := ExtractJsonBlock(text, decode);
      r.Some? <==>
        && block.Some? && decode(block.value).value.JObj?
        && var members := decode(block.value).value.members;
        && GetCiKey(members, "score").Some?
        && NormalizeScore(GetCiKey(members, "score").value).Some?
    ensures r.Some? ==>
      var members := decode(ExtractJsonBlock(text, decode).value).value.members;
      && NormalizeScore(GetCiKey(members, "score").value) == Some(r.value.0)
      && r.value.1 == (if GetCiKey(members, "reason").Some? then ScalarText(GetCiKey(members, "reason").value) else None)
  {
    var block := ExtractJsonBlock(text, decode);
    if block.None? then None
    else
      var obj := decode(block.value).value;
      if !obj.JObj? then None
      else
        var score := GetCiKey(obj.members, "score");
        if score.None? || score.value == JNull then None
        else
          var n := NormalizeScore(score.value);
          if n.None? then None
          else
            var reason := GetCiKey(obj.members, "reason");
            Some((n.value, if reason.Some? then ScalarText(reason.value) else None))
  }

  /** A reason that is not text, a number or a boolean (null, a list, an object) is dropped. */
  lemma NonScalarReasonDropped(text: string, decode: Decoder)
    requires JsonScoreAndReason(text, decode).Some?
    requires var members := decode(ExtractJsonBlock(text, decode).value).value.members;
      GetCiKey(members, "reason").Some?
      && (GetCiKey(members, "reason").value.JNull? || GetCiKey(members, "reason").value.JArr?
          || GetCiKey(members, "reason").value.JObj?)
    ensures JsonScoreAndReason(text, decode).value.1.None?
  {
  }

  // ---------------------------------------------------------------------
  // The textual fallback `\bscore\s*[:=]\s*([0-3])\b`, ignoring case

  /** The first non-whitespace position at or after `j`. */
  function SkipSpaces(t: string, j: nat): (k: nat)
    requires j <= |t|
    ensures j <= k <= |t|
    ensures forall m :: j <= m < k ==> IsSpace(t[m])
    ensures k < |t| ==> !IsSpace(t[k])
    decreases |t| - j
  {
    if j < |t| && IsSpace(t[j]) then SkipSpaces(t, j + 1) else j
  }

  /** The digit of a match of the score pattern starting at position `p`, if one starts there. */
  function ScoreKvAt(t: string, p: nat): (r: Option<int>)
    requires p <= |t|
    ensures r.Some? ==> 0 <= r.value <= 3
  {
    if p + 5 <= |t| && (p == 0 || !IsWordChar(t[p - 1])) && Lower(t[p..p + 5]) == "score" then
      var j := SkipSpaces(t, p + 5);
      if j < |t| && (t[j] == ':' || t[j] == '=') then
        var k := SkipSpaces(t, j + 1);
        if k < |t| && '0' <= t[k] <= '3' && (k + 1 == |t| || !IsWordChar(t[k + 1])) then
          Some(t[k] as int - '0' as int)
        else None
      else None
    else None
  }

  /** `_RE_SCORE_KV.search(t)` from position `p`: the leftmost match. */
  function ScoreKvSearch(t: string, p: nat): (r: Option<int>)
    requires p <= |t|
    ensures r.Some? ==> 0 <= r.value <= 3
    decreases |t| - p
  {
    if ScoreKvAt(t, p).Some? then ScoreKvAt(t, p)
    else if p == |t| then None
    else ScoreKvSearch(t, p + 1)
  }

  /** The search finds the match at the leftmost position where one starts, and none when none does. */
  lemma {:induction false} ScoreKvSearchSpec(t: string, p: nat)
    requires p <= |t|
    ensures var r := ScoreKvSearch(t, p);
            r.Some? ==> exists q :: p <= q <= |t| && ScoreKvAt(t, q) == r
                          && forall q' :: p <= q' < q ==> ScoreKvAt(t, q').None?
    ensures ScoreKvSearch(t, p).None? ==> forall q :: p <= q <= |t| ==> ScoreKvAt(t, q).None?
    decreases |t| - p
  {
    if ScoreKvAt(t, p).Some? {
      assert p <= p <= |t| && ScoreKvAt(t, p) == ScoreKvSearch(t, p);
    } else if p < |t| {
      ScoreKvSearchSpec(t, p + 1);
      if ScoreKvSearch(t, p).Some? {
        var q :| p + 1 <= q <= |t| && ScoreKvAt(t, q) == ScoreKvSearch(t, p + 1)
                 && forall q' :: p + 1 <= q' < q ==> ScoreKvAt(t, q').None?;
        assert p <= q <= |t| && ScoreKvAt(t, q) == ScoreKvSearch(t, p);
      }
    }
  }

  /** The pattern recognises "score: d" between non-word characters, in any letter case. */
  lemma {:induction false} ScoreKvRecognised(pre: string, key: string, d: nat, post: string)
    requires d <= 3 && |key| == 5 && Lower(key) == "score"
    requires |pre| == 0 || !IsWordChar(pre[|pre| - 1])
    requires |post| == 0 || !IsWordChar(post[0])
    ensures ScoreKvAt(pre + key + ": " + [DigitChar(d)] + post, |pre|) == Some(d)
  {
    var t := pre + key + ": " + [DigitChar(d)] + post;
    var p := |pre|;
    assert t[p..p + 5] == key;
    assert t[p + 5] == ':' && !IsSpace(t[p + 5]);
    assert SkipSpaces(t, p + 5) == p + 5;
    assert t[p + 6] == ' ' && t[p + 7] == DigitChar(d) && !IsSpace(t[p + 7]);
    assert SkipSpaces(t, p + 7) == p + 7;
    assert SkipSpaces(t, p + 6) == p + 7;
    assert p > 0 ==> t[p - 1] == pre[|pre| - 1];
    assert p + 8 < |t| ==> t[p + 8] == post[0];
  }

  // ---------------------------------------------------------------------
  // parse_score_and_reason

  /**
   * `parse_score_and_reason`: the JSON answer when there is a usable one;
   * otherwise the score of the leftmost textual `score: N`, without a
   * reason, or nothing when the pattern occurs nowhere.
   */
  function ParseScoreAndReason(text: string, decode: Decoder): (r: (Option<int>, Option<string>))
    ensures r.0.Some? ==> 0 <= r.0.value <= 3
    ensures r.1.Some? ==> r.0.Some? && JsonScoreAndReason(text, decode).Some?
    ensures JsonScoreAndReason(text, decode).Some? ==>
              r == (Some(JsonScoreAndReason(text, decode).value.0), JsonScoreAndReason(text, decode).value.1)
    ensures JsonScoreAndReason(text, decode).None? ==>
              && r.1.None?
              && (r.0.None? <==> forall q :: 0 <= q <= |text| ==> ScoreKvAt(text, q).None?)
              && (r.0.Some? ==> exists q :: 0 <= q <= |text| && ScoreKvAt(text, q) == r.0
                                             && forall q' :: 0 <= q' < q ==> ScoreKvAt(text, q').None?)
  {
    var j := JsonScoreAndReason(text, decode);
    if j.Some? then (Some(j.value.0), j.value.1)
    else
      ScoreKvSearchSpec(text, 0);
      (ScoreKvSearch(text, 0), None)
  }

  /**
   * A decodable object whose score is out of range or missing does not stop
   * the parser: the textual fallback still applies, and finds nothing in a
   * text without a score pattern.
   */
  lemma {:induction false} UnusableJsonFallsBack(text: string, decode: Decoder)
    requires ExtractJsonBlock(text, decode).Some?
    requires var obj := decode(ExtractJsonBlock(text, decode).value).value;
      obj.JObj? && (GetCiKey(obj.members, "score").None? || NormalizeScore(GetCiKey(obj.members, "score").value).None?)
    requires forall q :: 0 <= q <= |text| ==> ScoreKvAt(text, q).None?
    ensures ParseScoreAndReason(text, decode) == (None, None)
  {
    assert JsonScoreAndReason(text, decode).None?;
    ScoreKvSearchSpec(text, 0);
  }
}
