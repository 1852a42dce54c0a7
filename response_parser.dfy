/** Recognising the reply formats of the vision models: which part of a
    reply is the model's reasoning and which is the action it chose
    (phone_agent/model/response_parser.py). The formats are tried in a
    fixed order and the first that recognises the reply wins. */
module ResponseParser {
  import opened Util

  /** The action half of a parsed reply: a JSON object, a raw command
      string such as `do(action="Back")`, or Python's `None`. */
  datatype Action = Dict(fields: map<string, Json>) | Text(s: string) | NoAction

  datatype Parsed = Parsed(thinking: string, action: Action)

  /** The library services the parser borrows. `loads` is `json.loads`
      (None where it raises `JSONDecodeError`); `str` is Python's `str()`
      of a decoded value that is not a string; `jsonThink` and `jsonAction`
      are the regular expressions the plain-JSON format falls back on;
      `commands` lists, in order, every match of the fallback's command
      expression. */
  datatype Oracles = Oracles(
    loads: string -> Option<Json>,
    str: Json -> string,
    jsonThink: string -> Option<string>,
    jsonAction: string -> Option<string>,
    commands: string -> seq<string>)

  /** `str(v)`: a string stays as it is. */
  function Str(o: Oracles, v: Json): (r: string)
    ensures v.JStr? ==> r == v.s
  {
    if v.JStr? then v.s else o.str(v)
  }

  /** A dictionary action names its step by a string other than `finish`. */
  predicate WellNamed(a: Action) {
    a.Dict? ==> "action" in a.fields && a.fields["action"].JStr? && Lower(a.fields["action"].s) != "finish"
  }

  // ---------------------------------------------------------------------------
  // Text scanning shared by the formats
  // ---------------------------------------------------------------------------

  /** The group of `open(.*?)close` under DOTALL: the text between the first
      `open` and the first `close` after it. */
  function Between(s: string, open: string, close: string): (r: Option<string>)
    ensures !Contains(s, open) ==> r.None?
    ensures r.Some? && close != [] ==> !Contains(r.value, close)
  {
    match Find(s, open)
    case None => None
    case Some(i) =>
      match FindFrom(s, close, i + |open|)
      case None => None
      case Some(j) =>
        var g := s[i + |open|..j];
        assert close != [] ==> !Contains(g, close) by {
          if Contains(g, close) {
            var k :| 0 <= k <= |g| && OccursAt(g, close, k);
            OccursInSlice(s, i + |open|, j, close, k);
          }
        }
        Some(g)
  }

  /** A reply written as `open + g + close + rest`, where `g` cannot hold the
      start of `close`, yields `g`. */
  lemma BetweenWrapped(open: string, g: string, close: string, rest: string)
    requires close != [] && close[0] !in g
    ensures Between(open + g + close + rest, open, close) == Some(g)
  {
    var s := open + g + close + rest;
    assert Find(s, open) == Some(0) by {
      assert OccursAt(s, open, 0);
    }
    GroupAfter(open, g, close, rest);
    BetweenAt(s, open, close, 0, g);
  }

  /** `GroupEnd` for a text written as `p + g + close + rest`. */
  lemma GroupAfter(p: string, g: string, close: string, rest: string)
    requires close != [] && close[0] !in g
    ensures (p + g + close + rest)[|p|..|p| + |g|] == g
    ensures FindFrom(p + g + close + rest, close, |p|) == Some(|p| + |g|)
  {
    var s := p + g + close + rest;
    assert s[|p|..|p| + |g| + |close|] == g + close;
    GroupEnd(s, close, |p|, g);
  }

  /** The scan for `close` from `k` stops right after `g` when `g` lacks the
      first character of `close` and `close` follows it. */
  lemma GroupEnd(s: string, close: string, k: nat, g: string)
    requires close != [] && close[0] !in g && k + |g| + |close| <= |s|
    requires s[k..k + |g| + |close|] == g + close
    ensures s[k..k + |g|] == g
    ensures FindFrom(s, close, k) == Some(k + |g|)
  {
    assert s[k..k + |g|] == (g + close)[..|g|];
    SkipRegion(s, close, k, g);
    assert s[k + |g|..k + |g| + |close|] == (g + close)[|g|..];
  }

  /** `Between` read off the positions of its two tags. */
  lemma BetweenAt(s: string, open: string, close: string, i: nat, g: string)
    requires Find(s, open) == Some(i) && i + |open| + |g| <= |s| && s[i + |open|..i + |open| + |g|] == g
    requires FindFrom(s, close, i + |open|) == Some(i + |open| + |g|)
    ensures Between(s, open, close) == Some(g)
  {
  }

  /** No occurrence of `sub` starts inside `a + t + b` when the tags `a` and
      `b` differ from `sub` at `da` and `db`, and the first character of
      `sub` appears nowhere else in them or in `t`. */
  lemma NoStartInTagged(a: string, t: string, b: string, w: string, sub: string, da: nat, db: nat)
    requires da < |a| && da < |sub| && a[da] != sub[da]
    requires db < |b| && db < |sub| && b[db] != sub[db]
    requires sub[0] !in a[1..] && sub[0] !in t && sub[0] !in b[1..]
    ensures forall j :: 0 <= j < |a + t + b| ==> !OccursAt(a + t + b + w, sub, j)
  {
    var s := a + t + b + w;
    forall j | 0 <= j < |a + t + b|
      ensures !OccursAt(s, sub, j)
    {
      if j == 0 {
        assert s[da] == a[da];
        NotAt(s, sub, 0, da);
      } else if j < |a| {
        assert s[j] == a[1..][j - 1];
        NoOccurrenceAt(s, sub, j);
      } else if j < |a| + |t| {
        assert s[j] == t[j - |a|];
        NoOccurrenceAt(s, sub, j);
      } else if j == |a| + |t| {
        assert s[j + db] == b[db];
        NotAt(s, sub, j, db);
      } else {
        assert s[j] == b[1..][j - |a| - |t| - 1];
        NoOccurrenceAt(s, sub, j);
      }
    }
  }

  /** `re.sub(r'//[^\n]*', '', s)`: every `//` comment up to the end of its
      line is dropped, the line break itself is kept. */
  function RemoveComments(s: string): (r: string)
    ensures |r| <= |s|
    ensures '/' !in s ==> r == s
    decreases |s|
  {
    if s == [] then []
    else if StartsWith(s, "//") then RemoveComments(LineEnd(s))
    else [s[0]] + RemoveComments(s[1..])
  }

  /** The suffix of `s` from its first line break on (empty without one). */
  function LineEnd(s: string): (r: string)
    ensures |r| <= |s| && (s != [] && s[0] != '\n' ==> |r| < |s|)
    ensures r == [] || r[0] == '\n'
    ensures '/' !in s ==> '/' !in r
  {
    if s == [] || s[0] == '\n' then s else LineEnd(s[1..])
  }

  /** No `//` survives comment removal. */
  lemma {:induction false} NoCommentLeft(s: string)
    ensures !Contains(RemoveComments(s), "//")
    decreases |s|
  {
    if s == [] {
    } else if StartsWith(s, "//") {
      NoCommentLeft(LineEnd(s));
    } else {
      NoCommentLeft(s[1..]);
      var rest := RemoveComments(s[1..]);
      var r := [s[0]] + rest;
      forall k | 0 < k <= |r| ensures !OccursAt(r, "//", k) {
        OccursAfterHead(s[0], rest, "//", k);
      }
      if s[0] == '/' && rest != [] {
        RemoveCommentsHead(s[1..]);
        assert rest[0] != '/';
      }
      assert !OccursAt(r, "//", 0);
    }
  }

  /** An occurrence past the first character is one in the tail. */
  lemma OccursAfterHead(c: char, t: string, sub: string, k: int)
    requires 0 < k
    ensures OccursAt([c] + t, sub, k) <==> OccursAt(t, sub, k - 1)
  {
    if k + |sub| <= |t| + 1 {
      assert ([c] + t)[k..k + |sub|] == t[k - 1..k - 1 + |sub|];
    }
  }

  /** Comment removal begins with a kept character or a line break. */
  lemma RemoveCommentsHead(t: string)
    ensures var r := RemoveComments(t);
      r != [] ==> r[0] == '\n' || (t != [] && !StartsWith(t, "//") && r[0] == t[0])
  {
    if t != [] && StartsWith(t, "//") {
      var l := LineEnd(t);
      if l != [] {
        assert !StartsWith(l, "//");
      }
    }
  }

  /** Stripping a text without `sub` leaves none. */
  lemma StripLacks(s: string, sub: string)
    requires !Contains(s, sub)
    ensures !Contains(Strip(s), sub)
  {
    var i, j := StripBounds(s);
    SliceLacks(s, i, j, sub);
  }

  /** `strip()` after comment removal, as the GLM formats clean an action. */
  function Uncomment(s: string): (r: string)
    ensures !Contains(r, "//") && Trimmed(r)
  {
    NoCommentLeft(s);
    StripLacks(RemoveComments(s), "//");
    Strip(RemoveComments(s))
  }

  // ---------------------------------------------------------------------------
  // Format 1: <thinking>…</thinking><tool_call>{JSON}</tool_call>  (lines 89-210)
  // ---------------------------------------------------------------------------

  /** The reasoning: between the thinking tags, or, with the closing tag
      missing, from `<thinking>` up to `<tool_call>` (or the first `{`). */
  function XmlThinking(content: string): (r: string)
    requires Contains(content, "<thinking>")
    ensures Trimmed(r)
  {
    match Between(content, "<thinking>", "</thinking>")
    case Some(g) => Strip(g)
    case None =>
      var start := Find(content, "<thinking>").value + 10;
      var end := if Contains(content, "<tool_call>") then Find(content, "<tool_call>") else FindFrom(content, "{", start);
      if end.Some? && end.value > start then Strip(content[start..end.value]) else ""
  }

  /** The JSON text: inside the tool-call tags, after `<tool_call>` when the
      closing tag is missing, after `</thinking>` or from the first `{` when
      there is no tool-call tag at all. */
  function XmlPayload(content: string): (r: Option<string>)
    ensures r.None? <==> !Contains(content, "<tool_call>") && !Contains(content, "</thinking>") && !Contains(content, "{")
    ensures r.Some? ==> Trimmed(r.value)
  {
    if !Contains(content, "<tool_call>") then
      match Find(content, "</thinking>")
      case Some(i) => Some(Strip(content[i + 11..]))
      case None =>
        match Find(content, "{")
        case Some(j) => Some(Strip(content[j..]))
        case None => None
    else
      match Between(content, "<tool_call>", "</tool_call>")
      case Some(g) => Some(Strip(g))
      case None => Some(Strip(content[Find(content, "<tool_call>").value + 11..]))
  }

  /** `finish` → `done` on a string action name; None where `.lower()` would
      raise because the name is not a string. */
  function RenameFinish(fields: map<string, Json>): (r: Option<map<string, Json>>)
    requires "action" in fields
    ensures r.Some? <==> fields["action"].JStr?
    ensures r.Some? ==> WellNamed(Dict(r.value))
    ensures r.Some? ==> r.value.Keys == fields.Keys
    ensures r.Some? ==> forall k :: k in fields && k != "action" ==> r.value[k] == fields[k]
    ensures r.Some? && Lower(fields["action"].s) != "finish" ==> r.value == fields
  {
    var name := fields["action"];
    if !name.JStr? then None
    else if Lower(name.s) == "finish" then
      assert |Lower("done")| == 4;
      Some(fields["action" := JStr("done")])
    else Some(fields)
  }

  /** What a decoded payload becomes (lines 164-180): a dictionary with an
      `action`, whose name is checked for parentheses and renamed. */
  function XmlDecoded(thinking: string, payload: string, data: Json): (r: Option<Parsed>)
    ensures r.Some? ==> r.value.thinking == thinking && WellNamed(r.value.action)
    ensures r.Some? && r.value.action.Text? ==> r.value.action.s == payload
    ensures !data.JObj? || "action" !in data.fields ==> r.None?
  {
    if !data.JObj? || "action" !in data.fields then None
    else
      var name := data.fields["action"];
      match Has(name, "(")
      case None => None
      case Some(true) => Some(Parsed(thinking, Text(payload)))
      case Some(false) =>
        match Has(name, ")")
        case None => None
        case Some(true) => Some(Parsed(thinking, Text(payload)))
        case Some(false) =>
          match RenameFinish(data.fields)
          case Some(m) => Some(Parsed(thinking, Dict(m)))
          case None => None
  }

  /** The repairs after a decoding failure (lines 182-206): close a missing
      brace, else keep an old-style `do(` command as text. The payload is
      already stripped, so stripping it again there changes nothing
      (`StripTrimmed`). */
  function XmlRepair(o: Oracles, thinking: string, payload: string): (r: Option<Parsed>)
    requires Trimmed(payload)
    ensures r.Some? ==> r.value.thinking == thinking && WellNamed(r.value.action)
    ensures r.Some? && r.value.action.Text? ==> r.value.action.s == payload && StartsWith(payload, "do(")
  {
    var repaired := if StartsWith(payload, "{") && !EndsWith(payload, "}") then o.loads(payload + "\n}") else None;
    if repaired.Some? && repaired.value.JObj? && "action" in repaired.value.fields then
      match RenameFinish(repaired.value.fields)
      case Some(m) => Some(Parsed(thinking, Dict(m)))
      case None => None
    else if StartsWith(payload, "do(") then Some(Parsed(thinking, Text(payload)))
    else None
  }

  /** `_parse_xml_json_format`. */
  function XmlJson(o: Oracles, content: string): (r: Option<Parsed>)
    ensures !Contains(content, "<thinking>") ==> r.None?
    ensures r.Some? ==> WellNamed(r.value.action) && !r.value.action.NoAction?
  {
    if !Contains(content, "<thinking>") then None
    else
      var payload := XmlPayload(content);
      if payload.None? then None else XmlParsePayload(o, XmlThinking(content), payload.value)
  }

  /** Decoding the payload, with the repairs where it does not decode. */
  function XmlParsePayload(o: Oracles, thinking: string, payload: string): (r: Option<Parsed>)
    requires Trimmed(payload)
    ensures r.Some? ==> WellNamed(r.value.action) && !r.value.action.NoAction?
  {
    match o.loads(payload)
    case Some(data) => XmlDecoded(thinking, payload, data)
    case None => XmlRepair(o, thinking, payload)
  }

  /** An action name holding a parenthesis is passed on as the raw payload. */
  lemma ParenthesisKeepsRaw(thinking: string, payload: string, m: map<string, Json>)
    requires "action" in m && m["action"].JStr? && (Contains(m["action"].s, "(") || Contains(m["action"].s, ")"))
    ensures XmlDecoded(thinking, payload, JObj(m)) == Some(Parsed(thinking, Text(payload)))
  {
  }

  /** A payload cut off before its closing brace is read with the brace
      added, and its action name is renamed but not checked for parentheses. */
  lemma MissingBraceRepaired(o: Oracles, thinking: string, payload: string, m: map<string, Json>)
    requires Trimmed(payload) && StartsWith(payload, "{") && !EndsWith(payload, "}")
    requires o.loads(payload + "\n}") == Some(JObj(m)) && "action" in m && m["action"].JStr?
    ensures XmlRepair(o, thinking, payload) == Some(Parsed(thinking, Dict(RenameFinish(m).value)))
  {
  }

  /** The tagged reply the Vision Kernel asks for. */
  function XmlReply(thinking: string, payload: string): (r: string)
    ensures StartsWith(r, "<thinking>")
  {
    "<thinking>" + thinking + "</thinking>" + "<tool_call>" + payload + "</tool_call>"
  }

  /** A well-formed tagged reply gives back its reasoning and its decoded
      action, with `finish` renamed. */
  lemma XmlReplyParsed(o: Oracles, thinking: string, payload: string, m: map<string, Json>)
    requires '<' !in thinking && '<' !in payload
    requires o.loads(Strip(payload)) == Some(JObj(m)) && "action" in m && m["action"].JStr?
    requires !Contains(m["action"].s, "(") && !Contains(m["action"].s, ")")
    ensures XmlJson(o, XmlReply(thinking, payload)) == Some(Parsed(Strip(thinking), Dict(RenameFinish(m).value)))
  {
    var c := XmlReply(thinking, payload);
    ThinkingGroup(thinking, payload);
    ToolCallGroup(thinking, payload);
    ToolCallAfterThinking(thinking, payload);
    XmlJsonOfGroups(o, c, thinking, payload, JObj(m));
    PlainNameDecoded(Strip(thinking), Strip(payload), m);
  }

  /** A reply with both tag pairs is decoded from its two groups. */
  lemma XmlJsonOfGroups(o: Oracles, c: string, thinking: string, payload: string, data: Json)
    requires StartsWith(c, "<thinking>") && Contains(c, "<tool_call>")
    requires Between(c, "<thinking>", "</thinking>") == Some(thinking)
    requires Between(c, "<tool_call>", "</tool_call>") == Some(payload)
    requires o.loads(Strip(payload)) == Some(data)
    ensures XmlJson(o, c) == XmlDecoded(Strip(thinking), Strip(payload), data)
  {
    assert OccursAt(c, "<thinking>", 0);
  }

  /** A string action name without parentheses is kept, apart from the
      `finish` rename. */
  lemma PlainNameDecoded(thinking: string, payload: string, m: map<string, Json>)
    requires "action" in m && m["action"].JStr?
    requires !Contains(m["action"].s, "(") && !Contains(m["action"].s, ")")
    ensures XmlDecoded(thinking, payload, JObj(m)) == Some(Parsed(thinking, Dict(RenameFinish(m).value)))
  {
  }

  /** The reasoning group of a tagged reply. */
  lemma ThinkingGroup(thinking: string, payload: string)
    requires '<' !in thinking
    ensures Between(XmlReply(thinking, payload), "<thinking>", "</thinking>") == Some(thinking)
  {
    var rest := "<tool_call>" + payload + "</tool_call>";
    assert XmlReply(thinking, payload) == "<thinking>" + thinking + "</thinking>" + rest;
    BetweenWrapped("<thinking>", thinking, "</thinking>", rest);
  }

  /** The first `<tool_call>` of a tagged reply follows the reasoning. */
  lemma ToolCallAfterThinking(thinking: string, payload: string)
    requires '<' !in thinking
    ensures Find(XmlReply(thinking, payload), "<tool_call>") == Some(|thinking| + 21)
  {
    var a, b, sub := "<thinking>", "</thinking>", "<tool_call>";
    var w := payload + "</tool_call>";
    assert a[2] != sub[2] && b[1] != sub[1];
    assert '<' !in a[1..] && '<' !in b[1..];
    NoStartInTagged(a, thinking, b, w, sub, 2, 1);
    FindAfterPrefix(a + thinking + b, sub, w);
    assert XmlReply(thinking, payload) == a + thinking + b + sub + w;
  }

  /** The tool-call group of a tagged reply. */
  lemma ToolCallGroup(thinking: string, payload: string)
    requires '<' !in thinking && '<' !in payload
    ensures Between(XmlReply(thinking, payload), "<tool_call>", "</tool_call>") == Some(payload)
  {
    var head := "<thinking>" + thinking + "</thinking>";
    ToolCallAfterThinking(thinking, payload);
    var c := XmlReply(thinking, payload);
    assert c == head + "<tool_call>" + payload + "</tool_call>" + [];
    assert |head| == |thinking| + 21;
    SkipToGroup(head, "<tool_call>", payload, "</tool_call>", []);
  }

  /** Where the first `open` of `head + open + g + close + rest` follows
      `head` and `g` lacks the first character of `close`, the group is `g`. */
  lemma SkipToGroup(head: string, open: string, g: string, close: string, rest: string)
    requires close != [] && close[0] !in g
    requires Find(head + open + g + close + rest, open) == Some(|head|)
    ensures Between(head + open + g + close + rest, open, close) == Some(g)
  {
    var s := head + open + g + close + rest;
    GroupAfter(head + open, g, close, rest);
    assert s == (head + open) + g + close + rest;
    BetweenAt(s, open, close, |head|, g);
  }

  // ---------------------------------------------------------------------------
  // Format 2: <think>…</think><answer>…</answer>  (lines 212-226)
  // ---------------------------------------------------------------------------

  /** `_parse_autoglm_format`: split at the first `<answer>`, drop the tags. */
  function AutoGlm(content: string): (r: Option<Parsed>)
    ensures r.None? <==> !Contains(content, "<answer>")
    ensures r.Some? ==> r.value.action.Text? && Trimmed(r.value.thinking) && Trimmed(r.value.action.s)
  {
    match Find(content, "<answer>")
    case None => None
    case Some(i) => Some(AutoGlmSides(content[..i], content[i + 8..]))
  }

  /** The reasoning before the first `<answer>` without its think tags, and
      the command after it without its closing tag, both stripped. */
  function AutoGlmSides(before: string, after: string): (r: Parsed)
    ensures r.action.Text? && Trimmed(r.thinking) && Trimmed(r.action.s)
  {
    var thinking := ReplaceAll(ReplaceAll(before, "<think>", ""), "</think>", "");
    var action := ReplaceAll(after, "</answer>", "");
    Parsed(Strip(thinking), Text(Strip(action)))
  }

  /** The reply AutoGLM is trained to give. */
  function AutoGlmReply(thinking: string, action: string): (r: string)
    ensures StartsWith(r, "<think>")
  {
    "<think>" + thinking + "</think>" + "<answer>" + action + "</answer>"
  }

  /** A well-formed AutoGLM reply gives back its reasoning and its command. */
  lemma AutoGlmReplyParsed(thinking: string, action: string)
    requires '<' !in thinking && '<' !in action
    ensures AutoGlm(AutoGlmReply(thinking, action)) == Some(Parsed(Strip(thinking), Text(Strip(action))))
  {
    var c := AutoGlmReply(thinking, action);
    AnswerAfterThinking(thinking, action);
    AutoGlmReplyParts(thinking, action);
    AutoGlmAt(c, |thinking| + 15, "<think>" + thinking + "</think>", action + "</answer>");
    AutoGlmSidesOfReply(thinking, action);
  }

  /** The two sides of the first `<answer>` of an AutoGLM reply. */
  lemma AutoGlmReplyParts(thinking: string, action: string)
    ensures var c, n := AutoGlmReply(thinking, action), |thinking|;
      c[..15 + n] == "<think>" + thinking + "</think>" && c[23 + n..] == action + "</answer>"
  {
  }

  /** `AutoGlm` in terms of the text before and after its first `<answer>`. */
  lemma AutoGlmAt(content: string, i: nat, before: string, after: string)
    requires Find(content, "<answer>") == Some(i)
    requires content[..i] == before && content[i + 8..] == after
    ensures AutoGlm(content) == Some(AutoGlmSides(before, after))
  {
  }

  /** The tags around tag-free reasoning and command come off. */
  lemma AutoGlmSidesOfReply(thinking: string, action: string)
    requires '<' !in thinking && '<' !in action
    ensures AutoGlmSides("<think>" + thinking + "</think>", action + "</answer>")
         == Parsed(Strip(thinking), Text(Strip(action)))
  {
    OpenThinkRemoved(thinking);
    CloseTagRemoved(thinking, "</think>");
    CloseTagRemoved(action, "</answer>");
  }

  /** The first `<answer>` of an AutoGLM reply follows the reasoning. */
  lemma AnswerAfterThinking(thinking: string, action: string)
    requires '<' !in thinking
    ensures Find(AutoGlmReply(thinking, action), "<answer>") == Some(|thinking| + 15)
  {
    var a, b, sub := "<think>", "</think>", "<answer>";
    var w := action + "</answer>";
    assert a[1] != sub[1] && b[1] != sub[1];
    assert '<' !in a[1..] && '<' !in b[1..];
    NoStartInTagged(a, thinking, b, w, sub, 1, 1);
    FindAfterPrefix(a + thinking + b, sub, w);
    assert AutoGlmReply(thinking, action) == a + thinking + b + sub + w;
  }

  /** Removing `<think>` from `<think>t</think>` with a tag-free `t`. */
  lemma OpenThinkRemoved(t: string)
    requires '<' !in t
    ensures ReplaceAll("<think>" + t + "</think>", "<think>", "") == t + "</think>"
  {
    var s := "<think>" + t + "</think>";
    assert s[..7] == "<think>";
    ReplaceAtStart(s, "<think>", "");
    assert s[7..] == t + "</think>";
    ReplaceSkipsPlain(t, "</think>", "<think>", "");
    CloseThinkKept();
  }

  /** `</think>` does not contain `<think>`. */
  lemma CloseThinkKept()
    ensures ReplaceAll("</think>", "<think>", "") == "</think>"
  {
    var tail := "</think>";
    assert tail[1] == '/';
    NotAt(tail, "<think>", 0, 1);
    MissingCharNotContained(tail[1..], "<think>", '<');
    ReplaceStep(tail, "<think>", "");
    assert [tail[0]] + tail[1..] == tail;
  }

  /** Removing a closing tag after a tag-free text leaves the text. */
  lemma CloseTagRemoved(a: string, tag: string)
    requires |tag| > 0 && tag[0] == '<' && '<' !in a
    ensures ReplaceAll(a + tag, tag, "") == a
  {
    ReplaceSkipsPlain(a, tag, tag, "");
    assert tag[..|tag|] == tag;
    ReplaceAtStart(tag, tag, "");
    assert tag[|tag|..] == [];
    assert a + [] == a;
  }

  // ---------------------------------------------------------------------------
  // Format 3: {"think": …, "action": …}  (lines 228-264)
  // ---------------------------------------------------------------------------

  /** `_parse_json_format`. */
  function JsonFormat(o: Oracles, content: string): (r: Option<Parsed>)
    ensures !StartsWith(Strip(content), "{") || !Contains(content, "\"think\"") || !Contains(content, "\"action\"") ==> r.None?
    ensures r.Some? ==> !r.value.action.NoAction?
  {
    var body := Strip(content);
    if !(StartsWith(body, "{") && Contains(content, "\"think\"") && Contains(content, "\"action\"")) then None
    else
      match o.loads(body)
      case Some(data) => JsonDecoded(o, data)
      case None =>
        var t, a := o.jsonThink(content), o.jsonAction(content);
        if t.Some? && a.Some? then Some(Parsed(Strip(t.value), Text(Strip(a.value)))) else None
  }

  /** A decoded object with `think` and `action`: an object action stays a
      dictionary, anything else becomes its `str()`. */
  function JsonDecoded(o: Oracles, data: Json): (r: Option<Parsed>)
    ensures r.Some? <==> data.JObj? && "think" in data.fields && "action" in data.fields
    ensures r.Some? ==> !r.value.action.NoAction?
  {
    if data.JObj? && "think" in data.fields && "action" in data.fields then
      var action := data.fields["action"];
      Some(Parsed(Str(o, data.fields["think"]), if action.JObj? then Dict(action.fields) else Text(Str(o, action))))
    else None
  }

  /** A decoded reply with string fields hands both back unchanged. */
  lemma JsonFormatText(o: Oracles, content: string, m: map<string, Json>)
    requires StartsWith(Strip(content), "{") && Contains(content, "\"think\"") && Contains(content, "\"action\"")
    requires o.loads(Strip(content)) == Some(JObj(m)) && "think" in m && "action" in m
    requires m["think"].JStr? && m["action"].JStr?
    ensures JsonFormat(o, content) == Some(Parsed(m["think"].s, Text(m["action"].s)))
  {
    JsonFormatDecoded(o, content, JObj(m));
    JsonDecodedText(o, m);
  }

  lemma JsonDecodedText(o: Oracles, m: map<string, Json>)
    requires "think" in m && "action" in m && m["think"].JStr? && m["action"].JStr?
    ensures JsonDecoded(o, JObj(m)) == Some(Parsed(m["think"].s, Text(m["action"].s)))
  {
    assert Str(o, m["action"]) == m["action"].s;
  }

  /** An object action is handed back as a dictionary. */
  lemma JsonFormatDict(o: Oracles, content: string, m: map<string, Json>)
    requires StartsWith(Strip(content), "{") && Contains(content, "\"think\"") && Contains(content, "\"action\"")
    requires o.loads(Strip(content)) == Some(JObj(m)) && "think" in m && "action" in m
    requires m["think"].JStr? && m["action"].JObj?
    ensures JsonFormat(o, content) == Some(Parsed(m["think"].s, Dict(m["action"].fields)))
  {
    JsonFormatDecoded(o, content, JObj(m));
  }

  lemma JsonFormatDecoded(o: Oracles, content: string, d: Json)
    requires StartsWith(Strip(content), "{") && Contains(content, "\"think\"") && Contains(content, "\"action\"")
    requires o.loads(Strip(content)) == Some(d)
    ensures JsonFormat(o, content) == JsonDecoded(o, d)
  {
  }

  // ---------------------------------------------------------------------------
  // Format 4: {think}…{action}…  (lines 266-290)
  // ---------------------------------------------------------------------------

  /** One past the `)` of a call `do(…)` or `finish(…)` starting at `i`, as
      `(?:do|finish)\([^)]+\)` matches it; None where no call starts there. */
  function CallEnd(s: string, i: nat): (r: Option<nat>)
    requires i <= |s|
    ensures r.Some? ==> i < r.value <= |s| && s[r.value - 1] == ')'
    ensures r.Some? ==> StartsWith(s[i..], "do(") || StartsWith(s[i..], "finish(")
  {
    var open := if StartsWith(s[i..], "do(") then Some(i + 3) else if StartsWith(s[i..], "finish(") then Some(i + 7) else None;
    match open
    case None => None
    case Some(j) =>
      match FindFrom(s, ")", j)
      case Some(k) => if k > j then Some(k + 1) else None
      case None => None
  }

  /** The leftmost call at or after `i` (`re.search`). */
  function FirstCall(s: string, i: nat): (r: Option<string>)
    requires i <= |s|
    ensures r.Some? ==> (StartsWith(r.value, "do(") || StartsWith(r.value, "finish(")) && EndsWith(r.value, ")")
    decreases |s| - i
  {
    match CallEnd(s, i)
    case Some(e) =>
      assert StartsWith(s[i..], "do(") ==> s[i..e][..3] == s[i..][..3] by {
        if StartsWith(s[i..], "do(") {
          assert 3 < e - i;
        }
      }
      assert StartsWith(s[i..], "finish(") ==> s[i..e][..7] == s[i..][..7] by {
        if StartsWith(s[i..], "finish(") {
          assert 7 < e - i;
        }
      }
      Some(s[i..e])
    case None => if i == |s| then None else FirstCall(s, i + 1)
  }

  /** The text between the first `{action}` and the next one (or the end):
      `content.split("{action}")[1]`. */
  function ActionSection(content: string): (r: string)
    requires Contains(content, "{action}")
  {
    var rest := content[Find(content, "{action}").value + 8..];
    match Find(rest, "{action}")
    case Some(j) => rest[..j]
    case None => rest
  }

  /** `s.split('\n')[0]`. */
  function FirstLine(s: string): (r: string)
    ensures '\n' !in r
  {
    Split(s, '\n')[0]
  }

  /** `_parse_glm_thinking_format`. */
  function GlmThinking(content: string): (r: Option<Parsed>)
    ensures !Contains(content, "{think}") || !Contains(content, "{action}") ==> r.None?
    ensures r.Some? ==> r.value.action.Text? && !Contains(r.value.action.s, "//") && Trimmed(r.value.action.s)
  {
    if !Contains(content, "{think}") || !Contains(content, "{action}") then None
    else
      match Between(content, "{think}", "{action}")
      case None => None
      case Some(g) =>
        var section := ActionSection(content);
        var picked := match FirstCall(section, 0)
          case Some(call) => Strip(call)
          case None => Strip(FirstLine(section));
        Some(Parsed(Strip(g), Text(Uncomment(picked))))
  }

  /** The reply GLM-Thinking gives. */
  function GlmThinkingReply(thinking: string, call: string): (r: string)
    ensures StartsWith(r, "{think}")
  {
    "{think}" + thinking + "{action}" + call
  }

  /** A GLM-Thinking reply whose action is one `do(…)` command gives that
      command back. */
  lemma GlmThinkingReplyParsed(thinking: string, args: string)
    requires '{' !in thinking && args != [] && ')' !in args && '{' !in args && '/' !in args
    ensures GlmThinking(GlmThinkingReply(thinking, "do(" + args + ")")) == Some(Parsed(Strip(thinking), Text("do(" + args + ")")))
  {
    var call := "do(" + args + ")";
    var c := GlmThinkingReply(thinking, call);
    assert OccursAt(c, "{think}", 0);
    BetweenWrapped("{think}", thinking, "{action}", call);
    GlmActionSection(thinking, call);
    CallParsed(args);
    GlmThinkingOfParts(c, thinking, call, call);
    CallClean(args);
  }

  /** Cleaning a comment-free command changes nothing. */
  lemma CallClean(args: string)
    requires '/' !in args
    ensures Uncomment(Strip("do(" + args + ")")) == "do(" + args + ")"
  {
    var call := "do(" + args + ")";
    assert '/' !in call;
    assert RemoveComments(call) == call;
    assert call[0] == 'd' && call[|call| - 1] == ')';
    StripTrimmed(call);
  }

  /** The action section of a GLM-Thinking reply is what follows `{action}`. */
  lemma GlmActionSection(thinking: string, call: string)
    requires '{' !in thinking && '{' !in call
    ensures Contains(GlmThinkingReply(thinking, call), "{action}")
    ensures ActionSection(GlmThinkingReply(thinking, call)) == call
  {
    var a, sub := "{think}", "{action}";
    var c := GlmThinkingReply(thinking, call);
    var head := a + thinking;
    forall j | 0 <= j < |head|
      ensures !OccursAt(head + sub + call, sub, j)
    {
      if j == 0 {
        NotAt(head + sub + call, sub, 0, 1);
      } else if j < 7 {
        assert (head + sub + call)[j] == a[j];
        NoOccurrenceAt(head + sub + call, sub, j);
      } else {
        assert (head + sub + call)[j] == thinking[j - 7];
        NoOccurrenceAt(head + sub + call, sub, j);
      }
    }
    FindAfterPrefix(head, sub, call);
    assert c == head + sub + call;
    assert c[|head| + 8..] == call;
    MissingCharNotContained(call, sub, '{');
  }

  /** A lone `do(…)` command is found whole. */
  lemma CallParsed(args: string)
    requires args != [] && ')' !in args
    ensures FirstCall("do(" + args + ")", 0) == Some("do(" + args + ")")
  {
    var call := "do(" + args + ")";
    assert call[0..] == call && call[..3] == "do(";
    assert call[3..3 + |args|] == args;
    SkipRegion(call, ")", 3, args);
    assert call[3 + |args|..3 + |args| + 1] == ")";
    assert CallEnd(call, 0) == Some(|call|);
    assert call[0..|call|] == call;
  }

  /** A GLM-Thinking reply is read from its think group and the first call
      of its action section. */
  lemma GlmThinkingOfParts(c: string, g: string, section: string, call: string)
    requires Contains(c, "{think}") && Contains(c, "{action}")
    requires Between(c, "{think}", "{action}") == Some(g)
    requires ActionSection(c) == section && FirstCall(section, 0) == Some(call)
    ensures GlmThinking(c) == Some(Parsed(Strip(g), Text(Uncomment(Strip(call)))))
  {
  }

  // ---------------------------------------------------------------------------
  // Format 5: {think>…}<|begin_of_box|>…<|end_of_box|>  (lines 292-324)
  // ---------------------------------------------------------------------------

  /** The group of `\{think[>]?(.*?)\}`, stripped; empty without a match. */
  function BoxThinking(content: string): (r: string)
    ensures Trimmed(r)
  {
    match Find(content, "{think")
    case None => ""
    case Some(p) =>
      var q := p + 6;
      var start := if q < |content| && content[q] == '>' then q + 1 else q;
      match FindFrom(content, "}", start)
      case Some(e) => Strip(content[start..e])
      case None => ""
  }

  /** Where the lazy group of `\{action\}(.*?)(?:\n//|$)` ends when it starts
      at `m`: before a `\n//`, at the end, or before a final line break. */
  function LazyEnd(s: string, m: nat): (r: nat)
    requires m <= |s|
    ensures m <= r <= |s|
    decreases |s| - m
  {
    if m == |s| || StartsWith(s[m..], "\n//") || (m == |s| - 1 && s[m] == '\n') then m
    else LazyEnd(s, m + 1)
  }

  /** The action: inside the box markers (without a leading `{action}` and
      without comments), else after `{action}`, else after the think braces. */
  function BoxAction(content: string): (r: string)
    ensures Trimmed(r)
  {
    match Between(content, "<|begin_of_box|>", "<|end_of_box|>")
    case Some(g) =>
      var a := Strip(g);
      var b := if StartsWith(a, "{action}") then a[8..] else a;
      Uncomment(Strip(b))
    case None =>
      match Find(content, "{action}")
      case Some(p) => Strip(content[p + 8..LazyEnd(content, p + 8)])
      case None =>
        match Find(content, "{think")
        case None => Uncomment("")
        case Some(p) =>
          match FindFrom(content, "}", p + 6)
          case Some(e) => Uncomment(Strip(content[e + 1..]))
          case None => Uncomment("")
  }

  /** The format guard: a `{think>` or `{think}` marker. */
  predicate BoxMarked(content: string) {
    Contains(content, "{think>") || Contains(content, "{think}")
  }

  /** `_parse_glm_box_format` as written: `return thinking, action if action
      else None` builds the pair in every case, so a reply with no action is
      reported as recognised with a `None` action. */
  function GlmBoxAsWritten(content: string): (r: Option<Parsed>)
    ensures r.Some? <==> BoxMarked(content)
  {
    if !BoxMarked(content) then None
    else
      var action := BoxAction(content);
      Some(Parsed(BoxThinking(content), if action == [] then NoAction else Text(action)))
  }

  /** `_parse_glm_box_format` returning None when it finds no action, so that
      the fallback is tried. */
  function GlmBox(content: string): (r: Option<Parsed>)
    ensures r.Some? <==> BoxMarked(content) && BoxAction(content) != []
    ensures r.Some? ==> r.value.action.Text? && r.value.action.s != [] && Trimmed(r.value.action.s)
    ensures r.Some? ==> GlmBoxAsWritten(content) == r
  {
    if !BoxMarked(content) then None
    else
      var action := BoxAction(content);
      if action == [] then None else Some(Parsed(BoxThinking(content), Text(action)))
  }

  // ---------------------------------------------------------------------------
  // Format 6: the last `do(…)` / `finish(…)` anywhere  (lines 326-357)
  // ---------------------------------------------------------------------------

  /** The last `n` characters when there are more (`s[-n:]`). */
  function KeepLast(s: string, n: nat): (r: string)
    ensures |r| == Min(|s|, n)
    ensures EndsWith(s, r)
  {
    if |s| > n then s[|s| - n..] else s
  }

  /** The reasoning before the command, with the four tags removed. */
  function CleanThinking(before: string): (r: string)
    ensures Trimmed(r)
  {
    Strip(ReplaceAll(ReplaceAll(ReplaceAll(ReplaceAll(before, "<think>", ""), "</think>", ""), "<thinking>", ""), "</thinking>", ""))
  }

  /** `_parse_fallback`: the last command found, the text before its last
      occurrence as the reasoning, cut to 500 characters. */
  function Fallback(o: Oracles, content: string): (r: Option<Parsed>)
    ensures r.None? <==> |o.commands(content)| == 0
    ensures r.Some? ==> |r.value.thinking| <= 500
    ensures r.Some? ==> r.value.action == Text(Strip(o.commands(content)[|o.commands(content)| - 1]))
  {
    var found := o.commands(content);
    if |found| == 0 then None
    else
      var action := Strip(found[|found| - 1]);
      Some(Parsed(Reasoning(content, action), Text(action)))
  }

  /** The text before the last occurrence of `action` (none when that is at
      the start or missing), cleaned and cut to its last 500 characters. */
  function Reasoning(content: string, action: string): (r: string)
    ensures |r| <= 500
  {
    var idx := RFind(content, action);
    var before := if idx.Some? && idx.value > 0 then content[..idx.value] else "";
    KeepLast(CleanThinking(before), 500)
  }

  /** The reasoning is what precedes the last occurrence of the command. */
  lemma FallbackThinking(o: Oracles, pre: string, cmd: string, post: string)
    requires o.commands(pre + cmd + post) == [cmd] && Trimmed(cmd) && pre != []
    requires forall j :: |pre| < j ==> !OccursAt(pre + cmd + post, cmd, j)
    ensures Fallback(o, pre + cmd + post) == Some(Parsed(KeepLast(CleanThinking(pre), 500), Text(cmd)))
  {
    ReasoningBeforeLast(pre, cmd, post);
    StripTrimmed(cmd);
  }

  /** The text before the last occurrence of a command is its reasoning. */
  lemma ReasoningBeforeLast(pre: string, cmd: string, post: string)
    requires pre != []
    requires forall j :: |pre| < j ==> !OccursAt(pre + cmd + post, cmd, j)
    ensures Reasoning(pre + cmd + post, cmd) == KeepLast(CleanThinking(pre), 500)
  {
    var c := pre + cmd + post;
    assert c[|pre|..|pre| + |cmd|] == cmd;
    assert OccursAt(c, cmd, |pre|);
    var r := RFind(c, cmd);
    assert r.Some? && r.value >= |pre|;
    assert r == Some(|pre|);
    assert c[..|pre|] == pre;
  }

  // ---------------------------------------------------------------------------
  // The dispatcher  (lines 31-86)
  // ---------------------------------------------------------------------------

  /** `ResponseParser.parse`: the first format that recognises the reply;
      `("", "")` when none does. */
  function Parse(o: Oracles, content: string): (r: Parsed)
    ensures !r.action.NoAction?
  {
    match XmlJson(o, content)
    case Some(p) => p
    case None =>
      match AutoGlm(content)
      case Some(p) => p
      case None =>
        match JsonFormat(o, content)
        case Some(p) => p
        case None =>
          match GlmThinking(content)
          case Some(p) => p
          case None =>
            match GlmBox(content)
            case Some(p) => p
            case None =>
              match Fallback(o, content)
              case Some(p) => p
              case None => Parsed("", Text(""))
  }

  /** A command written inside the think braces. The box format as written
      claims the reply with no action and hides the command from the
      fallback; with the correction the fallback recovers it. */
  lemma GlmBoxLosesCommand(o: Oracles)
    requires o.commands("{think>do(1)}") == ["do(1)"]
    ensures GlmBoxAsWritten("{think>do(1)}") == Some(Parsed("do(1)", NoAction))
    ensures GlmBox("{think>do(1)}").None?
  {
    BracedCommandBox();
  }

  /** With the correction, the command in the think braces is recovered. */
  lemma BracedCommandRecovered(o: Oracles)
    requires o.commands("{think>do(1)}") == ["do(1)"]
    ensures Parse(o, "{think>do(1)}") == Parsed("{think>", Text("do(1)"))
  {
    BracedCommandBox();
    BracedCommandOtherFormats(o);
    BracedCommandFallback(o);
  }

  /** How the box format reads `{think>do(1)}`. */
  lemma BracedCommandBox()
    ensures BoxMarked("{think>do(1)}")
    ensures BoxThinking("{think>do(1)}") == "do(1)"
    ensures BoxAction("{think>do(1)}") == []
  {
    var c := "{think>do(1)}";
    assert OccursAt(c, "{think>", 0);
    assert Find(c, "{think") == Some(0) by {
      assert OccursAt(c, "{think", 0);
    }
    BracedThinking(c);
    BracedAction(c);
  }

  /** The think group of `{think>do(1)}`. */
  lemma BracedThinking(c: string)
    requires c == "{think>do(1)}" && Find(c, "{think") == Some(0)
    ensures BoxThinking(c) == "do(1)"
  {
    assert c[7..13] == "do(1)" + "}";
    GroupEnd(c, "}", 7, "do(1)");
    assert !IsSpace(c[7]) && !IsSpace(c[11]);
    StripTrimmed(c[7..12]);
  }

  /** `{think>do(1)}` has nothing after its think braces. */
  lemma BracedAction(c: string)
    requires c == "{think>do(1)}" && Find(c, "{think") == Some(0)
    ensures BoxAction(c) == []
  {
    assert c[6..13] == ">do(1)" + "}";
    GroupEnd(c, "}", 6, ">do(1)");
    MissingCharNotContained(c, "<|begin_of_box|>", '<');
    MissingCharNotContained(c, "{action}", 'c');
    assert c[13..] == [];
  }

  /** The formats tried before the box format do not recognise `{think>do(1)}`. */
  lemma BracedCommandOtherFormats(o: Oracles)
    ensures XmlJson(o, "{think>do(1)}").None? && AutoGlm("{think>do(1)}").None?
    ensures JsonFormat(o, "{think>do(1)}").None? && GlmThinking("{think>do(1)}").None?
  {
    var c := "{think>do(1)}";
    assert '<' !in c && '"' !in c && 'c' !in c;
    MissingCharNotContained(c, "<thinking>", '<');
    MissingCharNotContained(c, "<answer>", '<');
    MissingCharNotContained(c, "\"think\"", '"');
    MissingCharNotContained(c, "{action}", 'c');
  }

  /** The fallback finds the command and keeps the text before it. */
  lemma BracedCommandFallback(o: Oracles)
    requires o.commands("{think>do(1)}") == ["do(1)"]
    ensures Fallback(o, "{think>do(1)}") == Some(Parsed("{think>", Text("do(1)")))
  {
    var pre, cmd, post := "{think>", "do(1)", "}";
    var c := pre + cmd + post;
    assert c == "{think>do(1)}";
    forall j | |pre| < j
      ensures !OccursAt(c, cmd, j)
    {
      if j < 13 {
        NoOccurrenceAt(c, cmd, j);
      }
    }
    assert !IsSpace(cmd[0]) && !IsSpace(cmd[4]);
    assert !IsSpace(pre[0]) && !IsSpace(pre[6]);
    CleanPlain(pre);
    FallbackThinking(o, pre, cmd, post);
  }

  /** Cleaning a stripped text without tags changes nothing. */
  lemma CleanPlain(pre: string)
    requires '<' !in pre && Trimmed(pre)
    ensures CleanThinking(pre) == pre
  {
    MissingCharNotContained(pre, "<think>", '<');
    MissingCharNotContained(pre, "</think>", '<');
    MissingCharNotContained(pre, "<thinking>", '<');
    MissingCharNotContained(pre, "</thinking>", '<');
    StripTrimmed(pre);
  }
}
