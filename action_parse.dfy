/** The generic parser from a flat action dictionary `{"action": name, ...}`
    to a typed action: names are matched case-insensitively with aliases,
    and each action's fields get their own defaults. */
module ActionParse {
  import opened Util
  import opened StandardActions

  /** The first white-space separated token of `s` (`s.split()[0]`), if any. */
  function FirstToken(s: string): (r: Option<string>)
    ensures r == (if Words(s) == [] then None else Some(Words(s)[0]))
    ensures r.Some? ==> r.value != [] && forall i :: 0 <= i < |r.value| ==> !IsSpace(r.value[i])
  {
    var t := TrimStart(s);
    if t == [] then None else Some(t[..TokenEnd(t, 0)])
  }

  /** The wait length: `duration`, else `seconds`, else 1.0.  A string is read
      from its first token, falling back to 1.0; other values go through
      `float()`, which rejects anything but a number. */
  function WaitSeconds(d: Params): (r: Result<real>)
    ensures var v := if "duration" in d then Some(d["duration"]) else if "seconds" in d then Some(d["seconds"]) else None;
            (v.None? ==> r == Ok(1.0))
            && (v.Some? && v.value.JStr? ==>
                  r.Ok? && (match FirstToken(v.value.s)
                            case None => r.value == 1.0
                            case Some(t) => r.value == DecimalValue(t).GetOr(1.0)))
            && (v.Some? && v.value.JInt? ==> r == Ok(v.value.i as real))
            && (v.Some? && (v.value.JNull? || v.value.JArr? || v.value.JObj?) ==> r.Err?)
  {
    var v := if "duration" in d then Some(d["duration"]) else if "seconds" in d then Some(d["seconds"]) else None;
    if v.None? then Ok(1.0)
    else if v.value.JStr? then
      match FirstToken(v.value.s)
      case None => Ok(1.0)
      case Some(t) => Ok(DecimalValue(t).GetOr(1.0))
    else
      match IntValue(v.value)
      case Some(i) => Ok(i as real)
      case None => Err("float() argument must be a string or a number")
  }

  /** The keyword arguments one field lookup passes on: `d.get(k, default)`. */
  function Arg(d: Params, k: string, default: Json): Json {
    Get(d, k, default)
  }

  /** `parse_action`: the name is lower-cased and the other fields are read
      (no branch reads the `action` key itself). */
  function ParseAction(d: Params): (r: Result<Action>)
    ensures r.Ok? ==> WellFormed(r.value)
    ensures "action" in d && !d["action"].JStr? ==> r.Err?
    ensures Get(d, "action", JStr("")).JStr? ==> r == ParseNamed(Lower(Get(d, "action", JStr("")).s), d - {"action"})
  {
    var name := Get(d, "action", JStr(""));
    if !name.JStr? then Err("object has no attribute 'lower'")
    else ParseNamed(Lower(name.s), d - {"action"})
  }

  /** The lower-case names (and aliases) the parser accepts, and the model each selects. */
  const Aliases: map<string, string> :=
    map["tap" := "tap", "type" := "input_text", "input_text" := "input_text", "swipe" := "swipe",
        "launch" := "launch_app", "launch_app" := "launch_app", "long_press" := "long_press",
        "longpress" := "long_press", "double_tap" := "double_tap", "doubletap" := "double_tap",
        "back" := "back", "home" := "home", "wait" := "wait", "done" := "done", "drag" := "drag",
        "scroll" := "scroll", "key_event" := "key_event", "keyevent" := "key_event",
        "answer" := "answer", "ask_user" := "ask_user", "askuser" := "ask_user",
        "record_important_content" := "record_important_content", "record" := "record_important_content",
        "generate_or_update_todos" := "generate_or_update_todos", "todos" := "generate_or_update_todos",
        "read_clipboard" := "read_clipboard", "write_clipboard" := "write_clipboard"]

  /** The dispatch on an already lower-cased name. */
  function ParseNamed(name: string, d: Params): (r: Result<Action>)
    ensures r.Ok? ==> WellFormed(r.value)
    ensures name !in Aliases ==> r == Err("Unknown action: " + name)
  {
    if name !in Aliases then Err("Unknown action: " + name)
    else
      var kind := Aliases[name];
      if kind == "wait" then
        var seconds :- WaitSeconds(d);
        MakeWait(seconds, Arg(d, "reason", JStr("")))
      else if kind in {"back", "home"} then
        PressKeyFrom(map["key" := JStr(kind), "reason" := Arg(d, "reason", JStr(""))])
      else Build(kind, Kwargs(kind, d))
  }

  /** The keyword arguments the parser passes to the model class `kind`,
      with its defaults. */
  function Kwargs(kind: string, d: Params): Params {
    var reason := Arg(d, "reason", JStr(""));
    match kind
    case "tap" => map["coordinates" := Arg(d, "coordinates", JNull), "index" := Arg(d, "index", JNull), "reason" := reason]
    case "input_text" => map["text" := Arg(d, "text", JStr("")), "index" := Arg(d, "index", JNull), "reason" := reason]
    case "swipe" =>
      map["start" := Arg(d, "start", JNull), "end" := Arg(d, "end", JNull), "direction" := Arg(d, "direction", JNull),
          "duration" := Arg(d, "duration", JInt(300)), "reason" := reason]
    case "launch_app" => map["app_name" := Arg(d, "app", Arg(d, "app_name", JStr(""))), "reason" := reason]
    case "long_press" =>
      map["coordinates" := Arg(d, "coordinates", JNull), "index" := Arg(d, "index", JNull),
          "duration" := Arg(d, "duration", JInt(3000)), "reason" := reason]
    case "double_tap" => map["coordinates" := Arg(d, "coordinates", JNull), "index" := Arg(d, "index", JNull), "reason" := reason]
    case "done" =>
      map["message" := Arg(d, "message", Arg(d, "reason", JStr("任务完成"))),
          "success" := Arg(d, "success", JBool(true)), "data" := Arg(d, "data", JNull)]
    case "drag" =>
      map["start" := Arg(d, "start", JNull), "end" := Arg(d, "end", JNull),
          "start_index" := Arg(d, "start_index", JNull), "end_index" := Arg(d, "end_index", JNull),
          "duration" := Arg(d, "duration", JInt(500)), "reason" := reason]
    case "scroll" => map["coordinates" := Arg(d, "coordinates", JNull), "value" := Arg(d, "value", JInt(0)), "reason" := reason]
    case "key_event" => map["key" := Arg(d, "key", JStr("KEYCODE_ENTER")), "reason" := reason]
    case "answer" =>
      map["answer" := Arg(d, "answer", JStr("")), "success" := Arg(d, "success", JBool(true)),
          "data" := Arg(d, "data", JNull), "reason" := reason]
    case "ask_user" => map["question" := Arg(d, "question", JStr("")), "options" := Arg(d, "options", JNull), "reason" := reason]
    case "record_important_content" =>
      map["content" := Arg(d, "content", JStr("")), "category" := Arg(d, "category", JStr("")), "reason" := reason]
    case "generate_or_update_todos" => map["todos" := Arg(d, "todos", JStr("")), "reason" := reason]
    case "read_clipboard" => map["reason" := reason]
    case _ => map["text" := Arg(d, "text", JStr("")), "reason" := reason]
  }

  // ---------------------------------------------------------------------
  // Properties
  // ---------------------------------------------------------------------

  /** Two spellings of a name that agree after lower-casing parse alike. */
  lemma CaseInsensitive(d: Params, a: string, b: string)
    requires Lower(a) == Lower(b)
    ensures ParseAction(d["action" := JStr(a)]) == ParseAction(d["action" := JStr(b)])
  {
    assert d["action" := JStr(a)] - {"action"} == d["action" := JStr(b)] - {"action"};
  }

  /** A tap needs coordinates or an index, whatever the case of its name. */
  lemma TapNeedsTarget(d: Params, name: string)
    requires "action" in d && d["action"] == JStr(name) && Lower(name) == "tap"
    requires "coordinates" !in d && "index" !in d && "reason" !in d
    ensures ParseAction(d) == Err(NeedIndexOrCoordinates)
  {
    var f := d - {"action"};
    assert Aliases["tap"] == "tap";
    var k := Kwargs("tap", f);
    assert k["coordinates"] == JNull && k["index"] == JNull;
  }

  /** `launch` reads `app` first and falls back to `app_name`. */
  lemma LaunchAppFallback(f: Params, app: string)
    requires "reason" !in f
    requires ("app" in f && f["app"] == JStr(app)) || ("app" !in f && "app_name" in f && f["app_name"] == JStr(app))
    ensures ParseNamed("launch", f) == Ok(LaunchApp(app, Some("")))
    ensures ParseNamed("launch_app", f) == Ok(LaunchApp(app, Some("")))
  {
    assert Aliases["launch"] == "launch_app" && Aliases["launch_app"] == "launch_app";
    ParsedByModel("launch", f);
    ParsedByModel("launch_app", f);
    var k := Kwargs("launch_app", f);
    assert k == map["app_name" := JStr(app), "reason" := JStr("")];
    assert Build("launch_app", k) == LaunchAppFrom(k);
  }

  /** done's message is `message`, else `reason`, else the default text; success defaults to true. */
  lemma DoneDefaults(f: Params)
    requires "message" !in f && "success" !in f && "data" !in f
    ensures "reason" in f && f["reason"].JStr? ==> ParseNamed("done", f) == Ok(Done(true, f["reason"].s, None))
    ensures "reason" !in f ==> ParseNamed("done", f) == Ok(Done(true, "任务完成", None))
  {
    assert Aliases["done"] == "done";
    var k := Kwargs("done", f);
    assert k["success"] == JBool(true) && k["data"] == JNull;
  }

  /** Every name but wait, back and home goes to its model class with the
      parser's keyword arguments; the gestures then carry the given reason,
      and the empty text (not None) when none was given. */
  lemma ParsedByModel(name: string, f: Params)
    requires name in Aliases && Aliases[name] !in {"wait", "back", "home"}
    ensures ParseNamed(name, f) == Build(Aliases[name], Kwargs(Aliases[name], f))
    ensures var r := ParseNamed(name, f);
            r.Ok? && (r.value.Tap? || r.value.Swipe? || r.value.LongPress? || r.value.DoubleTap? || r.value.Drag?) ==>
              r.value.reason == (if "reason" !in f then Some("") else if f["reason"].JStr? then Some(f["reason"].s) else None)
  {
    var kind := Aliases[name];
    if kind in {"tap", "swipe", "long_press", "double_tap", "drag"} {
      assert OptStr(Kwargs(kind, f), "reason") == OptStr(map["reason" := Arg(f, "reason", JStr(""))], "reason");
    }
  }

  /** A parsed action belongs to the class its name or alias selects; back
      and home become a key press of that key. */
  lemma ParsedKind(name: string, f: Params)
    requires name in Aliases && ParseNamed(name, f).Ok?
    ensures Aliases[name] !in {"back", "home"} ==> KindName(ParseNamed(name, f).value) == Aliases[name]
    ensures Aliases[name] in {"back", "home"} ==> ParseNamed(name, f).value.PressKey? && ParseNamed(name, f).value.key == Aliases[name]
  {
  }

  /** A keyword argument read with a null default decodes as the field itself would. */
  lemma ArgAgrees(f: Params, kw: Params, key: string)
    requires key in kw && kw[key] == Arg(f, key, JNull)
    ensures OptInt(kw, key) == OptInt(f, key) && OptIntList(kw, key) == OptIntList(f, key)
  {
  }

  /** Tap, double tap and long press keep the index and coordinates they were given. */
  lemma ParsedTargetKept(name: string, f: Params)
    requires name in Aliases && Aliases[name] in {"tap", "double_tap", "long_press"} && ParseNamed(name, f).Ok?
    ensures OptInt(f, "index") == Ok(ParseNamed(name, f).value.index)
    ensures OptIntList(f, "coordinates") == Ok(ParseNamed(name, f).value.coordinates)
  {
    var kind := Aliases[name];
    var kw := Kwargs(kind, f);
    ParsedByModel(name, f);
    ArgAgrees(f, kw, "index");
    ArgAgrees(f, kw, "coordinates");
  }

  /** swipe waits 300 ms by default. */
  lemma SwipeDefault(f: Params)
    requires "duration" !in f
    ensures var s := ParseNamed("swipe", f); s.Ok? ==> s.value.duration == 300
  {
    assert Aliases["swipe"] == "swipe";
    ParsedByModel("swipe", f);
    var k := Kwargs("swipe", f);
    assert k["duration"] == JInt(300);
    assert Build("swipe", k) == SwipeFrom(k);
  }

  /** long_press holds 3000 ms by default. */
  lemma LongPressDefault(f: Params)
    requires "duration" !in f
    ensures var l := ParseNamed("long_press", f); l.Ok? ==> l.value.duration == 3000
  {
    assert Aliases["long_press"] == "long_press";
    ParsedByModel("long_press", f);
    var k := Kwargs("long_press", f);
    assert k["duration"] == JInt(3000);
    assert Build("long_press", k) == LongPressFrom(k);
  }

  /** drag takes 500 ms by default. */
  lemma DragDefault(f: Params)
    requires "duration" !in f
    ensures var g := ParseNamed("drag", f); g.Ok? ==> g.value.duration == 500
  {
    assert Aliases["drag"] == "drag";
    ParsedByModel("drag", f);
    var k := Kwargs("drag", f);
    assert k["duration"] == JInt(500);
    assert Build("drag", k) == DragFrom(k);
  }

  /** scroll moves by 0 by default. */
  lemma ScrollDefault(f: Params)
    requires "value" !in f
    ensures var c := ParseNamed("scroll", f); c.Ok? ==> c.value.value == 0
  {
    assert Aliases["scroll"] == "scroll";
    assert Kwargs("scroll", f)["value"] == JInt(0);
  }

  /** A wait given as text waits for the number its first word denotes. */
  lemma WaitFromText(f: Params, text: string, v: real)
    requires "reason" !in f && "duration" in f && f["duration"] == JStr(text)
    requires FirstToken(text).Some? && DecimalValue(FirstToken(text).value) == Some(v) && v >= 0.0
    ensures ParseNamed("wait", f) == Ok(Wait(v, Some("")))
  {
    assert Aliases["wait"] == "wait";
    assert WaitSeconds(f) == Ok(v);
  }

  /** Text whose first word is not a number, or that has no word, waits one second. */
  lemma WaitUnparsable(f: Params, text: string)
    requires "reason" !in f && "duration" in f && f["duration"] == JStr(text)
    requires FirstToken(text).None? || !DecimalText(FirstToken(text).value)
    ensures ParseNamed("wait", f) == Ok(Wait(1.0, Some("")))
  {
    assert Aliases["wait"] == "wait";
    assert WaitSeconds(f) == Ok(1.0);
  }

  /** A wait of `"<n> seconds"` waits `n` seconds for every natural `n`. */
  lemma WaitOfPrintedNumber(f: Params, n: nat)
    requires "reason" !in f && "duration" in f && f["duration"] == JStr(NatToString(n) + " seconds")
    ensures ParseNamed("wait", f) == Ok(Wait(n as real, Some("")))
  {
    var text := NatToString(n) + " seconds";
    var d := NatToString(n);
    assert TrimStart(text) == text by { assert !IsSpace(text[0]); }
    assert TokenEnd(text, 0) == |d| by {
      assert forall k :: 0 <= k < |d| ==> text[k] == d[k] && !IsSpace(text[k]);
      assert IsSpace(text[|d|]);
      TokenEndAt(text, 0, |d|);
    }
    assert text[..|d|] == d;
    assert FirstToken(text) == Some(d);
    DecimalOfIntToString(n);
    WaitFromText(f, text, n as real);
  }

  lemma {:induction false} TokenEndAt(t: string, i: nat, e: nat)
    requires i <= e < |t| && IsSpace(t[e]) && forall k :: 0 <= k < e ==> !IsSpace(t[k])
    ensures TokenEnd(t, i) == e
    decreases e - i
  {
    if i < e {
      TokenEndAt(t, i + 1, e);
    }
  }

  /** A negative wait is refused. */
  lemma NegativeWaitRefused(f: Params, n: int)
    requires "duration" in f && f["duration"] == JInt(n) && n < 0
    ensures ParseNamed("wait", f).Err?
  {
    assert Aliases["wait"] == "wait";
  }
}
