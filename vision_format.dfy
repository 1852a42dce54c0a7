/** The deprecated vision-kernel action format: `do(action="Tap", element=[x, y])`
    and `finish(message="...")` calls, read with a regular-expression fallback and
    rewritten into the flat dictionary the generic parser expects. */
module VisionFormat {
  import opened Util
  import opened StandardActions
  import ActionParse

  // ---------------------------------------------------------------------
  // The call-text reader
  // ---------------------------------------------------------------------

  /** `^(do|finish)\((.*)\)$` under DOTALL: the function name and the argument
      text.  `.*` is greedy and `$` also matches before one final newline. */
  function OuterMatch(s: string): (r: Option<(string, string)>)
    ensures !StartsWith(s, "do(") && !StartsWith(s, "finish(") ==> r.None?
    ensures r.Some? ==> (r.value.0 == "do" || r.value.0 == "finish")
    ensures r.Some? ==> s == r.value.0 + "(" + r.value.1 + ")" || s == r.value.0 + "(" + r.value.1 + ")\n"
  {
    var name := if StartsWith(s, "do(") then "do" else "finish";
    var p := |name| + 1;
    if !StartsWith(s, "do(") && !StartsWith(s, "finish(") then None
    else if |s| >= p + 1 && s[|s| - 1] == ')' then
      assert s == s[..p] + s[p..|s| - 1] + [')'];
      Some((name, s[p..|s| - 1]))
    else if |s| >= p + 2 && s[|s| - 2..] == ")\n" then
      assert s == s[..p] + s[p..|s| - 2] + ")\n";
      Some((name, s[p..|s| - 2]))
    else None
  }

  /** Every `do(...)` or `finish(...)` call text is matched, with its argument text. */
  lemma OuterMatchComplete(name: string, args: string)
    requires name == "do" || name == "finish"
    ensures OuterMatch(name + "(" + args + ")") == Some((name, args))
  {
    var s := name + "(" + args + ")";
    assert StartsWith(s, name + "(") by {
      assert s[..|name| + 1] == name + "(";
    }
    if name == "finish" {
      assert !StartsWith(s, "do(") by {
        assert s[1] == 'i';
      }
    }
    assert s[|name| + 1..|s| - 1] == args;
  }

  /** The fields the argument patterns look for: `finish` only reads `message`. */
  function FieldsOf(name: string): seq<string> {
    if name == "finish" then ["message"] else ["action", "app", "text", "message"]
  }

  /** The fields read as an `[x, y]` pair of decimal numbers (`do` only). */
  function PairsOf(name: string): seq<string> {
    if name == "finish" then [] else ["element", "start", "end"]
  }

  /** The fields whose pattern finds a capture, each set to its captured value. */
  function Captured(fields: seq<string>, args: string, text: (string, string) -> Option<string>): (r: Params)
    ensures forall k :: k in r <==> k in fields && text(k, args).Some?
    ensures forall k :: k in r ==> r[k] == JStr(text(k, args).value)
  {
    if fields == [] then map[]
    else
      var rest := Captured(fields[1..], args, text);
      var k := fields[0];
      match text(k, args)
      case Some(v) => rest[k := JStr(v)]
      case None => rest
  }

  /** The pair fields whose pattern finds two numbers, each set to `[x, y]`. */
  function CapturedPairs(fields: seq<string>, args: string, pair: (string, string) -> Option<(nat, nat)>): (r: Params)
    ensures forall k :: k in r <==> k in fields && pair(k, args).Some?
    ensures forall k :: k in r ==> r[k] == JArr([JInt(pair(k, args).value.0), JInt(pair(k, args).value.1)])
  {
    if fields == [] then map[]
    else
      var rest := CapturedPairs(fields[1..], args, pair);
      var k := fields[0];
      match pair(k, args)
      case Some(v) => rest[k := JArr([JInt(v.0), JInt(v.1)])]
      case None => rest
  }

  /** `_parse_with_regex`: only `do(...)` and `finish(...)` are accepted, the
      field patterns (given as `text` and `pair`) fill in what they find, and
      `_metadata` always names the function. */
  function ParseWithRegex(response: string, text: (string, string) -> Option<string>,
                          pair: (string, string) -> Option<(nat, nat)>): (r: Result<Params>)
    ensures OuterMatch(response).None? <==> r.Err?
    ensures r.Ok? ==> "_metadata" in r.value && r.value["_metadata"] == JStr(OuterMatch(response).value.0)
    ensures r.Ok? && OuterMatch(response).value.0 == "finish" ==> r.value.Keys <= {"_metadata", "message"}
    ensures r.Ok? ==> r.value.Keys <= {"_metadata", "action", "app", "text", "message", "element", "start", "end"}
    ensures r.Ok? ==> var (name, args) := OuterMatch(response).value;
      forall k :: k != "_metadata" ==>
        (k in r.value <==> (k in FieldsOf(name) && text(k, args).Some?) || (k in PairsOf(name) && pair(k, args).Some?))
    ensures r.Ok? ==> var (name, args) := OuterMatch(response).value;
      forall k :: k in FieldsOf(name) && k != "_metadata" && k !in PairsOf(name) && text(k, args).Some? ==>
        r.value[k] == JStr(text(k, args).value)
    ensures r.Ok? ==> var (name, args) := OuterMatch(response).value;
      forall k :: k in PairsOf(name) && k != "_metadata" && pair(k, args).Some? ==>
        r.value[k] == JArr([JInt(pair(k, args).value.0), JInt(pair(k, args).value.1)])
  {
    match OuterMatch(response)
    case None => Err("无效的动作格式: " + response)
    case Some((name, args)) =>
      var found := Captured(FieldsOf(name), args, text);
      var pairs := CapturedPairs(PairsOf(name), args, pair);
      Ok((found + pairs)["_metadata" := JStr(name)])
  }

  /** The `do(**kwargs)` helper. */
  function Do(kwargs: Params): (r: Params)
    ensures "_metadata" in r && r["_metadata"] == JStr("do")
    ensures forall k :: k != "_metadata" ==> (k in r <==> k in kwargs) && (k in kwargs ==> r[k] == kwargs[k])
  {
    kwargs["_metadata" := JStr("do")]
  }

  /** The `finish(**kwargs)` helper. */
  function Finish(kwargs: Params): (r: Params)
    ensures "_metadata" in r && r["_metadata"] == JStr("finish")
    ensures forall k :: k != "_metadata" ==> (k in r <==> k in kwargs) && (k in kwargs ==> r[k] == kwargs[k])
  {
    kwargs["_metadata" := JStr("finish")]
  }

  // ---------------------------------------------------------------------
  // Conversion to the standard dictionary
  // ---------------------------------------------------------------------

  /** `name.replace(" ", "_")`. */
  function Underscored(s: string): (r: string)
    ensures |r| == |s|
    ensures forall i :: 0 <= i < |s| ==> r[i] == (if s[i] == ' ' then '_' else s[i])
  {
    if s == [] then [] else [if s[0] == ' ' then '_' else s[0]] + Underscored(s[1..])
  }

  /** The action name as the standard format spells it; `finish` becomes `done`. */
  function StandardName(s: string): string {
    var n := Lower(Underscored(s));
    if n == "finish" then "done" else n
  }

  /** Python's unary minus on a JSON value; booleans count as 0 and 1. */
  function Negated(j: Json): Result<Json> {
    match IntValue(j)
    case Some(i) => Ok(JInt(-i))
    case None => Err("bad operand type for unary -")
  }

  /** The keys the conversion may rewrite; every other key passes through. */
  const Rewritten: set<string> :=
    {"action", "element", "coordinates", "message", "reason", "x", "y", "direction", "distance", "value", "key"}

  /** `a` and `b` agree on every key outside `keys`. */
  ghost predicate Agrees(a: Params, b: Params, keys: set<string>) {
    forall k :: k !in keys ==> (k in a <==> k in b) && (k in a ==> a[k] == b[k])
  }

  /** Step 0: `finish(...)` becomes a `done` action. */
  function FinishToDone(n: Params): (r: Params)
    ensures Agrees(n, r, {"action"})
    ensures Get(n, "_metadata", JNull) == JStr("finish") ==> "action" in r && r["action"] == JStr("done")
    ensures Get(n, "_metadata", JNull) != JStr("finish") ==> r == n
  {
    if Get(n, "_metadata", JNull) == JStr("finish") then n["action" := JStr("done")] else n
  }

  /** Step 1: `element` is renamed `coordinates`. */
  function RenameElement(n: Params): (r: Params)
    ensures Agrees(n, r, {"element", "coordinates"}) && "element" !in r
    ensures "element" in n ==> "coordinates" in r && r["coordinates"] == n["element"]
    ensures "element" !in n ==> r == n
  {
    if "element" in n then (n - {"element"})["coordinates" := n["element"]] else n
  }

  /** Step 2: the action name is normalised (a non-string name raises). */
  function NormaliseName(n: Params): (r: Result<Params>)
    ensures r.Ok? ==> Agrees(n, r.value, {"action"})
    ensures "action" !in n ==> r == Ok(n)
    ensures "action" in n && !n["action"].JStr? ==> r.Err?
    ensures "action" in n && n["action"].JStr? ==> r.Ok? && "action" in r.value && r.value["action"] == JStr(StandardName(n["action"].s))
  {
    if "action" !in n then Ok(n)
    else if !n["action"].JStr? then Err("object has no attribute 'replace'")
    else Ok(n["action" := JStr(StandardName(n["action"].s))])
  }

  /** Step 4: outside `done`, `message` becomes `reason` unless one is given. */
  function MessageToReason(n: Params): (r: Params)
    ensures Agrees(n, r, {"message", "reason"})
    ensures "message" in n && Get(n, "action", JNull) != JStr("done") && "reason" !in n ==>
              "message" !in r && "reason" in r && r["reason"] == n["message"]
    ensures !("message" in n && Get(n, "action", JNull) != JStr("done") && "reason" !in n) ==> r == n
  {
    if "message" in n && Get(n, "action", JNull) != JStr("done") && "reason" !in n then
      (n - {"message"})["reason" := n["message"]]
    else n
  }

  /** Step 5: a scroll's `x`, `y` become `coordinates` and its `direction`,
      `distance` become a signed `value`. */
  function ScrollFields(n: Params): (r: Result<Params>)
    ensures r.Ok? ==> Agrees(n, r.value, {"x", "y", "coordinates", "direction", "distance", "value"})
    ensures Get(n, "action", JNull) != JStr("scroll") ==> r == Ok(n)
    ensures Get(n, "action", JNull) == JStr("scroll") && r.Ok? && "x" in n && "y" in n ==>
              "x" !in r.value && "y" !in r.value && "coordinates" in r.value && r.value["coordinates"] == JArr([n["x"], n["y"]])
    ensures Get(n, "action", JNull) == JStr("scroll") && "direction" in n && "distance" in n ==>
              var up := n["direction"] == JStr("up") || n["direction"] == JStr("right");
              (r.Ok? <==> up || IntValue(n["distance"]).Some?)
              && (r.Ok? ==> "direction" !in r.value && "distance" !in r.value && "value" in r.value
                            && r.value["value"] == (if up then n["distance"] else JInt(-IntValue(n["distance"]).value)))
  {
    if Get(n, "action", JNull) != JStr("scroll") then Ok(n)
    else
      var m := if "x" in n && "y" in n then (n - {"x", "y"})["coordinates" := JArr([n["x"], n["y"]])] else n;
      if "direction" in m && "distance" in m then
        var direction := m["direction"];
        var distance := m["distance"];
        var value :- if direction == JStr("up") || direction == JStr("right") then Ok(distance) else Negated(distance);
        Ok((m - {"direction", "distance"})["value" := value])
      else Ok(m)
  }

  /** Step 6: a key event's `KEYCODE_` prefix is dropped and the rest lower-cased. */
  function KeyCodePrefix(n: Params): (r: Result<Params>)
    ensures r.Ok? ==> Agrees(n, r.value, {"key"})
    ensures Get(n, "action", JNull) != JStr("key_event") ==> r == Ok(n)
    ensures Get(n, "action", JNull) == JStr("key_event") ==>
              var key := Get(n, "key", JStr(""));
              (r.Ok? <==> key.JStr?)
              && (r.Ok? && StartsWith(key.s, "KEYCODE_") ==> "key" in r.value && r.value["key"] == JStr(Lower(key.s[8..])))
              && (r.Ok? && !StartsWith(key.s, "KEYCODE_") ==> r.value == n)
  {
    if Get(n, "action", JNull) != JStr("key_event") then Ok(n)
    else
      var key := Get(n, "key", JStr(""));
      if !key.JStr? then Err("object has no attribute 'startswith'")
      else if StartsWith(key.s, "KEYCODE_") then Ok(n["key" := JStr(Lower(key.s[8..]))])
      else Ok(n)
  }

  lemma DoneIsStandard()
    ensures StandardName("done") == "done"
  {
    assert Underscored("done") == "done";
    assert Lower("done") == "done";
  }

  /** The rewriting half of `convert_to_standard_action`, on a copy of its argument. */
  function Normalise(a: Params): Result<Params> {
    var n2 :- NormaliseName(RenameElement(FinishToDone(a)));
    Tail(n2)
  }

  /** Steps 4 to 6, which leave the action name alone. */
  function Tail(n: Params): (r: Result<Params>)
    ensures r.Ok? ==> Agrees(n, r.value, {"message", "reason", "x", "y", "coordinates", "direction", "distance", "value", "key"})
  {
    var n5 :- ScrollFields(MessageToReason(n));
    KeyCodePrefix(n5)
  }

  /** Keys outside the rewritten ones are carried over unchanged, and
      `element` never survives the conversion. */
  lemma NormaliseKeepsOthers(a: Params)
    ensures var r := Normalise(a);
            r.Ok? ==> Agrees(a, r.value, Rewritten) && "element" !in r.value
  {
    var n0 := FinishToDone(a);
    var n1 := RenameElement(n0);
    var n2 := NormaliseName(n1);
    if n2.Ok? && Tail(n2.value).Ok? {
      var r := Tail(n2.value).value;
      var tailKeys := {"message", "reason", "x", "y", "coordinates", "direction", "distance", "value", "key"};
      AgreesChain(a, n0, n1, {"action"}, {"element", "coordinates"});
      AgreesChain(n1, n2.value, r, {"action"}, tailKeys);
      AgreesChain(a, n1, r, {"action"} + {"element", "coordinates"}, {"action"} + tailKeys);
      assert {"action"} + {"element", "coordinates"} + ({"action"} + tailKeys) == Rewritten;
      assert "element" !in {"action"} + tailKeys;
    }
  }

  /** Agreement outside two key sets composes. */
  lemma AgreesChain(a: Params, b: Params, c: Params, k1: set<string>, k2: set<string>)
    requires Agrees(a, b, k1) && Agrees(b, c, k2)
    ensures Agrees(a, c, k1 + k2)
  {
  }

  /** Steps 4 to 6 leave the action name alone. */
  lemma TailKeepsAction(n: Params)
    ensures Tail(n).Ok? ==> ("action" in n <==> "action" in Tail(n).value)
                            && ("action" in n ==> Tail(n).value["action"] == n["action"])
  {
    MessageKeeps(n, "action");
    var n4 := MessageToReason(n);
    if ScrollFields(n4).Ok? {
      assert "action" !in {"x", "y", "coordinates", "direction", "distance", "value"};
      assert "action" !in {"key"};
    }
  }

  /** Steps 0 and 1 leave a name given by the caller alone. */
  lemma HeadKeepsName(a: Params)
    requires Get(a, "_metadata", JNull) != JStr("finish")
    ensures var n1 := RenameElement(FinishToDone(a));
            ("action" in n1 <==> "action" in a) && ("action" in a ==> n1["action"] == a["action"])
  {
    assert "action" !in {"element", "coordinates"};
  }

  /** `finish` metadata gives a `done` action. */
  lemma NormaliseFinishIsDone(a: Params)
    requires Get(a, "_metadata", JNull) == JStr("finish")
    ensures var r := Normalise(a);
            r.Ok? && "action" in r.value && r.value["action"] == JStr("done")
  {
    var n0 := FinishToDone(a);
    var n1 := RenameElement(n0);
    assert "action" in n1 && n1["action"] == JStr("done") by {
      assert "action" !in {"element", "coordinates"};
    }
    DoneIsStandard();
    var n2 := NormaliseName(n1).value;
    assert Get(n2, "action", JNull) == JStr("done");
    assert Tail(n2).Ok? by {
      assert ScrollFields(MessageToReason(n2)) == Ok(MessageToReason(n2));
    }
    TailKeepsAction(n2);
  }

  /** A name that is not a string is refused. */
  lemma NormaliseRefusesOddName(a: Params)
    requires Get(a, "_metadata", JNull) != JStr("finish") && "action" in a && !a["action"].JStr?
    ensures Normalise(a).Err?
  {
    HeadKeepsName(a);
  }

  /** Other names are lower-cased with spaces as `_`; one reading "finish"
      gives `done`. */
  lemma NormaliseStandardName(a: Params)
    requires Get(a, "_metadata", JNull) != JStr("finish") && "action" in a && a["action"].JStr?
    ensures var r := Normalise(a);
            r.Ok? ==> "action" in r.value && r.value["action"] == JStr(StandardName(a["action"].s))
  {
    HeadKeepsName(a);
    var n2 := NormaliseName(RenameElement(FinishToDone(a))).value;
    TailKeepsAction(n2);
  }

  /** Without a name there is still none after conversion. */
  lemma NormaliseNoName(a: Params)
    requires Get(a, "_metadata", JNull) != JStr("finish") && "action" !in a
    ensures var r := Normalise(a);
            r.Ok? ==> "action" !in r.value
  {
    HeadKeepsName(a);
    var n2 := NormaliseName(RenameElement(FinishToDone(a))).value;
    TailKeepsAction(n2);
  }

  /** Outside `done`, a `message` becomes the `reason` unless one is given;
      a done action keeps its `message`. */
  lemma NormaliseMessage(a: Params)
    requires "message" in a && "reason" !in a
    ensures var r := Normalise(a);
            r.Ok? ==> (Get(r.value, "action", JNull) != JStr("done") ==>
                         "message" !in r.value && "reason" in r.value && r.value["reason"] == a["message"])
                      && (Get(r.value, "action", JNull) == JStr("done") ==>
                         "message" in r.value && r.value["message"] == a["message"] && "reason" !in r.value)
  {
    var n2 := NormaliseName(RenameElement(FinishToDone(a)));
    if n2.Ok? {
      HeadKeeps(a, "message");
      HeadKeeps(a, "reason");
      TailMessage(n2.value);
    }
  }

  lemma TailMessage(n: Params)
    requires "message" in n && "reason" !in n
    ensures var r := Tail(n);
            r.Ok? ==> Get(r.value, "action", JNull) == Get(n, "action", JNull)
                      && (Get(n, "action", JNull) != JStr("done") ==>
                            "message" !in r.value && "reason" in r.value && r.value["reason"] == n["message"])
                      && (Get(n, "action", JNull) == JStr("done") ==>
                            "message" in r.value && r.value["message"] == n["message"] && "reason" !in r.value)
  {
    var n4 := MessageToReason(n);
    var n5 := ScrollFields(n4);
    if n5.Ok? {
      assert Get(n5.value, "action", JNull) == Get(n, "action", JNull);
    }
  }

  /** The first steps of converting a scroll leave its motion fields alone. */
  lemma ScrollHead(a: Params)
    requires Get(a, "_metadata", JNull) != JStr("finish") && "action" in a && a["action"].JStr?
    requires StandardName(a["action"].s) == "scroll"
    ensures var n2 := NormaliseName(RenameElement(FinishToDone(a)));
            n2.Ok? && Get(n2.value, "action", JNull) == JStr("scroll") && Normalise(a) == Tail(n2.value)
            && ("x" in a <==> "x" in n2.value) && ("x" in a ==> a["x"] == n2.value["x"])
            && ("y" in a <==> "y" in n2.value) && ("y" in a ==> a["y"] == n2.value["y"])
            && ("direction" in a <==> "direction" in n2.value) && ("direction" in a ==> a["direction"] == n2.value["direction"])
            && ("distance" in a <==> "distance" in n2.value) && ("distance" in a ==> a["distance"] == n2.value["distance"])
  {
    NamedHead(a, "scroll");
    HeadKeeps(a, "x");
    HeadKeeps(a, "y");
    HeadKeeps(a, "direction");
    HeadKeeps(a, "distance");
  }

  /** A scroll's `x`, `y` become its `coordinates`. */
  lemma NormaliseScrollCoordinates(a: Params)
    requires Get(a, "_metadata", JNull) != JStr("finish") && "action" in a && a["action"].JStr?
    requires StandardName(a["action"].s) == "scroll"
    ensures var r := Normalise(a);
            "x" in a && "y" in a && r.Ok? ==>
              "x" !in r.value && "y" !in r.value && "coordinates" in r.value && r.value["coordinates"] == JArr([a["x"], a["y"]])
  {
    ScrollHead(a);
    TailScrollCoordinates(NormaliseName(RenameElement(FinishToDone(a))).value);
  }

  /** A scroll's `direction` and `distance` become `value`, positive for up
      and right and negative otherwise; a distance that cannot be negated is
      refused. */
  lemma NormaliseScrollValue(a: Params, direction: Json, distance: Json)
    requires Get(a, "_metadata", JNull) != JStr("finish") && "action" in a && a["action"].JStr?
    requires StandardName(a["action"].s) == "scroll"
    requires "direction" in a && a["direction"] == direction && "distance" in a && a["distance"] == distance
    ensures var r := Normalise(a);
            var up := direction == JStr("up") || direction == JStr("right");
            (r.Ok? <==> up || IntValue(distance).Some?)
            && (r.Ok? ==> "value" in r.value && r.value["value"] == (if up then distance else JInt(-IntValue(distance).value)))
  {
    ScrollHead(a);
    TailScrollValue(NormaliseName(RenameElement(FinishToDone(a))).value, direction, distance);
  }

  /** Outside `finish`, steps 0 to 2 give the action its standard name. */
  lemma NamedHead(a: Params, name: string)
    requires Get(a, "_metadata", JNull) != JStr("finish") && "action" in a && a["action"].JStr?
    requires StandardName(a["action"].s) == name
    ensures var n2 := NormaliseName(RenameElement(FinishToDone(a)));
            n2.Ok? && Get(n2.value, "action", JNull) == JStr(name) && Normalise(a) == Tail(n2.value)
  {
    HeadKeepsName(a);
  }

  /** Steps 0 to 2 leave every key but the name, `element` and `coordinates` alone. */
  lemma HeadKeeps(a: Params, k: string)
    requires NormaliseName(RenameElement(FinishToDone(a))).Ok?
    requires k != "action" && k != "element" && k != "coordinates"
    ensures var n2 := NormaliseName(RenameElement(FinishToDone(a))).value;
            (k in a <==> k in n2) && (k in a ==> a[k] == n2[k])
  {
    var n0 := FinishToDone(a);
    var n1 := RenameElement(n0);
    var n2 := NormaliseName(n1).value;
    assert k !in {"action"} && k !in {"element", "coordinates"};
    assert (k in a <==> k in n0) && (k in a ==> a[k] == n0[k]);
    assert (k in n0 <==> k in n1) && (k in n0 ==> n0[k] == n1[k]);
    assert (k in n1 <==> k in n2) && (k in n1 ==> n1[k] == n2[k]);
  }

  /** Step 4 leaves every key but `message` and `reason` alone. */
  lemma MessageKeeps(n: Params, k: string)
    requires k != "message" && k != "reason"
    ensures (k in n <==> k in MessageToReason(n)) && (k in n ==> n[k] == MessageToReason(n)[k])
  {
    assert k !in {"message", "reason"};
  }

  /** Steps 4 to 6 of a scroll come down to step 5. */
  lemma TailOfScroll(n: Params)
    requires Get(n, "action", JNull) == JStr("scroll")
    ensures var n4 := MessageToReason(n);
            Tail(n) == ScrollFields(n4) && Get(n4, "action", JNull) == JStr("scroll")
            && ("x" in n <==> "x" in n4) && ("x" in n ==> n["x"] == n4["x"])
            && ("y" in n <==> "y" in n4) && ("y" in n ==> n["y"] == n4["y"])
            && ("direction" in n <==> "direction" in n4) && ("direction" in n ==> n["direction"] == n4["direction"])
            && ("distance" in n <==> "distance" in n4) && ("distance" in n ==> n["distance"] == n4["distance"])
  {
    var n4 := MessageToReason(n);
    MessageKeeps(n, "action");
    MessageKeeps(n, "x");
    MessageKeeps(n, "y");
    MessageKeeps(n, "direction");
    MessageKeeps(n, "distance");
    var n5 := ScrollFields(n4);
    if n5.Ok? {
      assert Get(n5.value, "action", JNull) == JStr("scroll") by {
        assert "action" !in {"x", "y", "coordinates", "direction", "distance", "value"};
      }
      assert KeyCodePrefix(n5.value) == n5;
    }
  }

  lemma TailScrollCoordinates(n: Params)
    requires Get(n, "action", JNull) == JStr("scroll")
    ensures var r := Tail(n);
            "x" in n && "y" in n && r.Ok? ==>
              "x" !in r.value && "y" !in r.value && "coordinates" in r.value && r.value["coordinates"] == JArr([n["x"], n["y"]])
  {
    TailOfScroll(n);
  }

  lemma TailScrollValue(n: Params, direction: Json, distance: Json)
    requires Get(n, "action", JNull) == JStr("scroll")
    requires "direction" in n && n["direction"] == direction && "distance" in n && n["distance"] == distance
    ensures var r := Tail(n);
            var up := direction == JStr("up") || direction == JStr("right");
            (r.Ok? <==> up || IntValue(distance).Some?)
            && (r.Ok? ==> "value" in r.value && r.value["value"] == (if up then distance else JInt(-IntValue(distance).value)))
  {
    TailOfScroll(n);
  }

  /** A key event drops a leading `KEYCODE_` and lower-cases the rest; a key
      that is not text is refused. */
  lemma NormaliseKeyEvent(a: Params)
    requires Get(a, "_metadata", JNull) != JStr("finish") && "action" in a && a["action"].JStr?
    requires StandardName(a["action"].s) == "key_event"
    ensures var r := Normalise(a);
            var key := Get(a, "key", JStr(""));
            (r.Ok? <==> key.JStr?)
            && (r.Ok? && StartsWith(key.s, "KEYCODE_") ==> "key" in r.value && r.value["key"] == JStr(Lower(key.s[8..])))
            && (r.Ok? && !StartsWith(key.s, "KEYCODE_") ==> Get(r.value, "key", JNull) == Get(a, "key", JNull))
  {
    NamedHead(a, "key_event");
    HeadKeeps(a, "key");
    TailKeyEvent(NormaliseName(RenameElement(FinishToDone(a))).value);
  }

  lemma TailKeyEvent(n: Params)
    requires Get(n, "action", JNull) == JStr("key_event")
    ensures var r := Tail(n);
            var key := Get(n, "key", JStr(""));
            (r.Ok? <==> key.JStr?)
            && (r.Ok? && StartsWith(key.s, "KEYCODE_") ==> "key" in r.value && r.value["key"] == JStr(Lower(key.s[8..])))
            && (r.Ok? && !StartsWith(key.s, "KEYCODE_") ==> Get(r.value, "key", JNull) == Get(n, "key", JNull))
  {
    var n4 := MessageToReason(n);
    MessageKeeps(n, "action");
    MessageKeeps(n, "key");
    assert ScrollFields(n4) == Ok(n4);
  }

  /** `convert_to_standard_action`: normalise, then hand over to the generic parser. */
  function Convert(a: Params): (r: Result<Action>)
    ensures r.Ok? ==> WellFormed(r.value)
  {
    var n :- Normalise(a);
    ActionParse.ParseAction(n)
  }

  /** `finish(message=m)` converts to a successful done action carrying `m`. */
  lemma ConvertFinish(kwargs: Params, m: string)
    requires kwargs == map["message" := JStr(m)]
    ensures Convert(Finish(kwargs)) == Ok(Done(true, m, None))
  {
    var n := map["_metadata" := JStr("finish"), "message" := JStr(m), "action" := JStr("done")];
    var a := Finish(kwargs);
    assert Convert(a) == ActionParse.ParseAction(n) by {
      NormaliseFinish(m, n);
    }
    ParseFinished(n, m);
  }

  lemma ParseFinished(n: Params, m: string)
    requires n == map["_metadata" := JStr("finish"), "message" := JStr(m), "action" := JStr("done")]
    ensures ActionParse.ParseAction(n) == Ok(Done(true, m, None))
  {
    var f := n - {"action"};
    assert f == map["_metadata" := JStr("finish"), "message" := JStr(m)];
    LowerDone();
    ParseNamedAction(n, "done");
    ParseDone(f, m);
  }

  /** The generic parser sees the lower-case name and the other fields. */
  lemma ParseNamedAction(n: Params, name: string)
    requires "action" in n && n["action"] == JStr(name) && Lower(name) == name
    ensures ActionParse.ParseAction(n) == ActionParse.ParseNamed(name, n - {"action"})
  {
  }

  lemma ParseDone(f: Params, m: string)
    requires f == map["_metadata" := JStr("finish"), "message" := JStr(m)]
    ensures ActionParse.ParseNamed("done", f) == Ok(Done(true, m, None))
  {
    assert ActionParse.Aliases["done"] == "done";
    var k := ActionParse.Kwargs("done", f);
    assert k == map["message" := JStr(m), "success" := JBool(true), "data" := JNull];
  }

  lemma LowerDone()
    ensures Lower("done") == "done"
  {
  }

  lemma NormaliseFinish(m: string, n: Params)
    requires n == map["_metadata" := JStr("finish"), "message" := JStr(m), "action" := JStr("done")]
    ensures Normalise(Finish(map["message" := JStr(m)])) == Ok(n)
  {
    FinishedMap(m, n);
    assert NormaliseName(RenameElement(n)) == Ok(n) by {
      DoneIsStandard();
      assert RenameElement(n) == n;
      assert n["action" := JStr("done")] == n;
    }
    assert Tail(n) == Ok(n) by {
      assert MessageToReason(n) == n;
    }
  }

  lemma FinishedMap(m: string, n: Params)
    requires n == map["_metadata" := JStr("finish"), "message" := JStr(m), "action" := JStr("done")]
    ensures FinishToDone(Finish(map["message" := JStr(m)])) == n
  {
  }

  /** `do(action=<a tap spelling>, element=[x, y])` converts to a tap at `[x, y]`. */
  lemma ConvertTap(name: string, x: nat, y: nat)
    requires StandardName(name) == "tap"
    ensures Convert(Do(map["action" := JStr(name), "element" := JArr([JInt(x), JInt(y)])])) == Ok(Tap(None, Some([x, y]), Some("")))
  {
    var n := map["_metadata" := JStr("do"), "coordinates" := JArr([JInt(x), JInt(y)]), "action" := JStr("tap")];
    var a := Do(map["action" := JStr(name), "element" := JArr([JInt(x), JInt(y)])]);
    assert Convert(a) == ActionParse.ParseAction(n) by {
      NormaliseTap(name, x, y, n);
    }
    ParseTapped(n, x, y);
  }

  lemma ParseTapped(n: Params, x: nat, y: nat)
    requires n == map["_metadata" := JStr("do"), "coordinates" := JArr([JInt(x), JInt(y)]), "action" := JStr("tap")]
    ensures ActionParse.ParseAction(n) == Ok(Tap(None, Some([x, y]), Some("")))
  {
    var f := n - {"action"};
    assert f == map["_metadata" := JStr("do"), "coordinates" := JArr([JInt(x), JInt(y)])];
    assert Lower("tap") == "tap";
    ParseNamedAction(n, "tap");
    ParseTap(f, x, y);
  }

  lemma ParseTap(f: Params, x: nat, y: nat)
    requires f == map["_metadata" := JStr("do"), "coordinates" := JArr([JInt(x), JInt(y)])]
    ensures ActionParse.ParseNamed("tap", f) == Ok(Tap(None, Some([x, y]), Some("")))
  {
    assert ActionParse.Aliases["tap"] == "tap";
    var k := ActionParse.Kwargs("tap", f);
    assert k == map["coordinates" := JArr([JInt(x), JInt(y)]), "index" := JNull, "reason" := JStr("")];
    PairList(x, y);
  }

  lemma NormaliseTap(name: string, x: nat, y: nat, n: Params)
    requires StandardName(name) == "tap"
    requires n == map["_metadata" := JStr("do"), "coordinates" := JArr([JInt(x), JInt(y)]), "action" := JStr("tap")]
    ensures Normalise(Do(map["action" := JStr(name), "element" := JArr([JInt(x), JInt(y)])])) == Ok(n)
  {
    var a := Do(map["action" := JStr(name), "element" := JArr([JInt(x), JInt(y)])]);
    assert FinishToDone(a) == a;
    var n1 := RenameElement(a);
    assert n1 == map["_metadata" := JStr("do"), "coordinates" := JArr([JInt(x), JInt(y)]), "action" := JStr(name)];
    assert n1["action" := JStr("tap")] == n;
    assert NormaliseName(n1) == Ok(n);
    assert MessageToReason(n) == n;
    assert Tail(n) == Ok(n);
  }

  lemma PairList(x: int, y: int)
    ensures IntList([JInt(x), JInt(y)]) == Some([x, y])
  {
    var s1 := [JInt(y)];
    assert s1[1..] == [];
    assert IntList(s1[1..]) == Some([]);
    assert IntValue(s1[0]) == Some(y);
    assert [y] + [] == [y];
    assert IntList(s1) == Some([y]);
    var s2 := [JInt(x), JInt(y)];
    assert s2[1..] == s1;
    assert IntValue(s2[0]) == Some(x);
    assert [x] + [y] == [x, y];
  }
}
