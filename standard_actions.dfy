/** The unified action vocabulary shared by the XML and vision kernels: one
    typed action per model class, the field validation the model classes
    perform, `parse_action` for both dictionary shapes, and the check on a
    sequence of actions. */
module StandardActions {
  import opened Util

  type Params = map<string, Json>

  /** One validated action. Optional fields are `Option`s; coordinates are
      normalised to 0..1000. */
  datatype Action =
    | Tap(index: Option<int>, coordinates: Option<seq<int>>, reason: Option<string>)
    | InputText(text: string, index: Option<int>, clear: bool, reason: Option<string>)
    | Swipe(direction: Option<string>, start: Option<seq<int>>, end: Option<seq<int>>, duration: int, reason: Option<string>)
    | LaunchApp(appName: string, reason: Option<string>)
    | LongPress(index: Option<int>, coordinates: Option<seq<int>>, duration: int, reason: Option<string>)
    | DoubleTap(index: Option<int>, coordinates: Option<seq<int>>, reason: Option<string>)
    | PressKey(key: string, reason: Option<string>)
    | Done(success: bool, message: string, data: Option<map<string, Json>>)
    | RecordImportantContent(content: string, category: Option<string>, reason: Option<string>)
    | GenerateOrUpdateTodos(todos: string, reason: Option<string>)
    | Drag(startIndex: Option<int>, endIndex: Option<int>, start: Option<seq<int>>, end: Option<seq<int>>, duration: int, reason: Option<string>)
    | Scroll(position: seq<int>, value: int, reason: Option<string>)
    | KeyEvent(key: string, reason: Option<string>)
    | Answer(answer: string, success: bool, data: Option<map<string, Json>>, reason: Option<string>)
    | AskUser(question: string, options: Option<seq<string>>, reason: Option<string>)
    | Wait(seconds: real, reason: Option<string>)
    | ReadClipboard(why: string)
    | WriteClipboard(text: string, why: string)

  const SwipeDirections := {"up", "down", "left", "right"}
  const PressKeys := {"back", "home", "recent"}

  /** The names of `ACTION_MODELS`. */
  const ActionNames := {"tap", "input_text", "swipe", "launch_app", "long_press", "double_tap",
                        "press_key", "drag", "scroll", "key_event", "answer", "ask_user", "done",
                        "record_important_content", "generate_or_update_todos", "wait",
                        "read_clipboard", "write_clipboard"}

  /** A rejected field (Pydantic's validation error). */
  const ValidationFailed := "validation error"
  const NeedIndexOrCoordinates := "必须提供index或coordinates之一"
  const NeedDirectionOrEnds := "必须提供direction或(start+end)"

  /** The invariants the model classes' validators establish. */
  predicate ValidTarget(index: Option<int>, coordinates: Option<seq<int>>) {
    (index.Some? || coordinates.Some?) && (coordinates.Some? ==> |coordinates.value| == 2)
  }

  predicate WellFormed(a: Action) {
    match a
    case Tap(index, coordinates, _) => ValidTarget(index, coordinates)
    case LongPress(index, coordinates, _, _) => ValidTarget(index, coordinates)
    case DoubleTap(index, coordinates, _) => ValidTarget(index, coordinates)
    case Swipe(direction, start, end, _, _) =>
      (direction.Some? ==> direction.value in SwipeDirections) && (direction.Some? || (start.Some? && end.Some?))
    case PressKey(key, _) => key in PressKeys
    case Wait(seconds, _) => seconds >= 0.0
    case _ => true
  }

  // ---------------------------------------------------------------------
  // Field decoding
  // ---------------------------------------------------------------------

  /** Pydantic's lax `int`: an integer, a boolean, or text holding a decimal
      integer with an optional sign and surrounding white space. */
  function LaxInt(j: Json): (r: Option<int>)
    ensures j.JInt? ==> r == Some(j.i)
    ensures j.JBool? ==> r == Some(if j.b then 1 else 0)
    ensures j.JStr? ==> r == ParseInt(j.s)
    ensures j.JNull? || j.JArr? || j.JObj? ==> r.None?
  {
    match j
    case JInt(i) => Some(i)
    case JBool(b) => Some(if b then 1 else 0)
    case JStr(s) => ParseInt(s)
    case _ => None
  }

  /** A printed integer passes the lax `int` check as itself. */
  lemma LaxIntReadsPrinted(i: int)
    ensures LaxInt(JStr(IntToString(i))) == Some(i)
  {
    ParseIntOfIntToString(i);
  }

  /** The texts Pydantic's lax `bool` reads, compared in lower case. */
  const TrueWords := {"1", "on", "t", "true", "y", "yes"}
  const FalseWords := {"0", "off", "f", "false", "n", "no"}

  /** Pydantic's lax `bool`: a boolean, the integers 0 and 1, or one of the
      yes/no words in any case. */
  function LaxBool(j: Json): (r: Option<bool>)
    ensures j.JBool? ==> r == Some(j.b)
    ensures j.JInt? ==> (r.Some? <==> j.i == 0 || j.i == 1) && (r.Some? ==> r.value == (j.i == 1))
    ensures j.JStr? ==> (r == Some(true) <==> Lower(j.s) in TrueWords) && (r == Some(false) <==> Lower(j.s) in FalseWords)
    ensures j.JNull? || j.JArr? || j.JObj? ==> r.None?
  {
    match j
    case JBool(b) => Some(b)
    case JInt(i) => if i == 0 then Some(false) else if i == 1 then Some(true) else None
    case JStr(s) => if Lower(s) in TrueWords then Some(true) else if Lower(s) in FalseWords then Some(false) else None
    case _ => None
  }

  /** Spellings that agree after lower-casing are read alike. */
  lemma LaxBoolIgnoresCase(a: string, b: string)
    requires Lower(a) == Lower(b)
    ensures LaxBool(JStr(a)) == LaxBool(JStr(b))
  {
  }

  /** Pydantic's lax `float`: an integer, a boolean, or decimal text with
      surrounding white space. */
  function LaxFloat(j: Json): (r: Option<real>)
    ensures j.JInt? ==> r == Some(j.i as real)
    ensures j.JStr? ==> r == DecimalValue(Strip(j.s))
    ensures j.JNull? || j.JArr? || j.JObj? ==> r.None?
  {
    match j
    case JInt(i) => Some(i as real)
    case JBool(b) => Some(if b then 1.0 else 0.0)
    case JStr(s) => DecimalValue(Strip(s))
    case _ => None
  }

  /** A field of type `Optional[int]`: absent or null is `None`. */
  function OptInt(p: Params, k: string): (r: Result<Option<int>>)
    ensures (k !in p || p[k] == JNull) ==> r == Ok(None)
    ensures k in p && p[k] != JNull ==> (r.Ok? <==> LaxInt(p[k]).Some?) && (r.Ok? ==> r.value == LaxInt(p[k]))
  {
    if k !in p || p[k] == JNull then Ok(None)
    else match LaxInt(p[k])
      case Some(i) => Ok(Some(i))
      case None => Err(ValidationFailed)
  }

  /** A field of type `int` with a default. */
  function IntWithDefault(p: Params, k: string, default: int): (r: Result<int>)
    ensures k !in p ==> r == Ok(default)
    ensures k in p ==> (r.Ok? <==> LaxInt(p[k]).Some?) && (r.Ok? ==> LaxInt(p[k]) == Some(r.value))
  {
    if k !in p then Ok(default)
    else match LaxInt(p[k])
      case Some(i) => Ok(i)
      case None => Err(ValidationFailed)
  }

  /** A required `int` field. */
  function RequiredInt(p: Params, k: string): (r: Result<int>)
    ensures r.Ok? <==> k in p && LaxInt(p[k]).Some?
    ensures r.Ok? ==> LaxInt(p[k]) == Some(r.value)
  {
    if k !in p then Err(ValidationFailed)
    else match LaxInt(p[k])
      case Some(i) => Ok(i)
      case None => Err(ValidationFailed)
  }

  /** A required `str` field. */
  function RequiredStr(p: Params, k: string): (r: Result<string>)
    ensures r.Ok? <==> k in p && p[k].JStr?
    ensures r.Ok? ==> r.value == p[k].s
  {
    if k in p && p[k].JStr? then Ok(p[k].s) else Err(ValidationFailed)
  }

  /** A field of type `Optional[str]`. */
  function OptStr(p: Params, k: string): (r: Result<Option<string>>)
    ensures (k !in p || p[k] == JNull) ==> r == Ok(None)
    ensures k in p && p[k].JStr? ==> r == Ok(Some(p[k].s))
    ensures r.Ok? <==> k !in p || p[k] == JNull || p[k].JStr?
  {
    if k !in p || p[k] == JNull then Ok(None)
    else if p[k].JStr? then Ok(Some(p[k].s))
    else Err(ValidationFailed)
  }

  /** A field of type `bool` with a default. */
  function BoolWithDefault(p: Params, k: string, default: bool): (r: Result<bool>)
    ensures k !in p ==> r == Ok(default)
    ensures k in p ==> (r.Ok? <==> LaxBool(p[k]).Some?) && (r.Ok? ==> LaxBool(p[k]) == Some(r.value))
  {
    if k !in p then Ok(default)
    else match LaxBool(p[k])
      case Some(b) => Ok(b)
      case None => Err(ValidationFailed)
  }

  /** The integers of a JSON list, if every item passes the lax `int` check. */
  function IntList(items: seq<Json>): (r: Option<seq<int>>)
    ensures r.Some? <==> forall i :: 0 <= i < |items| ==> LaxInt(items[i]).Some?
    ensures r.Some? ==> |r.value| == |items| && forall i :: 0 <= i < |items| ==> LaxInt(items[i]) == Some(r.value[i])
  {
    if items == [] then Some([])
    else
      var rest := IntList(items[1..]);
      assert forall i :: 1 <= i < |items| ==> items[i] == items[1..][i - 1];
      match (LaxInt(items[0]), rest)
      case (Some(i), Some(tail)) => Some([i] + tail)
      case _ => None
  }

  /** A field of type `Optional[List[int]]`. */
  function OptIntList(p: Params, k: string): (r: Result<Option<seq<int>>>)
    ensures (k !in p || p[k] == JNull) ==> r == Ok(None)
    ensures k in p && p[k] != JNull ==> (r.Ok? <==> p[k].JArr? && IntList(p[k].items).Some?)
    ensures r.Ok? && r.value.Some? ==> k in p && p[k].JArr? && IntList(p[k].items) == Some(r.value.value)
  {
    if k !in p || p[k] == JNull then Ok(None)
    else if !p[k].JArr? then Err(ValidationFailed)
    else match IntList(p[k].items)
      case Some(v) => Ok(Some(v))
      case None => Err(ValidationFailed)
  }

  /** A field of type `Optional[List[str]]`. */
  function OptStrList(p: Params, k: string): Result<Option<seq<string>>> {
    if k !in p || p[k] == JNull then Ok(None)
    else if p[k].JArr? && forall i :: 0 <= i < |p[k].items| ==> p[k].items[i].JStr? then
      Ok(Some(seq(|p[k].items|, i requires 0 <= i < |p[k].items| && p[k].items[i].JStr? => p[k].items[i].s)))
    else Err(ValidationFailed)
  }

  /** A field of type `Optional[Dict[str, Any]]`. */
  function OptDict(p: Params, k: string): Result<Option<map<string, Json>>> {
    if k !in p || p[k] == JNull then Ok(None)
    else if p[k].JObj? then Ok(Some(p[k].fields))
    else Err(ValidationFailed)
  }

  /** A field of type `Optional[Literal[...]]`. */
  function OptLiteral(p: Params, k: string, allowed: set<string>): (r: Result<Option<string>>)
    ensures r.Ok? <==> k !in p || p[k] == JNull || (p[k].JStr? && p[k].s in allowed)
    ensures r.Ok? && r.value.Some? <==> k in p && p[k].JStr? && p[k].s in allowed
    ensures r.Ok? && r.value.Some? ==> r.value.value == p[k].s
  {
    if k !in p || p[k] == JNull then Ok(None)
    else if p[k].JStr? && p[k].s in allowed then Ok(Some(p[k].s))
    else Err(ValidationFailed)
  }

  // ---------------------------------------------------------------------
  // The model classes
  // ---------------------------------------------------------------------

  /** The coordinates validator and the "index or coordinates" check shared
      by tap, long-press and double-tap. */
  function CheckTarget(index: Option<int>, coordinates: Option<seq<int>>): (r: Result<()>)
    ensures r.Ok? <==> ValidTarget(index, coordinates)
    ensures coordinates.Some? && |coordinates.value| != 2 ==> r == Err(ValidationFailed)
    ensures coordinates.None? && index.None? ==> r == Err(NeedIndexOrCoordinates)
  {
    if coordinates.Some? && |coordinates.value| != 2 then Err(ValidationFailed)
    else if index.None? && coordinates.None? then Err(NeedIndexOrCoordinates)
    else Ok(())
  }

  function TapFrom(p: Params): (r: Result<Action>)
    ensures r.Ok? <==> OptInt(p, "index").Ok? && OptIntList(p, "coordinates").Ok? && OptStr(p, "reason").Ok?
                       && ValidTarget(OptInt(p, "index").value, OptIntList(p, "coordinates").value)
    ensures r.Ok? ==> r.value.Tap? && WellFormed(r.value)
    ensures OptInt(p, "index") == Ok(None) && OptIntList(p, "coordinates") == Ok(None) && OptStr(p, "reason").Ok? ==>
              r == Err(NeedIndexOrCoordinates)
    ensures r.Ok? ==> OptInt(p, "index") == Ok(r.value.index) && OptIntList(p, "coordinates") == Ok(r.value.coordinates)
                      && OptStr(p, "reason") == Ok(r.value.reason)
  {
    var index :- OptInt(p, "index");
    var coordinates :- OptIntList(p, "coordinates");
    var reason :- OptStr(p, "reason");
    var _ :- CheckTarget(index, coordinates);
    Ok(Tap(index, coordinates, reason))
  }

  function InputTextFrom(p: Params): (r: Result<Action>)
    ensures r.Ok? ==> r.value.InputText?
  {
    var text :- RequiredStr(p, "text");
    var index :- OptInt(p, "index");
    var clear :- BoolWithDefault(p, "clear", true);
    var reason :- OptStr(p, "reason");
    Ok(InputText(text, index, clear, reason))
  }

  function SwipeFrom(p: Params): (r: Result<Action>)
    ensures r.Ok? <==> OptLiteral(p, "direction", SwipeDirections).Ok? && OptIntList(p, "start").Ok? && OptIntList(p, "end").Ok?
                       && IntWithDefault(p, "duration", 200).Ok? && OptStr(p, "reason").Ok?
                       && (OptLiteral(p, "direction", SwipeDirections).value.Some?
                           || (OptIntList(p, "start").value.Some? && OptIntList(p, "end").value.Some?))
    ensures r.Ok? ==> r.value.Swipe? && WellFormed(r.value)
    ensures (OptLiteral(p, "direction", SwipeDirections) == Ok(None) && OptIntList(p, "start").Ok? && OptIntList(p, "end").Ok?
             && IntWithDefault(p, "duration", 200).Ok? && OptStr(p, "reason").Ok?
             && (OptIntList(p, "start") == Ok(None) || OptIntList(p, "end") == Ok(None)))
            ==> r == Err(NeedDirectionOrEnds)
    ensures r.Ok? ==> OptLiteral(p, "direction", SwipeDirections) == Ok(r.value.direction)
                      && OptIntList(p, "start") == Ok(r.value.start) && OptIntList(p, "end") == Ok(r.value.end)
                      && IntWithDefault(p, "duration", 200) == Ok(r.value.duration) && OptStr(p, "reason") == Ok(r.value.reason)
  {
    var direction :- OptLiteral(p, "direction", SwipeDirections);
    var start :- OptIntList(p, "start");
    var end :- OptIntList(p, "end");
    var duration :- IntWithDefault(p, "duration", 200);
    var reason :- OptStr(p, "reason");
    if direction.None? && (start.None? || end.None?) then Err(NeedDirectionOrEnds)
    else Ok(Swipe(direction, start, end, duration, reason))
  }

  function LaunchAppFrom(p: Params): (r: Result<Action>)
    ensures r.Ok? ==> r.value.LaunchApp?
  {
    var appName :- RequiredStr(p, "app_name");
    var reason :- OptStr(p, "reason");
    Ok(LaunchApp(appName, reason))
  }

  function LongPressFrom(p: Params): (r: Result<Action>)
    ensures r.Ok? <==> OptInt(p, "index").Ok? && OptIntList(p, "coordinates").Ok? && IntWithDefault(p, "duration", 1000).Ok?
                       && OptStr(p, "reason").Ok? && ValidTarget(OptInt(p, "index").value, OptIntList(p, "coordinates").value)
    ensures r.Ok? ==> r.value.LongPress? && WellFormed(r.value)
    ensures r.Ok? ==> OptInt(p, "index") == Ok(r.value.index) && OptIntList(p, "coordinates") == Ok(r.value.coordinates)
                      && IntWithDefault(p, "duration", 1000) == Ok(r.value.duration) && OptStr(p, "reason") == Ok(r.value.reason)
  {
    var index :- OptInt(p, "index");
    var coordinates :- OptIntList(p, "coordinates");
    var duration :- IntWithDefault(p, "duration", 1000);
    var reason :- OptStr(p, "reason");
    var _ :- CheckTarget(index, coordinates);
    Ok(LongPress(index, coordinates, duration, reason))
  }

  function DoubleTapFrom(p: Params): (r: Result<Action>)
    ensures r.Ok? <==> OptInt(p, "index").Ok? && OptIntList(p, "coordinates").Ok? && OptStr(p, "reason").Ok?
                       && ValidTarget(OptInt(p, "index").value, OptIntList(p, "coordinates").value)
    ensures r.Ok? ==> r.value.DoubleTap? && WellFormed(r.value)
    ensures r.Ok? ==> OptInt(p, "index") == Ok(r.value.index) && OptIntList(p, "coordinates") == Ok(r.value.coordinates)
                      && OptStr(p, "reason") == Ok(r.value.reason)
  {
    var index :- OptInt(p, "index");
    var coordinates :- OptIntList(p, "coordinates");
    var reason :- OptStr(p, "reason");
    var _ :- CheckTarget(index, coordinates);
    Ok(DoubleTap(index, coordinates, reason))
  }

  function PressKeyFrom(p: Params): (r: Result<Action>)
    ensures r.Ok? <==> "key" in p && p["key"].JStr? && p["key"].s in PressKeys && OptStr(p, "reason").Ok?
    ensures r.Ok? ==> r.value.PressKey? && WellFormed(r.value)
  {
    if !("key" in p && p["key"].JStr? && p["key"].s in PressKeys) then Err(ValidationFailed)
    else
      var reason :- OptStr(p, "reason");
      Ok(PressKey(p["key"].s, reason))
  }

  function DoneFrom(p: Params): (r: Result<Action>)
    ensures r.Ok? ==> r.value.Done?
  {
    var success :- BoolWithDefault(p, "success", true);
    var message :- RequiredStr(p, "message");
    var data :- OptDict(p, "data");
    Ok(Done(success, message, data))
  }

  function RecordFrom(p: Params): (r: Result<Action>)
    ensures r.Ok? ==> r.value.RecordImportantContent?
  {
    var content :- RequiredStr(p, "content");
    var category :- OptStr(p, "category");
    var reason :- OptStr(p, "reason");
    Ok(RecordImportantContent(content, category, reason))
  }

  function TodosFrom(p: Params): (r: Result<Action>)
    ensures r.Ok? ==> r.value.GenerateOrUpdateTodos?
  {
    var todos :- RequiredStr(p, "todos");
    var reason :- OptStr(p, "reason");
    Ok(GenerateOrUpdateTodos(todos, reason))
  }

  function DragFrom(p: Params): (r: Result<Action>)
    ensures r.Ok? <==> OptInt(p, "start_index").Ok? && OptInt(p, "end_index").Ok? && OptIntList(p, "start").Ok?
                       && OptIntList(p, "end").Ok? && IntWithDefault(p, "duration", 500).Ok? && OptStr(p, "reason").Ok?
    ensures r.Ok? ==> r.value.Drag?
    ensures r.Ok? ==> OptInt(p, "start_index") == Ok(r.value.startIndex) && OptInt(p, "end_index") == Ok(r.value.endIndex)
                      && OptIntList(p, "start") == Ok(r.value.start) && OptIntList(p, "end") == Ok(r.value.end)
                      && IntWithDefault(p, "duration", 500) == Ok(r.value.duration) && OptStr(p, "reason") == Ok(r.value.reason)
  {
    var startIndex :- OptInt(p, "start_index");
    var endIndex :- OptInt(p, "end_index");
    var start :- OptIntList(p, "start");
    var end :- OptIntList(p, "end");
    var duration :- IntWithDefault(p, "duration", 500);
    var reason :- OptStr(p, "reason");
    Ok(Drag(startIndex, endIndex, start, end, duration, reason))
  }

  function ScrollFrom(p: Params): (r: Result<Action>)
    ensures r.Ok? ==> r.value.Scroll?
  {
    var position :- OptIntList(p, "coordinates");
    var value :- RequiredInt(p, "value");
    var reason :- OptStr(p, "reason");
    if position.None? then Err(ValidationFailed)
    else Ok(Scroll(position.value, value, reason))
  }

  function KeyEventFrom(p: Params): (r: Result<Action>)
    ensures r.Ok? ==> r.value.KeyEvent?
  {
    var key :- RequiredStr(p, "key");
    var reason :- OptStr(p, "reason");
    Ok(KeyEvent(key, reason))
  }

  function AnswerFrom(p: Params): (r: Result<Action>)
    ensures r.Ok? ==> r.value.Answer?
  {
    var answer :- RequiredStr(p, "answer");
    var success :- BoolWithDefault(p, "success", true);
    var data :- OptDict(p, "data");
    var reason :- OptStr(p, "reason");
    Ok(Answer(answer, success, data, reason))
  }

  function AskUserFrom(p: Params): (r: Result<Action>)
    ensures r.Ok? ==> r.value.AskUser?
  {
    var question :- RequiredStr(p, "question");
    var options :- OptStrList(p, "options");
    var reason :- OptStr(p, "reason");
    Ok(AskUser(question, options, reason))
  }

  /** `WaitAction(seconds=..., reason=...)`: the seconds must not be negative. */
  function MakeWait(seconds: real, reason: Json): (r: Result<Action>)
    ensures r.Ok? <==> seconds >= 0.0 && (reason == JNull || reason.JStr?)
    ensures r.Ok? ==> r.value == Wait(seconds, if reason.JStr? then Some(reason.s) else None)
  {
    if seconds < 0.0 then Err(ValidationFailed)
    else if reason == JNull then Ok(Wait(seconds, None))
    else if reason.JStr? then Ok(Wait(seconds, Some(reason.s)))
    else Err(ValidationFailed)
  }

  function WaitFrom(p: Params): (r: Result<Action>)
    ensures r.Ok? ==> r.value.Wait? && r.value.seconds >= 0.0
    ensures r.Ok? && "seconds" in p ==> LaxFloat(p["seconds"]) == Some(r.value.seconds)
    ensures "seconds" !in p && ("reason" !in p || p["reason"] == JNull) ==> r == Ok(Wait(3.0, None))
  {
    var seconds :- if "seconds" !in p then Ok(3.0)
                   else match LaxFloat(p["seconds"])
                     case Some(v) => Ok(v)
                     case None => Err(ValidationFailed);
    MakeWait(seconds, Get(p, "reason", JNull))
  }

  function ReadClipboardFrom(p: Params): (r: Result<Action>)
    ensures r.Ok? ==> r.value.ReadClipboard?
  {
    var why :- RequiredStr(p, "reason");
    Ok(ReadClipboard(why))
  }

  function WriteClipboardFrom(p: Params): (r: Result<Action>)
    ensures r.Ok? ==> r.value.WriteClipboard?
  {
    var text :- RequiredStr(p, "text");
    var why :- RequiredStr(p, "reason");
    Ok(WriteClipboard(text, why))
  }

  /** The `ACTION_MODELS` name of the class an action belongs to. */
  function KindName(a: Action): (r: string)
    ensures r in ActionNames
  {
    match a
    case Tap(_, _, _) => "tap"
    case InputText(_, _, _, _) => "input_text"
    case Swipe(_, _, _, _, _) => "swipe"
    case LaunchApp(_, _) => "launch_app"
    case LongPress(_, _, _, _) => "long_press"
    case DoubleTap(_, _, _) => "double_tap"
    case PressKey(_, _) => "press_key"
    case Done(_, _, _) => "done"
    case RecordImportantContent(_, _, _) => "record_important_content"
    case GenerateOrUpdateTodos(_, _) => "generate_or_update_todos"
    case Drag(_, _, _, _, _, _) => "drag"
    case Scroll(_, _, _) => "scroll"
    case KeyEvent(_, _) => "key_event"
    case Answer(_, _, _, _) => "answer"
    case AskUser(_, _, _) => "ask_user"
    case Wait(_, _) => "wait"
    case ReadClipboard(_) => "read_clipboard"
    case WriteClipboard(_, _) => "write_clipboard"
  }

  /** `ACTION_MODELS[name](**p)`: the model class the name selects, built from
      the keyword arguments (unknown keys are ignored). */
  function Build(name: string, p: Params): (r: Result<Action>)
    ensures name !in ActionNames ==> r == Err("Unknown action: " + name)
    ensures r.Ok? ==> WellFormed(r.value) && name in ActionNames
    ensures r.Ok? ==> KindName(r.value) == name
  {
    if name !in ActionNames then Err("Unknown action: " + name)
    else match name
    case "tap" => TapFrom(p)
    case "input_text" => InputTextFrom(p)
    case "swipe" => SwipeFrom(p)
    case "launch_app" => LaunchAppFrom(p)
    case "long_press" => LongPressFrom(p)
    case "double_tap" => DoubleTapFrom(p)
    case "press_key" => PressKeyFrom(p)
    case "drag" => DragFrom(p)
    case "scroll" => ScrollFrom(p)
    case "key_event" => KeyEventFrom(p)
    case "answer" => AnswerFrom(p)
    case "ask_user" => AskUserFrom(p)
    case "done" => DoneFrom(p)
    case "record_important_content" => RecordFrom(p)
    case "generate_or_update_todos" => TodosFrom(p)
    case "wait" => WaitFrom(p)
    case "read_clipboard" => ReadClipboardFrom(p)
    case "write_clipboard" => WriteClipboardFrom(p)
    case _ => Err("Unknown action: " + name)
  }

  // ---------------------------------------------------------------------
  // parse_action
  // ---------------------------------------------------------------------

  /** The XML kernel's action names and the model each maps to. */
  const XmlNames: map<string, string> :=
    map["tap" := "tap", "type" := "input_text", "swipe" := "swipe", "launch" := "launch_app",
        "long_press" := "long_press", "double_tap" := "double_tap", "back" := "press_key",
        "home" := "press_key", "drag" := "drag", "scroll" := "scroll", "key_event" := "key_event",
        "answer" := "answer", "ask_user" := "ask_user",
        "record_important_content" := "record_important_content",
        "generate_or_update_todos" := "generate_or_update_todos", "wait" := "wait", "done" := "done"]

  /** The keyword arguments of the flat XML-kernel shape after its special
      cases: back/home gain their key, launch's `app` becomes `app_name`, and
      done gets a message from `reason` or the default text. */
  function XmlParams(name: string, params: Params): (r: Params)
    ensures name in {"back", "home"} ==> "key" in r && r["key"] == JStr(name)
    ensures name == "launch" && "app" in params ==> "app_name" in r && r["app_name"] == params["app"] && "app" !in r
    ensures name == "done" ==> "message" in r
    ensures name == "done" && "message" in params ==> r["message"] == params["message"]
    ensures name == "done" && "message" !in params && "reason" in params ==> r["message"] == params["reason"]
    ensures name == "done" && "message" !in params && "reason" !in params ==> r["message"] == JStr("任务完成")
    ensures forall k :: k in params && k !in {"key", "app", "app_name", "message", "reason"} ==> k in r && r[k] == params[k]
  {
    var withKey := if name in {"back", "home"} then params["key" := JStr(name)] else params;
    var withApp := if name == "launch" && "app" in withKey then (withKey - {"app"})["app_name" := withKey["app"]] else withKey;
    if name == "done" then
      if "message" !in withApp && "reason" in withApp then (withApp - {"reason"})["message" := withApp["reason"]]
      else if "message" !in withApp then withApp["message" := JStr("任务完成")]
      else withApp
    else withApp
  }

  lemma SingleKey(m: Params, a: string, b: string)
    requires |m| == 1 && a in m && b in m
    ensures a == b
  {
    if a != b {
      assert |{a, b}| == 2;
      SubsetCard({a, b}, m.Keys);
    }
  }

  /** A one-entry dictionary has exactly one key. */
  lemma OnlyKey(m: Params)
    requires |m| == 1
    ensures m.Keys != {} && forall a, b :: a in m && b in m ==> a == b
  {
    forall a, b | a in m && b in m ensures a == b { SingleKey(m, a, b); }
  }

  lemma SubsetCard(a: set<string>, b: set<string>)
    requires a <= b
    ensures |a| <= |b|
  {
    assert b == a + (b - a);
  }

  /** `parse_action`: the flat shape `{"action": name, ...}` or the nested
      shape `{name: {...}}`. */
  function ParseAction(d: Json): (r: Result<Action>)
    ensures r.Ok? ==> WellFormed(r.value)
    ensures !d.JObj? ==> r == Err("Invalid action format")
    ensures d.JObj? && "action" in d.fields && !(d.fields["action"].JStr? && d.fields["action"].s in XmlNames) ==>
              r.Err? && StartsWith(r.msg, "Unknown XML Kernel action")
    ensures r.Ok? && d.JObj? && "action" !in d.fields ==>
              |d.fields| == 1 && (exists k :: k in d.fields && k in ActionNames && d.fields[k].JObj?)
  {
    if !d.JObj? then Err("Invalid action format")
    else
      var m := d.fields;
      if "action" in m then
        var name := m["action"];
        if !(name.JStr? && name.s in XmlNames) then Err("Unknown XML Kernel action: " + ShownName(name))
        else Build(XmlNames[name.s], XmlParams(name.s, m - {"action"}))
      else if |m| != 1 then Err("Invalid action format")
      else
        OnlyKey(m);
        var k :| k in m;
        if k !in ActionNames then Err("Unknown action: " + k)
        else if !m[k].JObj? then Err(ValidationFailed)
        else Build(k, m[k].fields)
  }

  /** The text a non-string action name shows in an error (empty for compound values). */
  function ShownName(j: Json): string {
    match j
    case JStr(s) => s
    case JInt(i) => IntToString(i)
    case JBool(b) => if b then "True" else "False"
    case JNull => "None"
    case _ => ""
  }

  // ---------------------------------------------------------------------
  // Lemmas on the XML-kernel mapping
  // ---------------------------------------------------------------------

  /** `{"action": "type", "text": t}` is an input of `t`. */
  lemma XmlTypeIsInputText(t: string)
    ensures ParseAction(JObj(map["action" := JStr("type"), "text" := JStr(t)])) == Ok(InputText(t, None, true, None))
  {
    var m := map["action" := JStr("type"), "text" := JStr(t)];
    assert m - {"action"} == map["text" := JStr(t)];
  }

  /** back and home become a key press with that key. */
  lemma XmlBackHomeArePressKey(m: Params)
    requires "action" in m && m["action"] in {JStr("back"), JStr("home")}
    requires "reason" !in m
    ensures ParseAction(JObj(m)) == Ok(PressKey(m["action"].s, None))
  {
    var p := XmlParams(m["action"].s, m - {"action"});
    assert "key" in p && p["key"] == m["action"];
    assert "reason" !in p;
  }

  /** launch takes its app from `app`, which replaces any `app_name`. */
  lemma XmlLaunchRenamesApp(m: Params, app: string)
    requires "action" in m && m["action"] == JStr("launch") && "app" in m && m["app"] == JStr(app)
    requires "reason" !in m
    ensures ParseAction(JObj(m)) == Ok(LaunchApp(app, None))
  {
    var p := XmlParams("launch", m - {"action"});
    assert "app_name" in p && p["app_name"] == JStr(app);
    assert "reason" !in p;
  }

  /** done without a message uses the reason, else the default text. */
  lemma XmlDoneMessage(m: Params)
    requires "action" in m && m["action"] == JStr("done") && "message" !in m
    requires "success" !in m && "data" !in m
    ensures "reason" in m && m["reason"].JStr? ==> ParseAction(JObj(m)) == Ok(Done(true, m["reason"].s, None))
    ensures "reason" !in m ==> ParseAction(JObj(m)) == Ok(Done(true, "任务完成", None))
  {
    var p := XmlParams("done", m - {"action"});
    assert "success" !in p && "data" !in p;
  }

  /** Names the XML kernel does not use (such as `press_key` itself) are refused in the flat shape. */
  lemma XmlRefusesStandardOnlyNames(m: Params)
    requires "action" in m && m["action"] in {JStr("press_key"), JStr("input_text"), JStr("launch_app"), JStr("read_clipboard")}
    ensures ParseAction(JObj(m)).Err?
  {
    assert m["action"].s !in XmlNames;
  }

  // ---------------------------------------------------------------------
  // validate_action_sequence
  // ---------------------------------------------------------------------

  /** `validate_action_sequence`: a non-empty list in which a done action stands alone. */
  function ValidateActionSequence(actions: seq<Action>): (r: Result<bool>)
    ensures r.Ok? ==> r.value
    ensures r.Ok? <==> |actions| > 0 && ((exists i :: 0 <= i < |actions| && actions[i].Done?) ==> |actions| == 1)
    ensures |actions| == 0 ==> r == Err("动作列表不能为空")
  {
    if |actions| == 0 then Err("动作列表不能为空")
    else if HasDone(actions) && |actions| > 1 then Err("done动作必须是唯一的动作，不能与其他动作组合")
    else Ok(true)
  }

  /** `any(isinstance(a, DoneAction) for a in actions)`. */
  function HasDone(actions: seq<Action>): (r: bool)
    ensures r <==> exists i :: 0 <= i < |actions| && actions[i].Done?
  {
    if actions == [] then false
    else if actions[0].Done? then true
    else
      var rest := HasDone(actions[1..]);
      assert forall i :: 1 <= i < |actions| ==> actions[i] == actions[1..][i - 1];
      assert rest ==> exists i :: 0 <= i < |actions| && actions[i].Done? by {
        if rest {
          var i :| 0 <= i < |actions[1..]| && actions[1..][i].Done?;
          assert actions[i + 1].Done?;
        }
      }
      rest
  }
}
