/** The standard action executor: it turns a typed action into device
    gestures (taps, swipes, key presses, text input) on a screen of known
    size, resolving element indices through the current element list, and
    records important content and to-do lists on the running task. */
module ActionExecutor {
  import opened Util
  import opened StandardActions

  /** The geometry an element offers: a bounds box, a bare centre, or neither. */
  datatype ElementGeom =
    | WithBounds(left: int, top: int, right: int, bottom: int)
    | WithCenter(cx: int, cy: int)
    | NoGeometry

  /** One call made on the device. */
  datatype Gesture =
    | TapAt(x: int, y: int)
    | SwipeAlong(x1: int, y1: int, x2: int, y2: int, durationMs: int)
    | LongPressAt(x: int, y: int, durationMs: int)
    | DoubleTapAt(x: int, y: int)
    | BackKey
    | HomeKey
    | AppSwitchKey
    | KeyCode(code: string)
    | TypeText(text: string)
    | Launch(appName: string)
    | ReadClip
    | WriteClip(text: string)

  /** What the device answers to one call: it went through, it reported
      failure (`False` or `None`), it raised (`RuntimeError` or another
      exception), or it returned clipboard text. */
  datatype DeviceAnswer = Performed | Declined | Raised(runtime: bool, msg: string) | Content(text: string)

  /** The result dictionary, by its shape. */
  datatype Reply =
    | Succeeded(action: string, points: seq<(int, int)>)
    | Failed(message: string)
    | Finished(success: bool, message: string)
    | Question(question: string, options: Option<seq<string>>)
    | Clipboard(content: string)

  /** An entry of `task.important_content` (its timestamp is not modelled). */
  datatype Record = Record(content: string, category: string, reason: Option<string>)

  /** What an action does to the task. */
  datatype TaskEffect = Untouched | Append(record: Record) | Replace(todos: string)

  predicate Success(r: Reply) {
    r.Succeeded? || r.Clipboard? || (r.Finished? && r.success)
  }

  const ExecutionError := "Execution error: "
  const IndexErrorText := "list index out of range"

  /** `int(c / 1000 * size)`: a normalised coordinate (0-1000) in pixels. */
  function Pixel(c: int, size: int): int {
    TruncDiv(c * size, 1000)
  }

  /** The element centre: the middle of its bounds (floor division), or its centre. */
  function Centre(g: ElementGeom): (r: Option<(int, int)>)
    ensures r.None? <==> g.NoGeometry?
  {
    match g
    case WithBounds(l, t, r, b) => Some(((l + r) / 2, (t + b) / 2))
    case WithCenter(x, y) => Some((x, y))
    case NoGeometry => None
  }

  /** The scroll end point: `|value| * 100` pixels up for positive values (not
      above 0), down otherwise (not below the screen height). */
  function ScrollEnd(y: int, value: int, height: int): int {
    var offset := (if value < 0 then -value else value) * 100;
    if value > 0 then (if y - offset < 0 then 0 else y - offset)
    else (if y + offset > height then height else y + offset)
  }

  /** The key names `_execute_key_event` maps to key codes; others pass through. */
  const KeyMap: map<string, string> :=
    map["volume_up" := "KEYCODE_VOLUME_UP", "volume_down" := "KEYCODE_VOLUME_DOWN",
        "power" := "KEYCODE_POWER", "camera" := "KEYCODE_CAMERA", "clear" := "KEYCODE_CLEAR",
        "menu" := "KEYCODE_MENU", "search" := "KEYCODE_SEARCH"]

  /** A named key becomes its `KEYCODE_` name; anything else is sent as given. */
  function KeyCodeFor(key: string): (code: string)
    ensures key in KeyMap ==> StartsWith(code, "KEYCODE_")
    ensures key !in KeyMap ==> code == key
  {
    if key in KeyMap then KeyCodePrefixed(key); KeyMap[key] else key
  }

  lemma KeyCodePrefixed(key: string)
    requires key in KeyMap
    ensures StartsWith(KeyMap[key], "KEYCODE_")
  {
  }

  /** The reply when a device call is not caught locally: an exception
      reaches `execute`, which reports it as an execution error. */
  function Uncaught(answer: DeviceAnswer, ok: Reply): Reply {
    if answer.Raised? then Failed(ExecutionError + answer.msg) else ok
  }

  class Executor {
    const screenWidth: int
    const screenHeight: int
    const elements: seq<ElementGeom>
    /** The task is present, and whether an execution callback takes the
        records and the to-do lists instead of the task. */
    const hasTask: bool
    const recordCallback: bool
    const todosCallback: bool

    /** The device calls made so far, in order. */
    var sent: seq<Gesture>
    /** `task.important_content` and `task.todos`. */
    var importantContent: seq<Record>
    var todos: Option<string>

    constructor (width: int, height: int, elems: seq<ElementGeom>, task: bool, onRecord: bool, onTodos: bool)
      ensures screenWidth == width && screenHeight == height && elements == elems
      ensures hasTask == task && recordCallback == onRecord && todosCallback == onTodos
      ensures sent == [] && importantContent == [] && todos == None
    {
      screenWidth := width;
      screenHeight := height;
      elements := elems;
      hasTask := task;
      recordCallback := onRecord;
      todosCallback := onTodos;
      sent := [];
      importantContent := [];
      todos := None;
    }

    // -------------------------------------------------------------------
    // Coordinates
    // -------------------------------------------------------------------

    /** The point an index-mode action aims at: the centre of element `i`,
        which must be in range and have a geometry. */
    function IndexPoint(i: int): (r: Result<(int, int)>)
      ensures r.Ok? <==> 0 <= i < |elements| && Centre(elements[i]).Some?
      ensures r.Ok? ==> r.value == Centre(elements[i]).value
    {
      if 0 <= i < |elements| then
        match Centre(elements[i])
        case Some(p) => Ok(p)
        case None => Err("Element " + IntToString(i) + " has no bounds/center")
      else Err("Index " + IntToString(i) + " out of range (max: " + IntToString(|elements| - 1) + ")")
    }

    /** The index resolution as written: any index below the element count
        passes the range check, so Python's negative indexing applies and an
        index below `-len` raises. */
    function IndexPointAsWritten(i: int): Result<(int, int)> {
      if i < |elements| then
        if i >= 0 || i >= -|elements| then
          var k := if i >= 0 then i else |elements| + i;
          match Centre(elements[k])
          case Some(p) => Ok(p)
          case None => Err("Element " + IntToString(i) + " has no bounds/center")
        else Err(ExecutionError + IndexErrorText)
      else Err("Index " + IntToString(i) + " out of range (max: " + IntToString(|elements| - 1) + ")")
    }

    /** The pixel point of a tap-like action: non-empty coordinates first,
        then the index, else the action is refused with `what` in the text. */
    function Target(coordinates: Option<seq<int>>, index: Option<int>, what: string): Result<(int, int)> {
      if coordinates.Some? && coordinates.value != [] then
        var c := coordinates.value;
        if |c| < 2 then Err(ExecutionError + IndexErrorText)
        else Ok((Pixel(c[0], screenWidth), Pixel(c[1], screenHeight)))
      else if index.Some? then IndexPoint(index.value)
      else Err(NoTarget(what))
    }

    /** The refusal of a tap-like action that has neither coordinates nor an index. */
    static function NoTarget(what: string): string {
      what + " action must have either coordinates or index"
    }

    /** `_direction_to_coordinates`: a swipe through the central 80% of the
        screen, along the middle line. */
    function DirectionToCoordinates(direction: string): (r: Result<(int, int, int, int)>)
      ensures r.Ok? <==> direction in {"up", "down", "left", "right"}
      ensures r.Ok? && (direction == "up" || direction == "down") ==>
        r.value.0 == r.value.2 == screenWidth / 2 && (screenHeight >= 2 ==> (direction == "up" <==> r.value.1 > r.value.3))
      ensures r.Ok? && (direction == "left" || direction == "right") ==>
        r.value.1 == r.value.3 == screenHeight / 2 && (screenWidth >= 2 ==> (direction == "left" <==> r.value.0 > r.value.2))
      ensures r.Ok? && screenWidth >= 0 && screenHeight >= 0 ==>
        0 <= r.value.0 <= screenWidth && 0 <= r.value.2 <= screenWidth && 0 <= r.value.1 <= screenHeight && 0 <= r.value.3 <= screenHeight
    {
      var cx := screenWidth / 2;
      var cy := screenHeight / 2;
      var low := TruncDiv(screenHeight, 10);
      var high := TruncDiv(screenHeight * 9, 10);
      var left := TruncDiv(screenWidth, 10);
      var right := TruncDiv(screenWidth * 9, 10);
      if direction == "up" then Ok((cx, high, cx, low))
      else if direction == "down" then Ok((cx, low, cx, high))
      else if direction == "left" then Ok((right, cy, left, cy))
      else if direction == "right" then Ok((left, cy, right, cy))
      else Err("Unknown direction: " + direction)
    }

    /** The start and end points of a swipe. */
    function SwipePoints(direction: Option<string>, start: Option<seq<int>>, end: Option<seq<int>>): Result<(int, int, int, int)> {
      if direction.Some? && direction.value != [] then
        match DirectionToCoordinates(direction.value)
        case Ok(p) => Ok(p)
        case Err(m) => Err(ExecutionError + m)
      else if start.None? || end.None? then Err(ExecutionError + "'NoneType' object is not subscriptable")
      else if |start.value| < 2 || |end.value| < 2 then Err(ExecutionError + IndexErrorText)
      else Ok((Pixel(start.value[0], screenWidth), Pixel(start.value[1], screenHeight),
               Pixel(end.value[0], screenWidth), Pixel(end.value[1], screenHeight)))
    }

    /** The start and end points of a drag: both coordinate lists, else both
        indices (in range, with a geometry), else the drag is refused. */
    function DragPoints(startIndex: Option<int>, endIndex: Option<int>, start: Option<seq<int>>, end: Option<seq<int>>): Result<(int, int, int, int)> {
      if start.Some? && start.value != [] && end.Some? && end.value != [] then
        if |start.value| < 2 || |end.value| < 2 then Err(ExecutionError + IndexErrorText)
        else Ok((Pixel(start.value[0], screenWidth), Pixel(start.value[1], screenHeight),
                 Pixel(end.value[0], screenWidth), Pixel(end.value[1], screenHeight)))
      else if startIndex.Some? && endIndex.Some? then
        var i := startIndex.value;
        var j := endIndex.value;
        if 0 <= i < |elements| && 0 <= j < |elements| then
          match (Centre(elements[i]), Centre(elements[j]))
          case (Some(p), Some(q)) => Ok((p.0, p.1, q.0, q.1))
          case _ => Err(ExecutionError + "Element has no bounds/center")
        else Err("Index out of range")
      else Err("Drag requires start/end coordinates or indices")
    }

    // -------------------------------------------------------------------
    // The specification of `execute`
    // -------------------------------------------------------------------

    /** A tap at `p`, whose failures are caught and reported in place. */
    function TapReply(p: (int, int), answer: DeviceAnswer): Reply {
      match answer
      case Raised(true, m) => Failed("Tap command failed: " + m)
      case Raised(false, m) => Failed("Unexpected error: " + m)
      case _ => Succeeded("tap", [p])
    }

    /** The tap step (also used to focus an input field). */
    function TapRun(coordinates: Option<seq<int>>, index: Option<int>, device: Gesture -> DeviceAnswer): (Reply, seq<Gesture>) {
      match Target(coordinates, index, "Tap")
      case Err(m) => (Failed(m), [])
      case Ok(p) => (TapReply(p, device(TapAt(p.0, p.1))), [TapAt(p.0, p.1)])
    }

    /** The reply of the text input itself. */
    function TypeReply(answer: DeviceAnswer): Reply {
      match answer
      case Declined => Failed("Failed to input text")
      case Raised(_, m) => Failed("Input error: " + m)
      case _ => Succeeded("input_text", [])
    }

    function InputRun(text: string, index: Option<int>, device: Gesture -> DeviceAnswer): (Reply, seq<Gesture>) {
      var focus := if index.Some? then TapRun(None, index, device) else (Succeeded("tap", []), []);
      if focus.0.Failed? then (Failed("Failed to focus input field: " + focus.0.message), focus.1)
      else (TypeReply(device(TypeText(text))), focus.1 + [TypeText(text)])
    }

    function SwipeRun(direction: Option<string>, start: Option<seq<int>>, end: Option<seq<int>>, duration: int,
                      device: Gesture -> DeviceAnswer): (Reply, seq<Gesture>) {
      match SwipePoints(direction, start, end)
      case Err(m) => (Failed(m), [])
      case Ok((x1, y1, x2, y2)) =>
        var g := SwipeAlong(x1, y1, x2, y2, duration);
        (SwipeReply(x1, y1, x2, y2, device(g)), [g])
    }

    /** A swipe's failures are caught and reported in place. */
    static function SwipeReply(x1: int, y1: int, x2: int, y2: int, answer: DeviceAnswer): Reply {
      match answer
      case Raised(true, m) => Failed("Swipe command failed: " + m)
      case Raised(false, m) => Failed("Unexpected error: " + m)
      case _ => Succeeded("swipe", [(x1, y1), (x2, y2)])
    }

    function LaunchRun(app: string, device: Gesture -> DeviceAnswer): (Reply, seq<Gesture>) {
      var answer := device(Launch(app));
      (if answer.Declined? then Failed("") else Uncaught(answer, Succeeded("launch_app", [])), [Launch(app)])
    }

    /** A long press, calling the device with its duration in milliseconds. */
    function LongPressRun(coordinates: Option<seq<int>>, index: Option<int>, duration: int,
                          device: Gesture -> DeviceAnswer): (Reply, seq<Gesture>) {
      match Target(coordinates, index, "Long press")
      case Err(m) => (Failed(m), [])
      case Ok(p) =>
        var g := LongPressAt(p.0, p.1, duration);
        (Uncaught(device(g), Succeeded("long_press", [p])), [g])
    }

    /** The long press as written: the device call passes `duration=`, a
        keyword `long_press` does not take, so it always raises. */
    function LongPressAsWritten(coordinates: Option<seq<int>>, index: Option<int>, duration: int): (Reply, seq<Gesture>) {
      match Target(coordinates, index, "Long press")
      case Err(m) => (Failed(m), [])
      case Ok(_) => (Failed(ExecutionError + "long_press() got an unexpected keyword argument 'duration'"), [])
    }

    function DoubleTapRun(coordinates: Option<seq<int>>, index: Option<int>, device: Gesture -> DeviceAnswer): (Reply, seq<Gesture>) {
      match Target(coordinates, index, "Double tap")
      case Err(m) => (Failed(m), [])
      case Ok(p) => (Uncaught(device(DoubleTapAt(p.0, p.1)), Succeeded("double_tap", [p])), [DoubleTapAt(p.0, p.1)])
    }

    /** The gesture of a key name `press_key` knows. */
    static function KeyGesture(key: string): Option<Gesture> {
      if key == "back" then Some(BackKey)
      else if key == "home" then Some(HomeKey)
      else if key == "recent" then Some(AppSwitchKey)
      else None
    }

    function PressKeyRun(key: string, device: Gesture -> DeviceAnswer): (Reply, seq<Gesture>) {
      match KeyGesture(key)
      case None => (Failed("Unknown key: " + key), [])
      case Some(g) => (Uncaught(device(g), Succeeded("press_key", [])), [g])
    }

    /** A drag, as a swipe with the drag's duration in milliseconds. */
    function DragRun(startIndex: Option<int>, endIndex: Option<int>, start: Option<seq<int>>, end: Option<seq<int>>,
                     duration: int, device: Gesture -> DeviceAnswer): (Reply, seq<Gesture>) {
      match DragPoints(startIndex, endIndex, start, end)
      case Err(m) => (Failed(m), [])
      case Ok((x1, y1, x2, y2)) =>
        var g := SwipeAlong(x1, y1, x2, y2, duration);
        (Uncaught(device(g), Succeeded("drag", [(x1, y1), (x2, y2)])), [g])
    }

    /** The drag as written: the swipe call passes `duration=`, a keyword
        `swipe` does not take, so it always raises. */
    function DragAsWritten(startIndex: Option<int>, endIndex: Option<int>, start: Option<seq<int>>, end: Option<seq<int>>): (Reply, seq<Gesture>) {
      match DragPoints(startIndex, endIndex, start, end)
      case Err(m) => (Failed(m), [])
      case Ok(_) => (Failed(ExecutionError + "swipe() got an unexpected keyword argument 'duration'"), [])
    }

    function ScrollRun(position: seq<int>, value: int, device: Gesture -> DeviceAnswer): (Reply, seq<Gesture>) {
      if |position| < 2 then (Failed(ExecutionError + IndexErrorText), [])
      else
        var x := Pixel(position[0], screenWidth);
        var y := Pixel(position[1], screenHeight);
        var g := SwipeAlong(x, y, x, ScrollEnd(y, value, screenHeight), 300);
        (Uncaught(device(g), Succeeded("scroll", [(x, y)])), [g])
    }

    /** The scroll as written: like the drag, its swipe call passes
        `duration=300`, a keyword `swipe` does not take, so once the position
        has two coordinates it always raises. */
    function ScrollAsWritten(position: seq<int>): (Reply, seq<Gesture>) {
      if |position| < 2 then (Failed(ExecutionError + IndexErrorText), [])
      else (Failed(ExecutionError + "swipe() got an unexpected keyword argument 'duration'"), [])
    }

    /** A key event, sending the mapped key code. */
    function KeyEventRun(key: string, device: Gesture -> DeviceAnswer): (Reply, seq<Gesture>) {
      var g := KeyCode(KeyCodeFor(key));
      (Uncaught(device(g), Succeeded("key_event", [])), [g])
    }

    /** The key event as written: it imports `execute_adb_command`, which the
        device package does not provide, so it always raises. */
    function KeyEventAsWritten(key: string): (Reply, seq<Gesture>) {
      (Failed(ExecutionError + "cannot import name 'execute_adb_command' from 'phone_agent.adb'"), [])
    }

    static function ReadReply(answer: DeviceAnswer): Reply {
      match answer
      case Content(s) => Clipboard(s)
      case Raised(_, m) => Failed(m)
      case _ => Failed("剪贴板为空或读取失败")
    }

    static function WriteReply(answer: DeviceAnswer): Reply {
      match answer
      case Declined => Failed("写入剪贴板失败")
      case Raised(_, m) => Failed(m)
      case _ => Succeeded("write_clipboard", [])
    }

    /** What a record does to the task: the callback takes it if there is one,
        else it is appended to the task (category defaulting to "general"). */
    function RecordEffect(content: string, category: Option<string>, reason: Option<string>): TaskEffect {
      if recordCallback then Untouched
      else if hasTask then Append(Record(content, if category.Some? && category.value != "" then category.value else "general", reason))
      else Untouched
    }

    function TodosEffect(todos: string): TaskEffect {
      if todosCallback then Untouched
      else if hasTask then Replace(todos)
      else Untouched
    }

    /** The action types whose handler calls the device. */
    predicate TouchesDevice(a: Action) {
      || a.Tap? || a.InputText? || a.Swipe? || a.LaunchApp? || a.LongPress? || a.DoubleTap?
      || a.PressKey? || a.Drag? || a.Scroll? || a.KeyEvent? || a.ReadClipboard? || a.WriteClipboard?
    }

    /** A device action's outcome, with the task left alone. */
    function Untouched3(p: (Reply, seq<Gesture>)): (Reply, seq<Gesture>, TaskEffect) {
      (p.0, p.1, Untouched)
    }

    /** `execute`: the reply, the device calls made, and the change to the task. */
    function Run(a: Action, device: Gesture -> DeviceAnswer): (r: (Reply, seq<Gesture>, TaskEffect))
      ensures !TouchesDevice(a) ==> r.1 == []
      ensures r.2 != Untouched ==> a.RecordImportantContent? || a.GenerateOrUpdateTodos?
    {
      match a
      case Tap(index, coordinates, _) => Untouched3(TapRun(coordinates, index, device))
      case InputText(text, index, _, _) => Untouched3(InputRun(text, index, device))
      case Swipe(direction, start, end, duration, _) => Untouched3(SwipeRun(direction, start, end, duration, device))
      case LaunchApp(app, _) => Untouched3(LaunchRun(app, device))
      case LongPress(index, coordinates, duration, _) => Untouched3(LongPressRun(coordinates, index, duration, device))
      case DoubleTap(index, coordinates, _) => Untouched3(DoubleTapRun(coordinates, index, device))
      case PressKey(key, _) => Untouched3(PressKeyRun(key, device))
      case Drag(si, ei, start, end, duration, _) => Untouched3(DragRun(si, ei, start, end, duration, device))
      case Scroll(position, value, _) => Untouched3(ScrollRun(position, value, device))
      case KeyEvent(key, _) => Untouched3(KeyEventRun(key, device))
      case Answer(answer, _, _, _) => (Finished(true, answer), [], Untouched)
      case AskUser(question, options, _) => (Question(question, options), [], Untouched)
      case RecordImportantContent(content, category, reason) =>
        (Succeeded("record_important_content", []), [], RecordEffect(content, category, reason))
      case GenerateOrUpdateTodos(todos, _) => (Succeeded("generate_or_update_todos", []), [], TodosEffect(todos))
      case Wait(seconds, _) =>
        (if seconds < 0.0 then Failed(ExecutionError + "sleep length must be non-negative") else Succeeded("wait", []), [], Untouched)
      case ReadClipboard(_) => (ReadReply(device(ReadClip)), [ReadClip], Untouched)
      case WriteClipboard(text, _) => (WriteReply(device(WriteClip(text))), [WriteClip(text)], Untouched)
      case Done(success, message, _) => (Finished(success, message), [], Untouched)
    }

    // -------------------------------------------------------------------
    // The executor
    // -------------------------------------------------------------------

    /** One device call. */
    method Send(g: Gesture, device: Gesture -> DeviceAnswer) returns (answer: DeviceAnswer)
      modifies this
      ensures answer == device(g) && sent == old(sent) + [g]
      ensures importantContent == old(importantContent) && todos == old(todos)
    {
      sent := sent + [g];
      answer := device(g);
    }

    /** A tap-like action at its target, or its refusal without a device call. */
    method Touch(t: Result<(int, int)>, make: (int, int) -> Gesture, device: Gesture -> DeviceAnswer) returns (answer: Option<DeviceAnswer>)
      modifies this
      ensures t.Err? ==> answer.None? && sent == old(sent)
      ensures t.Ok? ==> answer == Some(device(make(t.value.0, t.value.1))) && sent == old(sent) + [make(t.value.0, t.value.1)]
      ensures importantContent == old(importantContent) && todos == old(todos)
    {
      if t.Err? {
        return None;
      }
      var a := Send(make(t.value.0, t.value.1), device);
      return Some(a);
    }

    /** `_execute_tap`. */
    method ExecuteTap(coordinates: Option<seq<int>>, index: Option<int>, device: Gesture -> DeviceAnswer) returns (r: Reply)
      modifies this
      ensures importantContent == old(importantContent) && todos == old(todos)
      ensures r == TapRun(coordinates, index, device).0 && sent == old(sent) + TapRun(coordinates, index, device).1
    {
      var t := Target(coordinates, index, "Tap");
      var answer := Touch(t, (x, y) => TapAt(x, y), device);
      r := if t.Err? then Failed(t.msg) else TapReply(t.value, answer.value);
    }

    /** `_execute_input_text`: focus the element first when an index is given, then type. */
    method ExecuteInputText(text: string, index: Option<int>, device: Gesture -> DeviceAnswer) returns (r: Reply)
      modifies this
      ensures importantContent == old(importantContent) && todos == old(todos)
      ensures r == InputRun(text, index, device).0 && sent == old(sent) + InputRun(text, index, device).1
    {
      var focus: Reply := Succeeded("tap", []);
      if index.Some? {
        focus := ExecuteTap(None, index, device);
      }
      if focus.Failed? {
        r := Failed("Failed to focus input field: " + focus.message);
      } else {
        var answer := Send(TypeText(text), device);
        r := TypeReply(answer);
      }
    }

    /** `_execute_swipe`. */
    method ExecuteSwipe(direction: Option<string>, start: Option<seq<int>>, end: Option<seq<int>>, duration: int, device: Gesture -> DeviceAnswer) returns (r: Reply)
      modifies this
      ensures importantContent == old(importantContent) && todos == old(todos)
      ensures r == SwipeRun(direction, start, end, duration, device).0 && sent == old(sent) + SwipeRun(direction, start, end, duration, device).1
    {
      var p := SwipePoints(direction, start, end);
      if p.Err? {
        r := Failed(p.msg);
      } else {
        var (x1, y1, x2, y2) := p.value;
        var answer := Send(SwipeAlong(x1, y1, x2, y2, duration), device);
        r := SwipeReply(x1, y1, x2, y2, answer);
      }
    }

    /** `_execute_launch_app`. */
    method ExecuteLaunchApp(app: string, device: Gesture -> DeviceAnswer) returns (r: Reply)
      modifies this
      ensures importantContent == old(importantContent) && todos == old(todos)
      ensures r == LaunchRun(app, device).0 && sent == old(sent) + LaunchRun(app, device).1
    {
      var answer := Send(Launch(app), device);
      r := if answer.Declined? then Failed("") else Uncaught(answer, Succeeded("launch_app", []));
    }

    /** `_execute_long_press`. */
    method ExecuteLongPress(coordinates: Option<seq<int>>, index: Option<int>, duration: int, device: Gesture -> DeviceAnswer) returns (r: Reply)
      modifies this
      ensures importantContent == old(importantContent) && todos == old(todos)
      ensures r == LongPressRun(coordinates, index, duration, device).0 && sent == old(sent) + LongPressRun(coordinates, index, duration, device).1
    {
      var t := Target(coordinates, index, "Long press");
      var answer := Touch(t, (x, y) => LongPressAt(x, y, duration), device);
      r := if t.Err? then Failed(t.msg) else Uncaught(answer.value, Succeeded("long_press", [t.value]));
    }

    /** `_execute_double_tap`. */
    method ExecuteDoubleTap(coordinates: Option<seq<int>>, index: Option<int>, device: Gesture -> DeviceAnswer) returns (r: Reply)
      modifies this
      ensures importantContent == old(importantContent) && todos == old(todos)
      ensures r == DoubleTapRun(coordinates, index, device).0 && sent == old(sent) + DoubleTapRun(coordinates, index, device).1
    {
      var t := Target(coordinates, index, "Double tap");
      var answer := Touch(t, (x, y) => DoubleTapAt(x, y), device);
      r := if t.Err? then Failed(t.msg) else Uncaught(answer.value, Succeeded("double_tap", [t.value]));
    }

    /** `_execute_press_key`. */
    method ExecutePressKey(key: string, device: Gesture -> DeviceAnswer) returns (r: Reply)
      modifies this
      ensures importantContent == old(importantContent) && todos == old(todos)
      ensures r == PressKeyRun(key, device).0 && sent == old(sent) + PressKeyRun(key, device).1
    {
      match KeyGesture(key) {
        case None => r := Failed("Unknown key: " + key);
        case Some(g) =>
          var answer := Send(g, device);
          r := Uncaught(answer, Succeeded("press_key", []));
      }
    }

    /** `_execute_drag`. */
    method ExecuteDrag(startIndex: Option<int>, endIndex: Option<int>, start: Option<seq<int>>, end: Option<seq<int>>, duration: int, device: Gesture -> DeviceAnswer) returns (r: Reply)
      modifies this
      ensures importantContent == old(importantContent) && todos == old(todos)
      ensures r == DragRun(startIndex, endIndex, start, end, duration, device).0 && sent == old(sent) + DragRun(startIndex, endIndex, start, end, duration, device).1
    {
      var p := DragPoints(startIndex, endIndex, start, end);
      if p.Err? {
        r := Failed(p.msg);
      } else {
        var (x1, y1, x2, y2) := p.value;
        var answer := Send(SwipeAlong(x1, y1, x2, y2, duration), device);
        r := Uncaught(answer, Succeeded("drag", [(x1, y1), (x2, y2)]));
      }
    }

    /** `_execute_scroll`. */
    method ExecuteScroll(position: seq<int>, value: int, device: Gesture -> DeviceAnswer) returns (r: Reply)
      modifies this
      ensures importantContent == old(importantContent) && todos == old(todos)
      ensures r == ScrollRun(position, value, device).0 && sent == old(sent) + ScrollRun(position, value, device).1
    {
      if |position| < 2 {
        r := Failed(ExecutionError + IndexErrorText);
      } else {
        var x := Pixel(position[0], screenWidth);
        var y := Pixel(position[1], screenHeight);
        var answer := Send(SwipeAlong(x, y, x, ScrollEnd(y, value, screenHeight), 300), device);
        r := Uncaught(answer, Succeeded("scroll", [(x, y)]));
      }
    }

    /** `_execute_key_event`. */
    method ExecuteKeyEvent(key: string, device: Gesture -> DeviceAnswer) returns (r: Reply)
      modifies this
      ensures importantContent == old(importantContent) && todos == old(todos)
      ensures r == KeyEventRun(key, device).0 && sent == old(sent) + KeyEventRun(key, device).1
    {
      var answer := Send(KeyCode(KeyCodeFor(key)), device);
      r := Uncaught(answer, Succeeded("key_event", []));
    }

    /** `_execute_record_content`: appends to the task's records unless a callback takes them. */
    method ExecuteRecordContent(content: string, category: Option<string>, reason: Option<string>) returns (r: Reply)
      modifies this
      ensures r == Succeeded("record_important_content", []) && sent == old(sent) && todos == old(todos)
      ensures RecordEffect(content, category, reason).Append? ==>
        importantContent == old(importantContent) + [RecordEffect(content, category, reason).record]
      ensures !RecordEffect(content, category, reason).Append? ==> importantContent == old(importantContent)
    {
      var e := RecordEffect(content, category, reason);
      if e.Append? {
        importantContent := importantContent + [e.record];
      }
      r := Succeeded("record_important_content", []);
    }

    /** `_execute_update_todos`: replaces the task's todo text unless a callback takes it. */
    method ExecuteUpdateTodos(list: string) returns (r: Reply)
      modifies this
      ensures r == Succeeded("generate_or_update_todos", []) && sent == old(sent)
      ensures importantContent == old(importantContent)
      ensures todos == if TodosEffect(list).Replace? then Some(list) else old(todos)
    {
      if TodosEffect(list).Replace? {
        todos := Some(list);
      }
      r := Succeeded("generate_or_update_todos", []);
    }

    /** `_execute_read_clipboard`. */
    method ExecuteReadClipboard(device: Gesture -> DeviceAnswer) returns (r: Reply)
      modifies this
      ensures importantContent == old(importantContent) && todos == old(todos)
      ensures r == ReadReply(device(ReadClip)) && sent == old(sent) + [ReadClip]
    {
      var answer := Send(ReadClip, device);
      r := ReadReply(answer);
    }

    /** `_execute_write_clipboard`. */
    method ExecuteWriteClipboard(text: string, device: Gesture -> DeviceAnswer) returns (r: Reply)
      modifies this
      ensures importantContent == old(importantContent) && todos == old(todos)
      ensures r == WriteReply(device(WriteClip(text))) && sent == old(sent) + [WriteClip(text)]
    {
      var answer := Send(WriteClip(text), device);
      r := WriteReply(answer);
    }

    /** `execute`: dispatch on the action type. */
    method Execute(a: Action, device: Gesture -> DeviceAnswer) returns (r: Reply)
      modifies this
      ensures r == Run(a, device).0
      ensures sent == old(sent) + Run(a, device).1
      ensures var e := Run(a, device).2;
              importantContent == old(importantContent) + (if e.Append? then [e.record] else [])
              && todos == (if e.Replace? then Some(e.todos) else old(todos))
    {
      if TouchesDevice(a) {
        r := ExecuteOnDevice(a, device);
      } else {
        r := ExecuteOffDevice(a, device);
      }
    }

    /** The branches of `execute` whose handler drives the device. */
    method ExecuteOnDevice(a: Action, device: Gesture -> DeviceAnswer) returns (r: Reply)
      requires TouchesDevice(a)
      modifies this
      ensures r == Run(a, device).0
      ensures sent == old(sent) + Run(a, device).1
      ensures importantContent == old(importantContent) && todos == old(todos)
    {
      match a
      case Tap(index, coordinates, _) => r := ExecuteTap(coordinates, index, device);
      case InputText(text, index, _, _) => r := ExecuteInputText(text, index, device);
      case Swipe(direction, start, end, duration, _) => r := ExecuteSwipe(direction, start, end, duration, device);
      case LaunchApp(app, _) => r := ExecuteLaunchApp(app, device);
      case LongPress(index, coordinates, duration, _) => r := ExecuteLongPress(coordinates, index, duration, device);
      case DoubleTap(index, coordinates, _) => r := ExecuteDoubleTap(coordinates, index, device);
      case PressKey(key, _) => r := ExecutePressKey(key, device);
      case Drag(si, ei, start, end, duration, _) => r := ExecuteDrag(si, ei, start, end, duration, device);
      case Scroll(position, value, _) => r := ExecuteScroll(position, value, device);
      case KeyEvent(key, _) => r := ExecuteKeyEvent(key, device);
      case ReadClipboard(_) => r := ExecuteReadClipboard(device);
      case WriteClipboard(text, _) => r := ExecuteWriteClipboard(text, device);
      case _ => assert false;
    }

    /** The branches of `execute` that answer without a device call. */
    method ExecuteOffDevice(a: Action, device: Gesture -> DeviceAnswer) returns (r: Reply)
      requires !TouchesDevice(a)
      modifies this
      ensures r == Run(a, device).0 && sent == old(sent) && Run(a, device).1 == []
      ensures var e := Run(a, device).2;
              importantContent == old(importantContent) + (if e.Append? then [e.record] else [])
              && todos == (if e.Replace? then Some(e.todos) else old(todos))
    {
      match a
      case Answer(answer, _, _, _) =>
        r := Finished(true, answer);
      case AskUser(question, options, _) =>
        r := Question(question, options);
      case RecordImportantContent(content, category, reason) => r := ExecuteRecordContent(content, category, reason);
      case GenerateOrUpdateTodos(list, _) => r := ExecuteUpdateTodos(list);
      case Wait(seconds, _) =>
        r := if seconds < 0.0 then Failed(ExecutionError + "sleep length must be non-negative") else Succeeded("wait", []);
      case Done(success, message, _) =>
        r := Finished(success, message);
      case _ => assert false;
    }

    // -------------------------------------------------------------------
    // Properties
    // -------------------------------------------------------------------

    /** A tap-like action with neither coordinates nor an index fails without
        touching the device. */
    lemma NoTargetFails(reason: Option<string>, duration: int, device: Gesture -> DeviceAnswer)
      ensures Run(Tap(None, None, reason), device) == (Failed(NoTarget("Tap")), [], Untouched)
      ensures Run(LongPress(None, None, duration, reason), device) == (Failed(NoTarget("Long press")), [], Untouched)
      ensures Run(DoubleTap(None, None, reason), device) == (Failed(NoTarget("Double tap")), [], Untouched)
    {
    }

    /** In index mode a tap lands on the element's centre; an index out of
        range, or an element without geometry, fails with no device call. */
    lemma IndexTap(i: int, reason: Option<string>, device: Gesture -> DeviceAnswer)
      ensures var (r, g, e) := Run(Tap(Some(i), None, reason), device);
              e == Untouched
              && (0 <= i < |elements| && !elements[i].NoGeometry? ==>
                    var c := Centre(elements[i]).value;
                    g == [TapAt(c.0, c.1)] && (Success(r) <==> !device(TapAt(c.0, c.1)).Raised?))
              && (!(0 <= i < |elements|) || elements[i].NoGeometry? ==> g == [] && r.Failed?)
    {
    }

    /** A normalised tap lands at the scaled point. */
    lemma CoordinateTap(x: int, y: int, reason: Option<string>, device: Gesture -> DeviceAnswer)
      ensures Run(Tap(None, Some([x, y]), reason), device).1 == [TapAt(Pixel(x, screenWidth), Pixel(y, screenHeight))]
    {
    }

    /** Text input into an element first taps it; a failed focus stops the input. */
    lemma InputNeedsFocus(text: string, i: int, device: Gesture -> DeviceAnswer)
      requires !(0 <= i < |elements|)
      ensures var (r, g, _) := Run(InputText(text, Some(i), true, None), device);
              g == [] && r.Failed? && StartsWith(r.message, "Failed to focus input field: ")
    {
      var m := "Failed to focus input field: " + IndexPoint(i).msg;
      assert m[..|"Failed to focus input field: "|] == "Failed to focus input field: ";
    }

    /** Swiping up and down (left and right) are each other's reverse, and an
        upward swipe runs from low on the screen to high on it. */
    lemma DirectionsReverse()
      ensures var up := DirectionToCoordinates("up").value;
              var down := DirectionToCoordinates("down").value;
              up == (down.2, down.3, down.0, down.1)
      ensures var l := DirectionToCoordinates("left").value;
              var rt := DirectionToCoordinates("right").value;
              l == (rt.2, rt.3, rt.0, rt.1)
      ensures screenHeight >= 2 ==> DirectionToCoordinates("up").value.1 > DirectionToCoordinates("up").value.3
      ensures forall d :: d !in SwipeDirections ==> DirectionToCoordinates(d).Err?
    {
      if screenHeight >= 2 {
        UpwardSpan(screenHeight);
      }
    }

    /** `press_key` sends only back, home and recent; any other key fails with no call. */
    lemma PressKeyOnlyKnown(key: string, reason: Option<string>, device: Gesture -> DeviceAnswer)
      ensures var (r, g, _) := Run(PressKey(key, reason), device);
              (key !in PressKeys ==> r == Failed("Unknown key: " + key) && g == [])
              && (key in PressKeys ==> |g| == 1 && (Success(r) <==> !device(g[0]).Raised?))
    {
    }

    /** `done` and `answer` finish the task; `answer` always reports success,
        whatever its own success flag says. */
    lemma Finishing(success: bool, message: string, data: Option<map<string, Json>>, reason: Option<string>, device: Gesture -> DeviceAnswer)
      ensures Run(Done(success, message, data), device) == (Finished(success, message), [], Untouched)
      ensures Run(Answer(message, success, data, reason), device) == (Finished(true, message), [], Untouched)
    {
    }

    /** A record goes to the task unless a callback takes it, with "general"
        as its category when none is given. */
    lemma RecordKept(content: string, category: Option<string>, reason: Option<string>, device: Gesture -> DeviceAnswer)
      requires hasTask && !recordCallback
      ensures var (r, g, e) := Run(RecordImportantContent(content, category, reason), device);
              Success(r) && g == [] && e.Append? && e.record.content == content
              && (category.None? || category == Some("") ==> e.record.category == "general")
              && (category.Some? && category.value != "" ==> e.record.category == category.value)
    {
    }

    /** Negative indices as written: `-1` selects the last element. */
    lemma NegativeIndexAsWritten(i: int)
      requires -|elements| <= i < 0 && !elements[|elements| + i].NoGeometry?
      ensures IndexPointAsWritten(i) == Ok(Centre(elements[|elements| + i]).value)
      ensures IndexPoint(i).Err?
    {
    }

    /** As written, a long press never reaches the device; corrected, a long
        press at a valid target sends one press of the requested duration. */
    lemma LongPressAsWrittenFails(coordinates: Option<seq<int>>, index: Option<int>, duration: int)
      ensures !Success(LongPressAsWritten(coordinates, index, duration).0)
      ensures LongPressAsWritten(coordinates, index, duration).1 == []
    {
    }

    lemma LongPressReachesDevice(coordinates: Option<seq<int>>, index: Option<int>, duration: int, reason: Option<string>, device: Gesture -> DeviceAnswer)
      requires Target(coordinates, index, "Long press").Ok?
      ensures var p := Target(coordinates, index, "Long press").value;
              var (r, g, _) := Run(LongPress(index, coordinates, duration, reason), device);
              g == [LongPressAt(p.0, p.1, duration)] && (Success(r) <==> !device(g[0]).Raised?)
    {
    }

    /** As written, a drag never reaches the device; corrected, a drag between
        valid points sends one swipe of the requested duration. */
    lemma DragAsWrittenFails(si: Option<int>, ei: Option<int>, start: Option<seq<int>>, end: Option<seq<int>>)
      ensures !Success(DragAsWritten(si, ei, start, end).0) && DragAsWritten(si, ei, start, end).1 == []
    {
    }

    lemma DragReachesDevice(si: Option<int>, ei: Option<int>, start: Option<seq<int>>, end: Option<seq<int>>,
                            duration: int, reason: Option<string>, device: Gesture -> DeviceAnswer)
      requires DragPoints(si, ei, start, end).Ok?
      ensures var p := DragPoints(si, ei, start, end).value;
              var (r, g, _) := Run(Drag(si, ei, start, end, duration, reason), device);
              g == [SwipeAlong(p.0, p.1, p.2, p.3, duration)] && (Success(r) <==> !device(g[0]).Raised?)
    {
    }

    /** As written, a scroll never reaches the device; corrected, a scroll at
        a two-coordinate position sends one 300 ms vertical swipe from that
        point that stays on the screen. */
    lemma ScrollAsWrittenFails(position: seq<int>)
      ensures !Success(ScrollAsWritten(position).0) && ScrollAsWritten(position).1 == []
    {
    }

    lemma ScrollReachesDevice(position: seq<int>, value: int, reason: Option<string>, device: Gesture -> DeviceAnswer)
      requires |position| >= 2 && screenHeight >= 0
      ensures var x := Pixel(position[0], screenWidth);
              var y := Pixel(position[1], screenHeight);
              var (r, g, _) := Run(Scroll(position, value, reason), device);
              |g| == 1 && g[0].SwipeAlong? && g[0].x1 == x && g[0].y1 == y && g[0].x2 == x && g[0].durationMs == 300
              && (0 <= y <= screenHeight ==> 0 <= g[0].y2 <= screenHeight && (value > 0 ==> g[0].y2 <= y) && (value < 0 ==> g[0].y2 >= y))
              && (Success(r) <==> !device(g[0]).Raised?)
    {
    }

    /** As written, a key event never reaches the device; corrected, it sends
        the mapped key code. */
    lemma KeyEventAsWrittenFails(key: string)
      ensures !Success(KeyEventAsWritten(key).0) && KeyEventAsWritten(key).1 == []
    {
    }

    lemma KeyEventSendsCode(key: string, reason: Option<string>, device: Gesture -> DeviceAnswer)
      ensures var (r, g, _) := Run(KeyEvent(key, reason), device);
              g == [KeyCode(KeyCodeFor(key))] && (Success(r) <==> !device(g[0]).Raised?)
      ensures key in KeyMap ==> StartsWith(KeyCodeFor(key), "KEYCODE_")
    {
    }
  }

  /** A normalised coordinate in 0..1000 lands on the screen, and the ends
      of the range land on its edges. */
  lemma PixelBounds(c: int, size: nat)
    requires 0 <= c <= 1000
    ensures 0 <= Pixel(c, size) <= size
    ensures Pixel(0, size) == 0 && Pixel(1000, size) == size
  {
    assert c * size <= 1000 * size by {
      MulMono(c, 1000, size);
    }
  }

  lemma MulMono(a: int, b: int, k: nat)
    requires a <= b
    ensures a * k <= b * k
  {
  }

  /** The centre of a well-formed bounds box lies inside it. */
  lemma CentreInside(l: int, t: int, r: int, b: int)
    requires l <= r && t <= b
    ensures var c := Centre(WithBounds(l, t, r, b)).value;
            l <= c.0 <= r && t <= c.1 <= b
  {
  }

  /** A scroll stays on the screen, moves the right way and by at most
      `|value| * 100` pixels. */
  lemma ScrollOnScreen(y: int, value: int, height: int)
    requires 0 <= y <= height
    ensures var e := ScrollEnd(y, value, height);
            0 <= e <= height
            && (value > 0 ==> e <= y && y - e <= value * 100)
            && (value <= 0 ==> e >= y && e - y <= -value * 100)
  {
  }

  /** On a screen at least two pixels tall, 90% of the height lies below 10% of it. */
  lemma UpwardSpan(h: int)
    requires h >= 2
    ensures TruncDiv(h * 9, 10) > TruncDiv(h, 10)
  {
    assert h * 9 == h + h * 8;
  }
}
