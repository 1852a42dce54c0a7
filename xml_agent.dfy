/** The XML kernel agent: each step reads the UI element list, asks the model
    for one JSON decision, logs it with pixel coordinates and executes it,
    stopping on "done", on repeated trouble (empty dumps, failed actions,
    exceptions) or after `max_steps`. The model call, the UI dump, the screen
    size and the device action are supplied as each step's environment. */
module XmlAgent {
  import opened Util
  import AE = ActionExecutor

  // ---------------------------------------------------------------------
  // _normalize_action_for_log
  // ---------------------------------------------------------------------

  /** One coordinate for the log: up to 1000 it is read as normalized and
      scaled to `size` pixels; above it is kept. None where Python's `<=`
      raises (the component is not a number). */
  function Pixel(j: Json, size: int): (r: Option<Json>)
    ensures r.Some? <==> IntValue(j).Some?
    ensures r.Some? && IntValue(j).value > 1000 ==> r.value == j
    ensures r.Some? && 0 <= IntValue(j).value <= 1000 && size >= 0 ==> r.value.JInt? && 0 <= r.value.i <= size
  {
    match IntValue(j)
    case None => None
    case Some(v) =>
      if v <= 1000 then
        PixelInRange(v, size);
        Some(JInt(Scale(v, size, 1000)))
      else Some(j)
  }

  lemma PixelInRange(v: int, size: int)
    ensures 0 <= v <= 1000 && size >= 0 ==> 0 <= Scale(v, size, 1000) <= size
  {
    if 0 <= v <= 1000 && size >= 0 {
      assert v * size <= 1000 * size;
    }
  }

  predicate IsPair(j: Json) {
    j.JArr? && |j.items| == 2
  }

  /** A two-element list in pixels, or None when a component is not a number. */
  function PixelPoint(j: Json, width: int, height: int): (r: Option<Json>)
    requires IsPair(j)
    ensures r.Some? <==> IntValue(j.items[0]).Some? && IntValue(j.items[1]).Some?
    ensures r.Some? ==> r.value == JArr([Pixel(j.items[0], width).value, Pixel(j.items[1], height).value])
  {
    match (Pixel(j.items[0], width), Pixel(j.items[1], height))
    case (Some(x), Some(y)) => Some(JArr([x, y]))
    case _ => None
  }

  /** Rewrites `key` of `into` from `src[key]` when that is a pair, keeping
      the original under `saved` (`key + "_normalized"`). */
  function Rewrite(into: map<string, Json>, src: map<string, Json>, key: string, saved: string, width: int, height: int)
    : (r: Option<map<string, Json>>)
    requires key in src
    ensures r.None? <==> IsPair(src[key]) && PixelPoint(src[key], width, height).None?
    ensures r.Some? && !IsPair(src[key]) ==> r.value == into
    ensures r.Some? ==> into.Keys <= r.value.Keys <= into.Keys + {key, saved}
    ensures r.Some? ==> forall k :: k in into && k != key && k != saved ==> r.value[k] == into[k]
    ensures r.Some? && IsPair(src[key]) && key != saved ==>
      key in r.value && saved in r.value && r.value[saved] == src[key] && r.value[key] == PixelPoint(src[key], width, height).value
  {
    if !IsPair(src[key]) then Some(into)
    else match PixelPoint(src[key], width, height)
      case None => None
      case Some(p) => Some(into[key := p][saved := src[key]])
  }

  const LogKeys: set<string> := {"coordinates", "coordinates_normalized", "start", "start_normalized", "end", "end_normalized"}

  /** `_normalize_action_for_log`: a copy of the decision with
      `coordinates`, and `start`/`end` when both are present, turned into
      pixels; None where the conversion raises. */
  function NormalizeActionForLog(action: map<string, Json>, width: int, height: int): (r: Option<map<string, Json>>)
    ensures r.None? ==> ("coordinates" in action && IsPair(action["coordinates"]))
                        || ("start" in action && "end" in action && (IsPair(action["start"]) || IsPair(action["end"])))
  {
    var afterCoordinates :=
      if "coordinates" in action then Rewrite(action, action, "coordinates", "coordinates_normalized", width, height)
      else Some(action);
    if afterCoordinates.None? then None
    else if "start" in action && "end" in action then
      match Rewrite(afterCoordinates.value, action, "start", "start_normalized", width, height)
      case None => None
      case Some(afterStart) => Rewrite(afterStart, action, "end", "end_normalized", width, height)
    else afterCoordinates
  }

  /** The log copy keeps every other entry and adds nothing else. */
  lemma NormalizeForLogKeeps(action: map<string, Json>, width: int, height: int)
    requires NormalizeActionForLog(action, width, height).Some?
    ensures action.Keys <= NormalizeActionForLog(action, width, height).value.Keys <= action.Keys + LogKeys
    ensures forall k :: k in action && k !in LogKeys ==> NormalizeActionForLog(action, width, height).value[k] == action[k]
  {
  }

  /** A list of coordinates is logged in pixels with its original kept
      under "coordinates_normalized". */
  lemma NormalizeForLogCoordinates(action: map<string, Json>, width: int, height: int)
    requires NormalizeActionForLog(action, width, height).Some?
    requires "coordinates" in action && IsPair(action["coordinates"])
    ensures var r := NormalizeActionForLog(action, width, height).value;
      && "coordinates_normalized" in r && r["coordinates_normalized"] == action["coordinates"]
      && r["coordinates"] == PixelPoint(action["coordinates"], width, height).value
  {
  }

  /** `start` and `end` are rewritten only when both are present. */
  lemma NormalizeForLogEnds(action: map<string, Json>, width: int, height: int)
    requires NormalizeActionForLog(action, width, height).Some?
    ensures var r := NormalizeActionForLog(action, width, height).value;
      && ("start" in action && "end" in action && IsPair(action["start"]) ==>
            "start_normalized" in r && r["start_normalized"] == action["start"]
            && r["start"] == PixelPoint(action["start"], width, height).value)
      && ("start" in action && "end" in action && IsPair(action["end"]) ==>
            "end_normalized" in r && r["end_normalized"] == action["end"]
            && r["end"] == PixelPoint(action["end"], width, height).value)
      && ("start" in action && "end" !in action ==> r["start"] == action["start"] && "start_normalized" !in r - action.Keys)
  {
  }

  /** A normalized point on the screen is logged as a pixel on the screen. */
  lemma LoggedPointOnScreen(j: Json, width: int, height: int)
    requires IsPair(j) && j.items[0].JInt? && j.items[1].JInt?
    requires 0 <= j.items[0].i <= 1000 && 0 <= j.items[1].i <= 1000 && width >= 0 && height >= 0
    ensures var p := PixelPoint(j, width, height).value;
      p.items[0].JInt? && 0 <= p.items[0].i <= width && p.items[1].JInt? && 0 <= p.items[1].i <= height
  {
  }

  // ---------------------------------------------------------------------
  // Context window
  // ---------------------------------------------------------------------

  datatype Message = Message(role: string, content: string)

  /** `s[-m:]` with Python's slice bounds. */
  function PyTail<T>(s: seq<T>, m: int): (r: seq<T>)
    ensures m > 0 ==> r == s[|s| - Min(m, |s|)..]
    ensures m <= 0 ==> r == s[Min(-m, |s|)..]
  {
    if m > 0 then s[|s| - Min(m, |s|)..] else s[Min(-m, |s|)..]
  }

  /** The context trimming of `_get_llm_decision` as written: `recent` is
      `context[-(2N - 2):]`, which for N = 1 is `context[-0:]`, the whole list. */
  function CompressAsWritten(context: seq<Message>, turns: nat): seq<Message> {
    if |context| <= turns * 2 + 1 then context
    else
      var recent := PyTail(context, turns * 2 - 2);
      if |context| >= 3 then context[..3] + recent else context[..1] + recent
  }

  /** With one turn the trimmed context is longer than before. */
  lemma CompressAsWrittenGrows(context: seq<Message>)
    requires |context| > 3
    ensures |CompressAsWritten(context, 1)| == |context| + 3
  {
  }

  /** The trimming as intended: system prompt, first exchange and the last
      2N - 2 messages (none when N = 1). */
  function Compress(context: seq<Message>, turns: nat): (r: seq<Message>)
    ensures |context| > 0 ==> |r| > 0 && r[0] == context[0]
    ensures |context| <= turns * 2 + 1 ==> r == context
  {
    if |context| <= turns * 2 + 1 then context
    else
      var recent := context[|context| - Max(turns * 2 - 2, 0)..];
      if |context| >= 3 then context[..3] + recent else context[..1] + recent
  }

  /** Past the limit the context becomes exactly 2N + 1 messages: the system
      prompt, the first exchange (which states the goal) and the most recent
      2N - 2 messages. */
  lemma CompressKeepsWindow(context: seq<Message>, turns: nat)
    requires turns >= 1 && |context| > turns * 2 + 1
    ensures |Compress(context, turns)| == turns * 2 + 1
    ensures Compress(context, turns) == context[..3] + context[|context| - (turns * 2 - 2)..]
  {
  }

  /** The two agree wherever the slice is not the `-0` case. */
  lemma CompressMatchesAsWritten(context: seq<Message>, turns: nat)
    requires turns >= 2
    ensures Compress(context, turns) == CompressAsWritten(context, turns)
  {
  }

  // ---------------------------------------------------------------------
  // Decision validation
  // ---------------------------------------------------------------------

  function WaitDecision(reason: string): (d: map<string, Json>)
    ensures "action" in d && "reason" in d
    ensures d["action"] == JStr("wait") && d["reason"] == JStr(reason)
  {
    map["action" := JStr("wait"), "reason" := JStr(reason)]
  }

  /** `str(type(v))` for the JSON values that reach the type check. */
  function TypeName(j: Json): string {
    match j
    case JNull => "<class 'NoneType'>"
    case JBool(_) => "<class 'bool'>"
    case JInt(_) => "<class 'int'>"
    case JStr(_) => "<class 'str'>"
    case JArr(_) => "<class 'list'>"
    case JObj(_) => "<class 'dict'>"
  }

  /** The checks on a decoded reply: a list gives way to its first element
      when that is a dict, and the result must be a dict with "action". An
      `Err` carries the reason of the "wait" decision used instead. */
  function ValidateDecision(d: Json): (r: Result<map<string, Json>>)
    ensures r.Ok? <==>
      || (d.JObj? && "action" in d.fields)
      || (d.JArr? && |d.items| > 0 && d.items[0].JObj? && "action" in d.items[0].fields)
    ensures r.Ok? && d.JObj? ==> r.value == d.fields
    ensures r.Ok? && d.JArr? ==> r.value == d.items[0].fields
    ensures d.JArr? && !(|d.items| > 0 && d.items[0].JObj?) ==> r == Err("LLM返回了数组格式，无法解析")
    ensures !d.JArr? && !d.JObj? ==> r.Err? && r.msg == "decision格式错误: " + TypeName(d)
  {
    var decision :- match d
      case JArr(items) => if items != [] && items[0].JObj? then Ok(items[0]) else Err("LLM返回了数组格式，无法解析")
      case _ => Ok(d);
    if !decision.JObj? then Err("decision格式错误: " + TypeName(decision))
    else if "action" !in decision.fields then Err("LLM响应缺少action字段")
    else Ok(decision.fields)
  }

  /** What the model call gave back: an exception, or the raw text with the
      result of decoding it (comment stripping, `json.loads` and the
      embedded-object search are not modelled) and the token usage. */
  datatype Reply =
    | CallFailed(error: string)
    | Replied(raw: string, parsed: Result<Json>, usage: map<string, int>)

  predicate Accepted(reply: Reply) {
    reply.Replied? && Strip(reply.raw) != [] && reply.parsed.Ok? && ValidateDecision(reply.parsed.value).Ok?
  }

  function UserMessage(goal: string, elementsText: string, isFirst: bool): string {
    if isFirst then "目标: " + goal + "\n\n当前屏幕的UI元素:\n" + elementsText + "\n\n请分析并决定下一步操作。"
    else "当前屏幕的UI元素:\n" + elementsText + "\n\n请继续执行目标，决定下一步操作。"
  }

  /** `_execute_action`'s report: a failure without an "error" entry gets
      its message (or "Unknown error") as the error. */
  function ExecutionReport(result: map<string, Json>): (r: map<string, Json>)
    ensures forall k :: k in result ==> k in r && r[k] == result[k]
    ensures r.Keys <= result.Keys + {"error"}
    ensures "error" in r <==> "error" in result || !Truthy(Get(result, "success", JBool(true)))
  {
    if "error" !in result && !Truthy(Get(result, "success", JBool(true))) then
      result["error" := Get(result, "message", JStr("Unknown error"))]
    else result
  }

  // ---------------------------------------------------------------------
  // The agent
  // ---------------------------------------------------------------------

  /** The UI dump of a step: both attempts raised (the first error is
      reported), or the elements found, as their count and their listing. */
  datatype UiOutcome = UiUnavailable(error: string) | Elements(count: nat, listing: string)

  /** What the executed action's result dictionary says under its
      "success" key: true, false, or no such key at all, in which case the
      step's `result["success"]` raises a KeyError. */
  datatype ActionOutcome = ActionSucceeded | ActionFailed | NoSuccessKey

  /** The outcome of an action executor reply: only the reply of ask_user
      carries no "success" key. */
  function OutcomeOf(r: AE.Reply): (o: ActionOutcome)
    ensures o.NoSuccessKey? <==> r.Question?
    ensures o.ActionSucceeded? <==> AE.Success(r)
  {
    if r.Question? then NoSuccessKey
    else if AE.Success(r) then ActionSucceeded
    else ActionFailed
  }

  /** Everything a step takes from outside: the dump, the model's reply, the
      screen size used for the log, and what the action's result says. */
  datatype StepEnv = StepEnv(ui: UiOutcome, reply: Reply, screen: (int, int), outcome: ActionOutcome)

  datatype RunResult =
    | Completed(steps: int, reasonGiven: Json, totalTokens: int, promptTokens: int, completionTokens: int)
    | Stopped(steps: int, message: string, reason: string, shouldFallback: bool)

  class XmlKernelAgent {
    const maxSteps: int
    const maxContextTurns: nat
    const systemPrompt: string

    var context: seq<Message>
    var stepCount: int
    var totalTokens: int
    var totalPromptTokens: int
    var totalCompletionTokens: int
    var lastStepTokens: Option<map<string, int>>
    // Counters the Python code creates on first use; `run` and `reset` leave them as they are.
    var emptyUiCount: int
    var consecutiveFailures: int
    var exceptionCount: int
    var emptyLlmCount: int

    constructor(maxSteps: int, maxContextTurns: nat, systemPrompt: string)
      ensures this.maxSteps == maxSteps && this.maxContextTurns == maxContextTurns && this.systemPrompt == systemPrompt
      ensures context == [] && stepCount == 0 && lastStepTokens == None
      ensures totalTokens == 0 && totalPromptTokens == 0 && totalCompletionTokens == 0
      ensures emptyUiCount == 0 && consecutiveFailures == 0 && exceptionCount == 0 && emptyLlmCount == 0
    {
      this.maxSteps := maxSteps;
      this.maxContextTurns := maxContextTurns;
      this.systemPrompt := systemPrompt;
      context := [];
      stepCount := 0;
      totalTokens, totalPromptTokens, totalCompletionTokens := 0, 0, 0;
      lastStepTokens := None;
      emptyUiCount, consecutiveFailures, exceptionCount, emptyLlmCount := 0, 0, 0, 0;
    }

    /** `_get_llm_decision`: trims the context, adds the user message and
        turns the reply into a decision; only an accepted reply is recorded
        as the assistant's message. Every failure becomes a "wait". */
    method GetLlmDecision(goal: string, elementsText: string, isFirst: bool, reply: Reply)
      returns (decision: map<string, Json>, usage: Option<map<string, int>>)
      modifies this`context, this`emptyLlmCount
      ensures "action" in decision
      ensures context == Compress(old(context), maxContextTurns) + [Message("user", UserMessage(goal, elementsText, isFirst))]
                         + (if Accepted(reply) then [Message("assistant", reply.raw)] else [])
      ensures Accepted(reply) ==> decision == ValidateDecision(reply.parsed.value).value
      ensures Accepted(reply) ==> usage == (if reply.usage != map[] then Some(reply.usage) else None)
      ensures !Accepted(reply) ==> usage == None && decision["action"] == JStr("wait")
      ensures reply.CallFailed? ==> decision == WaitDecision("LLM调用失败: " + reply.error)
      ensures reply.Replied? && Strip(reply.raw) == [] ==>
        emptyLlmCount == old(emptyLlmCount) + 1
        && decision == WaitDecision(if emptyLlmCount >= 2 then "LLM调用失败: LLM连续返回空响应" else "LLM返回空响应，等待重试")
      ensures reply.Replied? && Strip(reply.raw) != [] ==>
        emptyLlmCount == (if reply.parsed.Ok? then 0 else old(emptyLlmCount))
      ensures reply.CallFailed? ==> emptyLlmCount == old(emptyLlmCount)
    {
      context := Compress(context, maxContextTurns);
      context := context + [Message("user", UserMessage(goal, elementsText, isFirst))];
      match reply
      case CallFailed(error) =>
        return WaitDecision("LLM调用失败: " + error), None;
      case Replied(raw, parsed, replyUsage) =>
        if Strip(raw) == [] {
          emptyLlmCount := emptyLlmCount + 1;
          if emptyLlmCount >= 2 {
            return WaitDecision("LLM调用失败: LLM连续返回空响应"), None;
          }
          return WaitDecision("LLM返回空响应，等待重试"), None;
        }
        if parsed.Err? {
          return WaitDecision("JSON解析失败: " + parsed.msg), None;
        }
        emptyLlmCount := 0;
        match ValidateDecision(parsed.value)
        case Err(reason) =>
          return WaitDecision(reason), None;
        case Ok(d) =>
          context := context + [Message("assistant", raw)];
          return d, if replyUsage != map[] then Some(replyUsage) else None;
    }

    /** One pass of `run`'s loop body for step number `step + 1`: the UI
        dump and the empty-dump counter; `stop` is the result when the run
        ends here. */
    method Step(goal: string, step: nat, env: StepEnv) returns (stop: Option<RunResult>, decision: map<string, Json>)
      modifies this`context, this`emptyLlmCount, this`stepCount, this`emptyUiCount, this`consecutiveFailures,
        this`exceptionCount, this`totalTokens, this`totalPromptTokens, this`totalCompletionTokens, this`lastStepTokens
      ensures stepCount == step + 1
      ensures |old(context)| > 0 ==> |context| > 0 && context[0] == old(context)[0]
      ensures env.ui.UiUnavailable? ==>
        stop == Some(Stopped(step + 1, "UI获取失败: " + env.ui.error, "ui_unavailable", true))
      ensures env.ui.Elements? && env.ui.count == 0 ==>
        && emptyUiCount == old(emptyUiCount) + 1
        && (stop.Some? <==> emptyUiCount >= 2)
        && (stop.Some? ==> stop.value == Stopped(step + 1, "连续多次无法获取UI元素", "ui_consistently_empty", true))
      ensures env.ui.Elements? && env.ui.count > 0 ==> emptyUiCount == 0 && "action" in decision
      ensures env.ui.Elements? && env.ui.count > 0 ==> Concluded(step, decision, env, stop)
      ensures stop.Some? ==> Final(stop.value, step)
      ensures !(env.ui.Elements? && env.ui.count > 0) ==>
        && context == old(context) && emptyLlmCount == old(emptyLlmCount) && decision == map[]
        && totalTokens == old(totalTokens) && totalPromptTokens == old(totalPromptTokens)
        && totalCompletionTokens == old(totalCompletionTokens) && lastStepTokens == old(lastStepTokens)
      ensures env.ui.Elements? && env.ui.count > 0 ==>
        && context == Compress(old(context), maxContextTurns) + [Message("user", UserMessage(goal, env.ui.listing, step == 0))]
                      + (if Accepted(env.reply) then [Message("assistant", env.reply.raw)] else [])
        && (Accepted(env.reply) ==> decision == ValidateDecision(env.reply.parsed.value).value)
        && (!Accepted(env.reply) ==> decision["action"] == JStr("wait"))
      ensures env.ui.Elements? && env.ui.count > 0 && Accepted(env.reply) && env.reply.usage != map[] ==>
        && totalPromptTokens == old(totalPromptTokens) + Tokens(env.reply.usage, "prompt_tokens")
        && totalCompletionTokens == old(totalCompletionTokens) + Tokens(env.reply.usage, "completion_tokens")
        && totalTokens == old(totalTokens) + Tokens(env.reply.usage, "total_tokens")
        && lastStepTokens == Some(env.reply.usage)
      ensures !(env.ui.Elements? && env.ui.count > 0 && Accepted(env.reply) && env.reply.usage != map[]) ==>
        && totalTokens == old(totalTokens) && totalPromptTokens == old(totalPromptTokens)
        && totalCompletionTokens == old(totalCompletionTokens) && lastStepTokens == old(lastStepTokens)
    {
      stepCount := step + 1;
      decision := map[];
      if env.ui.UiUnavailable? {
        stop := Some(Stopped(stepCount, "UI获取失败: " + env.ui.error, "ui_unavailable", true));
      } else if env.ui.count == 0 {
        emptyUiCount := emptyUiCount + 1;
        stop := if emptyUiCount >= 2 then Some(Stopped(stepCount, "连续多次无法获取UI元素", "ui_consistently_empty", true)) else None;
      } else {
        emptyUiCount := 0;
        decision := Think(goal, env.ui.listing, step == 0, env.reply);
        stop := Conclude(step, decision, env);
      }
    }

    /** The model's turn of a step that has UI elements: the decision, the
        context it leaves and the token totals its reply adds. */
    method Think(goal: string, listing: string, isFirst: bool, reply: Reply) returns (decision: map<string, Json>)
      modifies this`context, this`emptyLlmCount, this`totalTokens, this`totalPromptTokens,
        this`totalCompletionTokens, this`lastStepTokens
      ensures "action" in decision
      ensures context == Compress(old(context), maxContextTurns) + [Message("user", UserMessage(goal, listing, isFirst))]
                         + (if Accepted(reply) then [Message("assistant", reply.raw)] else [])
      ensures Accepted(reply) ==> decision == ValidateDecision(reply.parsed.value).value
      ensures !Accepted(reply) ==> decision["action"] == JStr("wait")
      ensures Accepted(reply) && reply.usage != map[] ==>
        && totalPromptTokens == old(totalPromptTokens) + Tokens(reply.usage, "prompt_tokens")
        && totalCompletionTokens == old(totalCompletionTokens) + Tokens(reply.usage, "completion_tokens")
        && totalTokens == old(totalTokens) + Tokens(reply.usage, "total_tokens")
        && lastStepTokens == Some(reply.usage)
      ensures !(Accepted(reply) && reply.usage != map[]) ==>
        && totalTokens == old(totalTokens) && totalPromptTokens == old(totalPromptTokens)
        && totalCompletionTokens == old(totalCompletionTokens) && lastStepTokens == old(lastStepTokens)
    {
      var usage;
      decision, usage := GetLlmDecision(goal, listing, isFirst, reply);
      AddUsage(usage);
    }

    /** The token totals after a step whose reply reported `usage`. */
    method AddUsage(usage: Option<map<string, int>>)
      modifies this`totalTokens, this`totalPromptTokens, this`totalCompletionTokens, this`lastStepTokens
      ensures usage.None? ==> unchanged(this)
      ensures usage.Some? ==>
        && totalPromptTokens == old(totalPromptTokens) + Tokens(usage.value, "prompt_tokens")
        && totalCompletionTokens == old(totalCompletionTokens) + Tokens(usage.value, "completion_tokens")
        && totalTokens == old(totalTokens) + Tokens(usage.value, "total_tokens")
        && lastStepTokens == usage
    {
      if usage.Some? {
        totalPromptTokens := totalPromptTokens + Tokens(usage.value, "prompt_tokens");
        totalCompletionTokens := totalCompletionTokens + Tokens(usage.value, "completion_tokens");
        totalTokens := totalTokens + Tokens(usage.value, "total_tokens");
        lastStepTokens := usage;
      }
    }

    /** A result `run` returns from inside its loop at step `step + 1`. */
    ghost predicate Final(r: RunResult, step: nat)
      reads this`totalTokens, this`totalPromptTokens, this`totalCompletionTokens
    {
      && r.steps == step + 1
      && (r.Stopped? ==> r.reason != "max_steps_reached")
      && (r.Completed? ==> r.totalTokens == totalTokens && r.promptTokens == totalPromptTokens
                           && r.completionTokens == totalCompletionTokens)
    }

    /** How a step with a decision ends: a log conversion that raises, or a
        result without a "success" key, counts an exception (five stop the
        run), a failed action counts a failure (three stop the run), and a
        successful "done" completes it. */
    twostate predicate Concluded(step: nat, decision: map<string, Json>, env: StepEnv, new stop: Option<RunResult>)
      reads this
    {
      && (NormalizeActionForLog(decision, env.screen.0, env.screen.1).None? || env.outcome.NoSuccessKey? ==>
            && exceptionCount == old(exceptionCount) + 1 && consecutiveFailures == old(consecutiveFailures)
            && (stop.Some? <==> exceptionCount >= 5)
            && (stop.Some? ==> stop.value == Stopped(step + 1, "连续多次异常", "too_many_exceptions", true)))
      && (NormalizeActionForLog(decision, env.screen.0, env.screen.1).Some? && env.outcome.ActionFailed? ==>
            && consecutiveFailures == old(consecutiveFailures) + 1
            && (stop.Some? <==> consecutiveFailures >= 3)
            && (stop.Some? ==> stop.value == Stopped(step + 1, "连续多次动作失败", "action_consistently_failing", true)))
      && (NormalizeActionForLog(decision, env.screen.0, env.screen.1).Some? && env.outcome.ActionSucceeded? ==>
            && consecutiveFailures == 0
            && (stop.Some? <==> Get(decision, "action", JNull) == JStr("done"))
            && (stop.Some? ==> stop.value == Completed(step + 1, Get(decision, "reason", JStr("任务完成")),
                                                       totalTokens, totalPromptTokens, totalCompletionTokens)))
    }

    /** The rest of the loop body once the decision is known. */
    method Conclude(step: nat, decision: map<string, Json>, env: StepEnv) returns (stop: Option<RunResult>)
      modifies this`exceptionCount, this`consecutiveFailures
      ensures Concluded(step, decision, env, stop)
      ensures stop.Some? ==> Final(stop.value, step)
    {
      if NormalizeActionForLog(decision, env.screen.0, env.screen.1).None? || env.outcome.NoSuccessKey? {
        exceptionCount := exceptionCount + 1;
        if exceptionCount >= 5 {
          return Some(Stopped(step + 1, "连续多次异常", "too_many_exceptions", true));
        }
        return None;
      }
      if env.outcome.ActionFailed? {
        consecutiveFailures := consecutiveFailures + 1;
        if consecutiveFailures >= 3 {
          return Some(Stopped(step + 1, "连续多次动作失败", "action_consistently_failing", true));
        }
        return None;
      }
      consecutiveFailures := 0;
      if Get(decision, "action", JNull) == JStr("done") {
        return Some(Completed(step + 1, Get(decision, "reason", JStr("任务完成")),
                              totalTokens, totalPromptTokens, totalCompletionTokens));
      }
      return None;
    }

    /** `run`: starts a fresh context with the system prompt and takes up to
        `max_steps` steps; the token totals and the failure counters carry
        over from earlier runs. */
    method Run(goal: string, env: nat -> StepEnv) returns (r: RunResult)
      modifies this`context, this`emptyLlmCount, this`stepCount, this`emptyUiCount, this`consecutiveFailures,
        this`exceptionCount, this`totalTokens, this`totalPromptTokens, this`totalCompletionTokens, this`lastStepTokens
      ensures r.steps == stepCount
      ensures maxSteps > 0 ==> 1 <= r.steps <= maxSteps
      ensures maxSteps <= 0 ==> r == Stopped(0, "达到最大步骤数，任务未完成", "max_steps_reached", true)
      ensures r.Stopped? && r.reason == "max_steps_reached" ==> r.steps == Max(maxSteps, 0) && r.shouldFallback
      ensures r.Completed? ==> r.totalTokens == totalTokens && r.promptTokens == totalPromptTokens
                               && r.completionTokens == totalCompletionTokens
      ensures |context| > 0 && context[0] == Message("system", systemPrompt)
    {
      context := [Message("system", systemPrompt)];
      stepCount := 0;
      var step := 0;
      while step < maxSteps
        invariant 0 <= step && (maxSteps > 0 ==> step <= maxSteps) && (maxSteps <= 0 ==> step == 0)
        invariant stepCount == step
        invariant |context| > 0 && context[0] == Message("system", systemPrompt)
      {
        var stop, _ := Step(goal, step, env(step));
        if stop.Some? {
          return stop.value;
        }
        step := step + 1;
      }
      return Stopped(stepCount, "达到最大步骤数，任务未完成", "max_steps_reached", true);
    }

    /** `reset`: clears the context, the step count and the token totals. */
    method Reset()
      modifies this`context, this`stepCount, this`totalTokens, this`totalPromptTokens,
        this`totalCompletionTokens, this`lastStepTokens
      ensures context == [] && stepCount == 0 && lastStepTokens == None
      ensures totalTokens == 0 && totalPromptTokens == 0 && totalCompletionTokens == 0
    {
      context := [];
      stepCount := 0;
      totalTokens, totalPromptTokens, totalCompletionTokens := 0, 0, 0;
      lastStepTokens := None;
    }
  }

  /** `token_usage.get(key, 0)`. */
  function Tokens(usage: map<string, int>, key: string): int {
    if key in usage then usage[key] else 0
  }
}
