/**
 * The planning agent's plan record and the checks around it: conversion of a
 * plan to and from its dictionary, validation of a plan's steps, the step-id
 * backfill applied to the model's reply, and the rejection of replies that
 * refuse the task. The model call and the JSON decoding of its reply are not
 * modelled: the decoded reply is an input.
 */
module Planner {
  import opened Util

  type Step = map<string, Json>

  datatype TaskPlan = TaskPlan(
    instruction: string,
    complexity: string,
    taskAnalysis: string,
    overallStrategy: string,
    estimatedDurationSeconds: int,
    steps: seq<Step>,
    checkpoints: seq<Step>,
    riskPoints: seq<string>)

  const PlanKeys := {"instruction", "complexity", "task_analysis", "overall_strategy",
                     "estimated_duration_seconds", "steps", "checkpoints", "risk_points"}

  function ObjectsToJson(s: seq<Step>): (r: seq<Json>)
    ensures |r| == |s| && forall i :: 0 <= i < |s| ==> r[i] == JObj(s[i])
  {
    if s == [] then [] else [JObj(s[0])] + ObjectsToJson(s[1..])
  }

  function StringsToJson(s: seq<string>): (r: seq<Json>)
    ensures |r| == |s| && forall i :: 0 <= i < |s| ==> r[i] == JStr(s[i])
  {
    if s == [] then [] else [JStr(s[0])] + StringsToJson(s[1..])
  }

  /** A JSON list of objects, or None when some item is not an object. */
  function JsonToObjects(items: seq<Json>): (r: Option<seq<Step>>)
    ensures r.Some? <==> forall i :: 0 <= i < |items| ==> items[i].JObj?
    ensures r.Some? ==> |r.value| == |items| && forall i :: 0 <= i < |items| ==> r.value[i] == items[i].fields
  {
    if items == [] then Some([])
    else if !items[0].JObj? then None
    else match JsonToObjects(items[1..])
      case None => None
      case Some(rest) => Some([items[0].fields] + rest)
  }

  function JsonToStrings(items: seq<Json>): (r: Option<seq<string>>)
    ensures r.Some? <==> forall i :: 0 <= i < |items| ==> items[i].JStr?
    ensures r.Some? ==> |r.value| == |items| && forall i :: 0 <= i < |items| ==> r.value[i] == items[i].s
  {
    if items == [] then Some([])
    else if !items[0].JStr? then None
    else match JsonToStrings(items[1..])
      case None => None
      case Some(rest) => Some([items[0].s] + rest)
  }

  /** `to_dict`: the eight fields under their snake-case keys. */
  function ToDict(p: TaskPlan): (d: map<string, Json>)
    ensures d.Keys == PlanKeys
  {
    map[
      "instruction" := JStr(p.instruction),
      "complexity" := JStr(p.complexity),
      "task_analysis" := JStr(p.taskAnalysis),
      "overall_strategy" := JStr(p.overallStrategy),
      "estimated_duration_seconds" := JInt(p.estimatedDurationSeconds),
      "steps" := JArr(ObjectsToJson(p.steps)),
      "checkpoints" := JArr(ObjectsToJson(p.checkpoints)),
      "risk_points" := JArr(StringsToJson(p.riskPoints))]
  }

  function StringField(d: map<string, Json>, key: string, default: string): Option<string> {
    match Get(d, key, JStr(default))
    case JStr(s) => Some(s)
    case _ => None
  }

  function IntField(d: map<string, Json>, key: string, default: int): Option<int> {
    match Get(d, key, JInt(default))
    case JInt(i) => Some(i)
    case _ => None
  }

  function ObjectsField(d: map<string, Json>, key: string): Option<seq<Step>> {
    match Get(d, key, JArr([]))
    case JArr(items) => JsonToObjects(items)
    case _ => None
  }

  function StringsField(d: map<string, Json>, key: string): Option<seq<string>> {
    match Get(d, key, JArr([]))
    case JArr(items) => JsonToStrings(items)
    case _ => None
  }

  /**
   * `from_dict`: "instruction" is required; complexity defaults to "medium",
   * the texts to "", the duration to 30 and the lists to empty.
   */
  function FromDict(d: map<string, Json>): (r: Result<TaskPlan>)
    ensures "instruction" !in d ==> r.Err?
    ensures r.Ok? ==> JStr(r.value.instruction) == d["instruction"]
    ensures r.Ok? && "complexity" !in d ==> r.value.complexity == "medium"
    ensures r.Ok? && "task_analysis" !in d ==> r.value.taskAnalysis == ""
    ensures r.Ok? && "overall_strategy" !in d ==> r.value.overallStrategy == ""
    ensures r.Ok? && "estimated_duration_seconds" !in d ==> r.value.estimatedDurationSeconds == 30
    ensures r.Ok? && "steps" !in d ==> r.value.steps == []
    ensures r.Ok? && "checkpoints" !in d ==> r.value.checkpoints == []
    ensures r.Ok? && "risk_points" !in d ==> r.value.riskPoints == []
  {
    if "instruction" !in d || !d["instruction"].JStr? then Err("invalid plan structure")
    else
      var complexity := StringField(d, "complexity", "medium");
      var analysis := StringField(d, "task_analysis", "");
      var strategy := StringField(d, "overall_strategy", "");
      var duration := IntField(d, "estimated_duration_seconds", 30);
      var steps := ObjectsField(d, "steps");
      var checkpoints := ObjectsField(d, "checkpoints");
      var risks := StringsField(d, "risk_points");
      if complexity.None? || analysis.None? || strategy.None? || duration.None?
         || steps.None? || checkpoints.None? || risks.None? then Err("invalid plan structure")
      else Ok(TaskPlan(d["instruction"].s, complexity.value, analysis.value, strategy.value,
                       duration.value, steps.value, checkpoints.value, risks.value))
  }

  /** Converting a plan to its dictionary and back gives the same plan. */
  lemma FromDictToDict(p: TaskPlan)
    ensures FromDict(ToDict(p)) == Ok(p)
  {
    ToDictTexts(p);
    ToDictLists(p);
  }

  lemma ToDictTexts(p: TaskPlan)
    ensures var d := ToDict(p);
      d["instruction"] == JStr(p.instruction)
      && StringField(d, "complexity", "medium") == Some(p.complexity)
      && StringField(d, "task_analysis", "") == Some(p.taskAnalysis)
      && StringField(d, "overall_strategy", "") == Some(p.overallStrategy)
      && IntField(d, "estimated_duration_seconds", 30) == Some(p.estimatedDurationSeconds)
  {
  }

  lemma ToDictLists(p: TaskPlan)
    ensures var d := ToDict(p);
      ObjectsField(d, "steps") == Some(p.steps)
      && ObjectsField(d, "checkpoints") == Some(p.checkpoints)
      && StringsField(d, "risk_points") == Some(p.riskPoints)
  {
    var d := ToDict(p);
    ObjectsFieldOf(d, "steps", p.steps);
    ObjectsFieldOf(d, "checkpoints", p.checkpoints);
    StringsFieldOf(d, "risk_points", p.riskPoints);
  }

  lemma ObjectsFieldOf(d: map<string, Json>, key: string, objects: seq<Step>)
    requires key in d && d[key] == JArr(ObjectsToJson(objects))
    ensures ObjectsField(d, key) == Some(objects)
  {
    assert JsonToObjects(ObjectsToJson(objects)).value == objects;
  }

  lemma StringsFieldOf(d: map<string, Json>, key: string, strings: seq<string>)
    requires key in d && d[key] == JArr(StringsToJson(strings))
    ensures StringsField(d, key) == Some(strings)
  {
    assert JsonToStrings(StringsToJson(strings)).value == strings;
  }

  /** A dictionary a plan was read from comes back with the same eight entries. */
  lemma ToDictFromDict(d: map<string, Json>)
    requires FromDict(d).Ok? && d.Keys == PlanKeys
    ensures ToDict(FromDict(d).value) == d
  {
    var p := FromDict(d).value;
    var e := ToDict(p);
    assert d["steps"].JArr? && d["checkpoints"].JArr? && d["risk_points"].JArr?;
    assert ObjectsToJson(p.steps) == d["steps"].items;
    assert ObjectsToJson(p.checkpoints) == d["checkpoints"].items;
    assert StringsToJson(p.riskPoints) == d["risk_points"].items;
    forall k | k in PlanKeys ensures e[k] == d[k] {
    }
  }

  const ValidActionTypes := {"LAUNCH", "TAP", "DOUBLE_TAP", "LONG_PRESS", "TYPE", "CLEAR_TEXT",
                             "SWIPE", "BACK", "HOME", "WAIT", "CHECKPOINT"}

  function HasAll(params: Json, keys: seq<string>): Option<bool> {
    if keys == [] then Some(true)
    else match Has(params, keys[0])
      case None => None
      case Some(false) => Some(false)
      case Some(true) => HasAll(params, keys[1..])
  }

  /** The parameters an action type requires. */
  function RequiredParams(actionType: string): seq<string> {
    if actionType == "LAUNCH" then ["app_name"]
    else if actionType == "TAP" || actionType == "DOUBLE_TAP" || actionType == "LONG_PRESS" then ["x", "y"]
    else if actionType == "TYPE" then ["text"]
    else if actionType == "SWIPE" then ["start_x", "start_y", "end_x", "end_y"]
    else if actionType == "WAIT" then ["seconds"]
    else []
  }

  /** The message for a step lacking what its action type requires. */
  function MissingMessage(t: string): string {
    if t == "LAUNCH" then "LAUNCH缺少app_name"
    else if t == "TAP" || t == "DOUBLE_TAP" then t + "缺少坐标"
    else if t == "LONG_PRESS" then "LONG_PRESS缺少坐标"
    else if t == "TYPE" then "TYPE缺少text"
    else if t == "SWIPE" then "SWIPE缺少坐标"
    else "WAIT缺少seconds"
  }

  /** `str()` of a hashable JSON scalar; None for lists and objects, which cannot be looked up in a set. */
  function ScalarText(j: Json): Option<string> {
    match j
    case JStr(s) => Some(s)
    case JInt(i) => Some(IntToString(i))
    case JBool(b) => Some(if b then "True" else "False")
    case JNull => Some("None")
    case _ => None
  }

  /** Outcome of checking one step: fine, the message for a defect, or the `in` test raising. */
  datatype StepCheck = StepOk | StepInvalid(message: string) | StepRaises

  function Numbered(i: nat, what: string): string {
    "步骤 " + NatToString(i) + " " + what
  }

  /** The checks `validate_plan` makes on step number `i` (1-based), in their order. */
  function CheckStep(step: Step, i: nat): (r: StepCheck)
    ensures r == StepOk <==>
      "step_id" in step && "action_type" in step && "parameters" in step
      && step["action_type"].JStr? && step["action_type"].s in ValidActionTypes
      && HasAll(step["parameters"], RequiredParams(step["action_type"].s)) == Some(true)
  {
    if "step_id" !in step then StepInvalid(Numbered(i, "缺少step_id"))
    else if "action_type" !in step then StepInvalid(Numbered(i, "缺少action_type"))
    else if ScalarText(step["action_type"]).None? then StepRaises
    else if !step["action_type"].JStr? || step["action_type"].s !in ValidActionTypes then
      StepInvalid(Numbered(i, "有无效的action_type: " + ScalarText(step["action_type"]).value))
    else if "parameters" !in step then StepInvalid(Numbered(i, "缺少parameters"))
    else
      var t := step["action_type"].s;
      match HasAll(step["parameters"], RequiredParams(t))
      case None => StepRaises
      case Some(true) => StepOk
      case Some(false) => StepInvalid(Numbered(i, MissingMessage(t)))
  }

  /** The verdict of `validate_plan`. */
  datatype Verdict = Valid | Invalid(message: string) | Raises

  function CheckSteps(steps: seq<Step>, first: nat): (r: Verdict)
    ensures r == Valid <==> forall k :: 0 <= k < |steps| ==> CheckStep(steps[k], first + k) == StepOk
    decreases |steps|
  {
    if steps == [] then Valid
    else match CheckStep(steps[0], first)
      case StepRaises => Raises
      case StepInvalid(m) => Invalid(m)
      case StepOk =>
        var r := CheckSteps(steps[1..], first + 1);
        assert forall k :: 1 <= k < |steps| ==> steps[k] == steps[1..][k - 1];
        r
  }

  function ValidatePlan(p: TaskPlan): (r: Verdict)
    ensures p.instruction == [] ==> r == Invalid("计划必须有指令")
    ensures p.instruction != [] && p.steps == [] ==> r == Invalid("计划必须至少有一个步骤")
  {
    if p.instruction == [] then Invalid("计划必须有指令")
    else if p.steps == [] then Invalid("计划必须至少有一个步骤")
    else CheckSteps(p.steps, 1)
  }

  /**
   * A plan is valid exactly when it has an instruction and steps, and every
   * step has an id, a known action type and that type's parameters.
   */
  lemma ValidPlanIff(p: TaskPlan)
    ensures ValidatePlan(p) == Valid <==>
      p.instruction != [] && p.steps != [] &&
      forall k :: 0 <= k < |p.steps| ==>
        var s := p.steps[k];
        "step_id" in s && "action_type" in s && "parameters" in s && s["action_type"].JStr?
        && s["action_type"].s in ValidActionTypes
        && HasAll(s["parameters"], RequiredParams(s["action_type"].s)) == Some(true)
  {
    if p.instruction != [] && p.steps != [] {
      assert CheckSteps(p.steps, 1) == Valid <==>
        forall k :: 0 <= k < |p.steps| ==> CheckStep(p.steps[k], 1 + k) == StepOk;
    }
  }

  /** A SWIPE step with only a start point is rejected, as "SWIPE缺少坐标". */
  lemma SwipeNeedsEndPoint(x: Json, y: Json, id: Json, i: nat)
    ensures var params := JObj(map["start_x" := x, "start_y" := y]);
      HasAll(params, RequiredParams("SWIPE")) == Some(false) &&
      CheckStep(map["step_id" := id, "action_type" := JStr("SWIPE"), "parameters" := params], i)
        == StepInvalid("步骤 " + NatToString(i) + " SWIPE缺少坐标")
  {
    var params := JObj(map["start_x" := x, "start_y" := y]);
    var keys := ["start_x", "start_y", "end_x", "end_y"];
    assert RequiredParams("SWIPE") == keys;
    assert Has(params, "start_x") == Some(true) && Has(params, "start_y") == Some(true);
    assert Has(params, "end_x") == Some(false);
    assert keys[1..][1..] == ["end_x", "end_y"];
    assert HasAll(params, keys[1..][1..]) == Some(false);
  }

  /** A step keeps its own "step_id"; one without gets `position`. */
  function WithStepId(step: Step, position: nat): (r: Step)
    ensures "step_id" in r && (r.Keys == step.Keys + {"step_id"})
    ensures "step_id" in step ==> r == step
    ensures "step_id" !in step ==> r["step_id"] == JInt(position) && forall k :: k in step ==> r[k] == step[k]
  {
    if "step_id" in step then step else step["step_id" := JInt(position)]
  }

  /** The steps of a list of dictionaries after the backfill. */
  function Backfilled(items: seq<Json>): (r: seq<Step>)
    requires forall i :: 0 <= i < |items| ==> items[i].JObj?
    ensures |r| == |items| && forall i :: 0 <= i < |items| ==> r[i] == WithStepId(items[i].fields, i + 1)
  {
    if items == [] then []
    else
      var k := |items| - 1;
      Backfilled(items[..k]) + [WithStepId(items[k].fields, k + 1)]
  }

  /**
   * Step-id backfill: every dictionary step without "step_id" gets its
   * 1-based position; a step that is not a dictionary is an error.
   */
  method BackfillStepIds(items: seq<Json>) returns (r: Result<seq<Step>>)
    ensures r.Ok? <==> forall i :: 0 <= i < |items| ==> items[i].JObj?
    ensures r.Ok? ==> r.value == Backfilled(items)
    ensures r.Err? ==> exists i :: (0 <= i < |items| && !items[i].JObj?
      && r.msg == "无效的步骤格式: 步骤 " + NatToString(i + 1) + " 必须是字典")
  {
    var out: seq<Step> := [];
    var i := 0;
    while i < |items|
      invariant 0 <= i <= |items| && |out| == i
      invariant forall k :: 0 <= k < i ==> items[k].JObj?
      invariant forall k :: 0 <= k < i ==> out[k] == WithStepId(items[k].fields, k + 1)
    {
      if !items[i].JObj? {
        return Err("无效的步骤格式: 步骤 " + NatToString(i + 1) + " 必须是字典");
      }
      var step := items[i].fields;
      if "step_id" !in step {
        step := step["step_id" := JInt(i + 1)];
      }
      out := out + [step];
      i := i + 1;
    }
    assert out == Backfilled(items);
    return Ok(out);
  }

  /**
   * The plan built from the decoded reply: a bare list of steps is wrapped
   * with 10 seconds per step and no checkpoints or risks; a dictionary gets
   * its "steps" list backfilled; anything else fails to become a plan.
   */
  method PlanFromReply(task: string, reply: Json) returns (r: Result<TaskPlan>)
    ensures reply.JArr? && (forall i :: 0 <= i < |reply.items| ==> reply.items[i].JObj?) ==>
      r == Ok(TaskPlan(task, "medium", "AI直接返回了步骤列表", "按照步骤顺序执行",
                       |reply.items| * 10, Backfilled(reply.items), [], []))
    ensures reply.JArr? && !(forall i :: 0 <= i < |reply.items| ==> reply.items[i].JObj?) ==> r.Err?
    ensures reply.JObj? && "steps" in reply.fields && reply.fields["steps"].JArr? ==>
      var items := reply.fields["steps"].items;
      if forall i :: 0 <= i < |items| ==> items[i].JObj? then
        r == FromDict(reply.fields["steps" := JArr(ObjectsToJson(Backfilled(items)))])
      else r.Err?
    ensures reply.JObj? && !("steps" in reply.fields && reply.fields["steps"].JArr?) ==> r == FromDict(reply.fields)
    ensures !reply.JArr? && !reply.JObj? ==> r.Err?
    // whatever the reply, every step of the plan carries a step id
    ensures r.Ok? ==> forall i :: 0 <= i < |r.value.steps| ==> "step_id" in r.value.steps[i]
  {
    if reply.JArr? {
      var steps := BackfillStepIds(reply.items);
      if steps.Err? {
        return Err(steps.msg);
      }
      return Ok(TaskPlan(task, "medium", "AI直接返回了步骤列表", "按照步骤顺序执行",
                         |steps.value| * 10, steps.value, [], []));
    } else if reply.JObj? {
      var d := reply.fields;
      if "steps" in d && d["steps"].JArr? {
        var steps := BackfillStepIds(d["steps"].items);
        if steps.Err? {
          return Err(steps.msg);
        }
        d := d["steps" := JArr(ObjectsToJson(steps.value))];
        r := FromDict(d);
        if r.Ok? {
          assert d["steps"] == JArr(ObjectsToJson(steps.value));
          assert JsonToObjects(ObjectsToJson(steps.value)).value == steps.value;
        }
        return r;
      }
      r := FromDict(d);
      return r;
    } else {
      return Err("invalid plan structure");
    }
  }

  const NoToolTag := "[notool]"
  const SensitiveTag := "[sensitive]"

  /**
   * The tag check of the reply parser: a reply that starts (after stripping)
   * with "[notool]" or "[sensitive]" is refused; otherwise the decoded JSON is
   * passed on.
   */
  function ParseReply(response: string, decoded: Result<Json>): (r: Result<Json>)
    ensures StartsWith(Strip(response), NoToolTag) ==> r.Err?
    ensures StartsWith(Strip(response), SensitiveTag) ==> r.Err?
    ensures !StartsWith(Strip(response), NoToolTag) && !StartsWith(Strip(response), SensitiveTag) ==>
      r == decoded
  {
    var t := Strip(response);
    if StartsWith(t, NoToolTag) then Err("任务不需要手机操作。")
    else if StartsWith(t, SensitiveTag) then Err("检测到敏感操作(支付、密码、登录、银行应用)。")
    else decoded
  }
}
