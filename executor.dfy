/** The plan executor: runs the steps of a task plan with retries, decides
    how checkpoints are validated (UI tree or vision model, within a vision
    budget), asks a human for confirmation or input, and locates elements by
    selector. Device effects, the vision model and the human callback are
    oracles passed in as values. */
module Executor {
  import opened Util
  import Planner

  type Step = Planner.Step

  /** The `(success, message)` pair every `_execute_*` helper returns.  An
      exception caught by the caller becomes a failure whose message is the
      caller's prefix (the exception text itself is not modelled). */
  datatype StepResult = StepResult(ok: bool, message: string)

  datatype ExecutionResult = ExecutionResult(
    success: bool,
    completedSteps: nat,
    totalSteps: nat,
    failedStep: Option<nat>,
    errorMessage: Option<string>,
    fallbackToStepByStep: bool)

  /** What the vision model call yields: no screenshot, a reply text, or an exception. */
  datatype VisionReply = NoScreenshot | Reply(content: string) | VisionRaises

  /** The screen as the validators see it: the foreground app, the texts of the
      UI-tree elements (`""` for an element without text) and the vision reply. */
  datatype Screen = Screen(currentApp: string, texts: seq<string>, vision: VisionReply)

  /** What the human-intervention callback yields. */
  datatype HumanReply = Declined | Answered(response: Json) | CallbackRaises

  /** A UI element as the selector search sees it (`""` for a missing attribute). */
  datatype UiElement = UiElement(
    text: string, contentDesc: string, resourceId: string, className: string,
    centerX: int, centerY: int)

  /** An element selector; a falsy or missing field is `""`. */
  datatype Selector = Selector(text: string, contentDesc: string, resourceId: string, className: string)

  /** `str(v)` for the scalar values messages interpolate. */
  function Shown(j: Json): string {
    Planner.ScalarText(j).GetOr("")
  }

  /** Python's `v == n` for a JSON value and an int (`True == 1`). */
  predicate PyEqualsInt(v: Json, n: int) {
    IntValue(v) == Some(n)
  }

  predicate IsHumanStep(step: Step) {
    var t := Get(step, "action_type", JNull);
    t == JStr("HUMAN_CONFIRM") || t == JStr("HUMAN_INPUT")
  }

  /** The index of the first successful attempt among the first `limit`. */
  function FirstSuccess(attempts: seq<StepResult>, limit: nat): (r: Option<nat>)
    requires limit <= |attempts|
    ensures r.Some? ==> r.value < limit && attempts[r.value].ok
    ensures r.Some? ==> forall j :: 0 <= j < r.value ==> !attempts[j].ok
    ensures r.None? ==> forall j :: 0 <= j < limit ==> !attempts[j].ok
  {
    if limit == 0 then None
    else
      match FirstSuccess(attempts, limit - 1)
      case Some(j) => Some(j)
      case None => if attempts[limit - 1].ok then Some(limit - 1) else None
  }

  // ---------------------------------------------------------------------
  // Critical steps and element lookup
  // ---------------------------------------------------------------------

  /** A checkpoint marks step `n` as critical. */
  predicate MarksCritical(checkpoint: Step, n: int) {
    PyEqualsInt(Get(checkpoint, "step_id", JNull), n) && Truthy(Get(checkpoint, "critical", JBool(false)))
  }

  /** `_is_critical_step`: some checkpoint names step `n` and is critical. */
  function IsCriticalStep(checkpoints: seq<Step>, n: int): (r: bool)
    ensures r <==> exists k :: 0 <= k < |checkpoints| && MarksCritical(checkpoints[k], n)
  {
    if checkpoints == [] then false
    else if MarksCritical(checkpoints[0], n) then true
    else
      var rest := IsCriticalStep(checkpoints[1..], n);
      assert forall k :: 1 <= k < |checkpoints| ==> checkpoints[k] == checkpoints[1..][k - 1];
      assert rest ==> exists k :: 0 <= k < |checkpoints| && MarksCritical(checkpoints[k], n) by {
        if rest {
          var k :| 0 <= k < |checkpoints[1..]| && MarksCritical(checkpoints[1..][k], n);
          assert MarksCritical(checkpoints[k + 1], n);
        }
      }
      rest
  }

  /** One element satisfies one of the selector's conditions: text or content
      description case-insensitively contained, resource id equal, or class
      name contained. */
  predicate MatchesSelector(sel: Selector, e: UiElement) {
    (sel.text != "" && e.text != "" && Contains(Lower(e.text), Lower(sel.text)))
    || (sel.contentDesc != "" && e.contentDesc != "" && Contains(Lower(e.contentDesc), Lower(sel.contentDesc)))
    || (sel.resourceId != "" && e.resourceId == sel.resourceId)
    || (sel.className != "" && e.className != "" && Contains(e.className, sel.className))
  }

  /** `_find_element_by_selector`: the centre of the first matching element,
      or `(0, 0, false)`. */
  function FindBySelector(sel: Selector, elements: seq<UiElement>): (r: (int, int, bool))
    ensures r.2 <==> exists i :: 0 <= i < |elements| && MatchesSelector(sel, elements[i])
    ensures !r.2 ==> r == (0, 0, false)
    ensures r.2 ==> exists i :: 0 <= i < |elements| && MatchesSelector(sel, elements[i])
                      && (forall j :: 0 <= j < i ==> !MatchesSelector(sel, elements[j]))
                      && r == (elements[i].centerX, elements[i].centerY, true)
  {
    if elements == [] then (0, 0, false)
    else if MatchesSelector(sel, elements[0]) then (elements[0].centerX, elements[0].centerY, true)
    else
      var r := FindBySelector(sel, elements[1..]);
      assert forall i :: 1 <= i < |elements| ==> elements[i] == elements[1..][i - 1];
      if r.2 then
        var i :| 0 <= i < |elements[1..]| && MatchesSelector(sel, elements[1..][i])
                 && (forall j :: 0 <= j < i ==> !MatchesSelector(sel, elements[1..][j]))
                 && r == (elements[1..][i].centerX, elements[1..][i].centerY, true);
        assert forall j :: 0 <= j < i + 1 ==> !MatchesSelector(sel, elements[j]) by {
          forall j | 0 <= j < i + 1 ensures !MatchesSelector(sel, elements[j]) {
            if j > 0 { assert elements[j] == elements[1..][j - 1]; }
          }
        }
        r
      else
        r
  }

  // ---------------------------------------------------------------------
  // Scrolling
  // ---------------------------------------------------------------------

  const ScreenHeight := 3200
  const ScreenWidth := 1440

  /** The end point of a scroll of `distance` from `(x, y)`, kept on an
      assumed 1440x3200 screen; `None` for an unknown direction. */
  function ScrollEnd(direction: string, x: int, y: int, distance: int): (r: Option<(int, int)>)
    ensures r.Some? <==> direction in {"up", "down", "left", "right"}
    ensures direction == "up" ==> r.value.0 == x && r.value.1 >= 0 && r.value.1 <= Max(y - distance, 0)
                                  && (y - distance >= 0 ==> r.value.1 == y - distance)
    ensures direction == "down" ==> r.value.0 == x && r.value.1 <= ScreenHeight
                                    && (y + distance <= ScreenHeight ==> r.value.1 == y + distance)
                                    && (y + distance > ScreenHeight ==> r.value.1 == ScreenHeight)
    ensures direction == "left" ==> r.value.1 == y && r.value.0 >= 0
                                    && (x - distance >= 0 ==> r.value.0 == x - distance)
                                    && (x - distance < 0 ==> r.value.0 == 0)
    ensures direction == "right" ==> r.value.1 == y && r.value.0 <= ScreenWidth
                                     && (x + distance <= ScreenWidth ==> r.value.0 == x + distance)
                                     && (x + distance > ScreenWidth ==> r.value.0 == ScreenWidth)
  {
    if direction == "up" then Some((x, Max(0, y - distance)))
    else if direction == "down" then Some((x, Min(ScreenHeight, y + distance)))
    else if direction == "left" then Some((Max(0, x - distance), y))
    else if direction == "right" then Some((Min(ScreenWidth, x + distance), y))
    else None
  }

  /** `_execute_scroll`: defaults down, 500 px, from (720, 1600); `swiped`
      says whether the device swipe went through. */
  function ExecuteScroll(params: Step, swiped: bool): (r: StepResult)
    ensures var d := Get(params, "direction", JStr("down"));
            !(d.JStr? && d.s in {"up", "down", "left", "right"}) ==> r == StepResult(false, "Invalid scroll direction: " + Shown(d))
    ensures r.ok ==> swiped && Get(params, "direction", JStr("down")).JStr?
                     && ScrollEnd(Get(params, "direction", JStr("down")).s,
                                  IntValue(Get(params, "x", JInt(720))).GetOr(0),
                                  IntValue(Get(params, "y", JInt(1600))).GetOr(0),
                                  IntValue(Get(params, "distance", JInt(500))).GetOr(0)).Some?
  {
    var direction := Get(params, "direction", JStr("down"));
    var distance := Get(params, "distance", JInt(500));
    var x := Get(params, "x", JInt(720));
    var y := Get(params, "y", JInt(1600));
    if !(direction.JStr? && direction.s in {"up", "down", "left", "right"}) then
      StepResult(false, "Invalid scroll direction: " + Shown(direction))
    else if IntValue(x).None? || IntValue(y).None? || IntValue(distance).None? || !swiped then
      StepResult(false, "Failed to scroll: ")
    else
      assert ScrollEnd(direction.s, IntValue(x).value, IntValue(y).value, IntValue(distance).value).Some?;
      StepResult(true, "Scrolled " + direction.s + " by " + Shown(distance) + "px from ("
                       + Shown(x) + ", " + Shown(y) + ")")
  }

  /** `_execute_scroll` as written: the swipe call passes `duration=300`,
      a keyword `swipe` does not take, so every scroll in a known direction
      raises a TypeError that the handler reports as a failed scroll. */
  const SwipeKeywordError := "swipe() got an unexpected keyword argument 'duration'"

  function ExecuteScrollAsWritten(params: Step): StepResult {
    var direction := Get(params, "direction", JStr("down"));
    if !(direction.JStr? && direction.s in {"up", "down", "left", "right"}) then
      StepResult(false, "Invalid scroll direction: " + Shown(direction))
    else
      StepResult(false, "Failed to scroll: " + SwipeKeywordError)
  }

  /** As written, no scroll succeeds; corrected, a scroll with a known
      direction and whole-number coordinates succeeds exactly when the
      device swipe goes through. */
  lemma ScrollAsWrittenNeverSucceeds(params: Step)
    ensures !ExecuteScrollAsWritten(params).ok
    ensures var d := Get(params, "direction", JStr("down"));
            d.JStr? && d.s in {"up", "down", "left", "right"} ==>
              StartsWith(ExecuteScrollAsWritten(params).message, "Failed to scroll: ")
  {
    var d := Get(params, "direction", JStr("down"));
    if d.JStr? && d.s in {"up", "down", "left", "right"} {
      var head := "Failed to scroll: ";
      assert (head + SwipeKeywordError)[..|head|] == head;
    }
  }

  lemma ScrollSucceedsWhenSwiped(params: Step, swiped: bool)
    requires var d := Get(params, "direction", JStr("down")); d.JStr? && d.s in {"up", "down", "left", "right"}
    requires IntValue(Get(params, "x", JInt(720))).Some? && IntValue(Get(params, "y", JInt(1600))).Some?
    requires IntValue(Get(params, "distance", JInt(500))).Some?
    ensures ExecuteScroll(params, swiped).ok <==> swiped
  {
  }

  // ---------------------------------------------------------------------
  // XML validation of a checkpoint
  // ---------------------------------------------------------------------

  /** `needle in t` would be evaluated on a non-empty text with a non-string needle. */
  predicate SearchRaises(needle: Json, texts: seq<string>) {
    !needle.JStr? && exists i :: 0 <= i < |texts| && texts[i] != ""
  }

  /** Some non-empty element text contains the needle. */
  predicate TextFound(needle: Json, texts: seq<string>) {
    needle.JStr? && exists i :: 0 <= i < |texts| && texts[i] != "" && Contains(texts[i], needle.s)
  }

  const XmlErrorPrefix := "XML validation error: "
  const UiErrorPrefix := "UI 验证失败: "

  function AppMismatch(expected: Json, actual: string): string {
    "应用不匹配: 预期 '" + Shown(expected) + "', 实际 '" + actual + "'"
  }

  /** `_validate_with_xml` as written: the log lines after the app check and the
      two text checks read `current_app`, `required_text` and `forbidden_text`
      even when the branch that binds them was skipped, so a missing key raises
      and the check fails. */
  function ValidateWithXmlAsWritten(description: string, expected: Json, screen: Screen): (r: StepResult)
    ensures r.ok ==> expected.JObj? && "current_app" in expected.fields
                     && ("has_text" in expected.fields <==> "not_has_text" in expected.fields)
  {
    if !expected.JObj? then StepResult(false, XmlErrorPrefix)
    else
      var d := expected.fields;
      if "current_app" in d && d["current_app"] != JStr(screen.currentApp) then
        StepResult(false, AppMismatch(d["current_app"], screen.currentApp))
      else if "current_app" !in d then StepResult(false, XmlErrorPrefix)
      else if !("has_text" in d || "not_has_text" in d) then
        StepResult(true, "XML checkpoint passed: " + description)
      else if screen.texts == [] then StepResult(false, "UI 树为空，无法验证")
      else if "has_text" in d && SearchRaises(d["has_text"], screen.texts) then StepResult(false, UiErrorPrefix)
      else if "has_text" in d && !TextFound(d["has_text"], screen.texts) then
        StepResult(false, "未找到预期文本: '" + Shown(d["has_text"]) + "'")
      else if "has_text" !in d then StepResult(false, UiErrorPrefix)
      else if "not_has_text" in d && SearchRaises(d["not_has_text"], screen.texts) then StepResult(false, UiErrorPrefix)
      else if "not_has_text" in d && TextFound(d["not_has_text"], screen.texts) then
        StepResult(false, "发现不应存在的文本: '" + Shown(d["not_has_text"]) + "'")
      else if "not_has_text" !in d then StepResult(false, UiErrorPrefix)
      else StepResult(true, "XML checkpoint passed: " + description)
  }

  /** `_validate_with_xml` as evidently intended: each condition is checked
      only when the expected state names it. */
  function ValidateWithXml(description: string, expected: Json, screen: Screen): (r: StepResult)
    ensures r.ok <==> XmlConditionsHold(expected, screen)
    ensures r.ok ==> r.message == "XML checkpoint passed: " + description
  {
    if !expected.JObj? then StepResult(false, XmlErrorPrefix)
    else
      var d := expected.fields;
      if "current_app" in d && d["current_app"] != JStr(screen.currentApp) then
        StepResult(false, AppMismatch(d["current_app"], screen.currentApp))
      else if !("has_text" in d || "not_has_text" in d) then
        StepResult(true, "XML checkpoint passed: " + description)
      else if screen.texts == [] then StepResult(false, "UI 树为空，无法验证")
      else if "has_text" in d && SearchRaises(d["has_text"], screen.texts) then StepResult(false, UiErrorPrefix)
      else if "has_text" in d && !TextFound(d["has_text"], screen.texts) then
        StepResult(false, "未找到预期文本: '" + Shown(d["has_text"]) + "'")
      else if "not_has_text" in d && SearchRaises(d["not_has_text"], screen.texts) then StepResult(false, UiErrorPrefix)
      else if "not_has_text" in d && TextFound(d["not_has_text"], screen.texts) then
        StepResult(false, "发现不应存在的文本: '" + Shown(d["not_has_text"]) + "'")
      else StepResult(true, "XML checkpoint passed: " + description)
  }

  /** The conditions an expected state names, all holding on the screen. */
  predicate XmlConditionsHold(expected: Json, screen: Screen) {
    expected.JObj?
    && var d := expected.fields;
    ("current_app" in d ==> d["current_app"] == JStr(screen.currentApp))
    && (("has_text" in d || "not_has_text" in d) ==>
          screen.texts != []
          && ("has_text" in d ==> !SearchRaises(d["has_text"], screen.texts) && TextFound(d["has_text"], screen.texts))
          && ("not_has_text" in d ==> !SearchRaises(d["not_has_text"], screen.texts) && !TextFound(d["not_has_text"], screen.texts)))
  }

  /** Wherever the code as written passes, the intended check passes too. */
  lemma AsWrittenPassImpliesIntended(description: string, expected: Json, screen: Screen)
    ensures ValidateWithXmlAsWritten(description, expected, screen).ok ==> ValidateWithXml(description, expected, screen).ok
  {
  }

  /** A text-only expectation that the screen satisfies fails as written and
      passes as intended. */
  lemma HasTextAloneFailsAsWritten(app: string, text: string)
    requires app != "" && text != ""
    ensures var expected := JObj(map["has_text" := JStr(text)]);
            var screen := Screen(app, [text], NoScreenshot);
            !ValidateWithXmlAsWritten("c", expected, screen).ok && ValidateWithXml("c", expected, screen).ok
  {
    var expected := JObj(map["has_text" := JStr(text)]);
    var screen := Screen(app, [text], NoScreenshot);
    assert OccursAt(text, text, 0);
    assert TextFound(JStr(text), screen.texts) by { assert screen.texts[0] == text; }
  }

  /** Even with the app named and matching, a `has_text`-only expectation fails as written. */
  lemma HasTextWithAppFailsAsWritten(app: string, text: string)
    requires app != "" && text != ""
    ensures var expected := JObj(map["current_app" := JStr(app), "has_text" := JStr(text)]);
            var screen := Screen(app, [text], NoScreenshot);
            !ValidateWithXmlAsWritten("c", expected, screen).ok && ValidateWithXml("c", expected, screen).ok
  {
    var screen := Screen(app, [text], NoScreenshot);
    assert OccursAt(text, text, 0);
    assert TextFound(JStr(text), screen.texts) by { assert screen.texts[0] == text; }
  }

  /** The vision model's reply counts as a pass when it says yes in any of its forms. */
  predicate VisionSaysYes(content: string) {
    var answer := Lower(Strip(content));
    Contains(answer, "是") || Contains(answer, "yes") || Contains(answer, "满足") || Contains(answer, "通过")
  }

  /** Joinable by `', '.join(...)`: a string, a dictionary or a list of strings. */
  predicate Joinable(j: Json) {
    j.JStr? || j.JObj? || (j.JArr? && forall i :: 0 <= i < |j.items| ==> j.items[i].JStr?)
  }

  /** `n` asterisks. */
  function Stars(n: nat): (r: string)
    ensures |r| == n && forall i :: 0 <= i < n ==> r[i] == '*'
  {
    seq(n, _ => '*')
  }

  predicate IsSecretInput(inputType: Json) {
    inputType == JStr("password") || inputType == JStr("captcha")
  }

  const InputDonePrefix := "用户输入已完成: "

  // ---------------------------------------------------------------------
  // The executor
  // ---------------------------------------------------------------------

  class PlanExecutor {
    const maxRetries: nat
    const enableFallback: bool
    const defaultMode: string
    const xmlFirst: bool
    const visionForCritical: bool
    const maxVisionCheckpoints: int
    const visionCheckpointInterval: int
    const hasModel: bool
    const hasHumanCallback: bool

    var checkpointCount: nat
    var visionCheckpointCount: nat

    constructor(maxRetries: nat, enableFallback: bool, defaultMode: string, xmlFirst: bool,
                visionForCritical: bool, maxVisionCheckpoints: int, visionCheckpointInterval: int,
                hasModel: bool, hasHumanCallback: bool)
      ensures this.maxRetries == maxRetries && this.enableFallback == enableFallback
      ensures this.defaultMode == defaultMode && this.xmlFirst == xmlFirst
      ensures this.visionForCritical == visionForCritical
      ensures this.maxVisionCheckpoints == maxVisionCheckpoints
      ensures this.visionCheckpointInterval == visionCheckpointInterval
      ensures this.hasModel == hasModel && this.hasHumanCallback == hasHumanCallback
      ensures checkpointCount == 0 && visionCheckpointCount == 0
    {
      this.maxRetries := maxRetries;
      this.enableFallback := enableFallback;
      this.defaultMode := defaultMode;
      this.xmlFirst := xmlFirst;
      this.visionForCritical := visionForCritical;
      this.maxVisionCheckpoints := maxVisionCheckpoints;
      this.visionCheckpointInterval := visionCheckpointInterval;
      this.hasModel := hasModel;
      this.hasHumanCallback := hasHumanCallback;
      checkpointCount := 0;
      visionCheckpointCount := 0;
    }

    // --- retries ---------------------------------------------------------

    /** The result of `_execute_step_with_retry` and the number of attempts made,
        given the outcome each attempt would have. */
    function RetryOutcome(step: Step, attempts: seq<StepResult>): (r: (StepResult, nat))
      requires |attempts| > maxRetries
      ensures 1 <= r.1 <= maxRetries + 1
      ensures IsHumanStep(step) ==> r == (attempts[0], 1)
      ensures !IsHumanStep(step) ==> (r.0.ok <==> exists j :: 0 <= j <= maxRetries && attempts[j].ok)
      ensures !IsHumanStep(step) && r.0.ok ==>
                r.0 == attempts[r.1 - 1] && forall j :: 0 <= j < r.1 - 1 ==> !attempts[j].ok
      ensures !IsHumanStep(step) && !r.0.ok ==>
                r.1 == maxRetries + 1
                && r.0.message == "步骤失败（已重试 " + NatToString(maxRetries) + " 次）: " + attempts[maxRetries].message
    {
      if IsHumanStep(step) then (attempts[0], 1)
      else
        match FirstSuccess(attempts, maxRetries + 1)
        case Some(j) => (attempts[j], j + 1)
        case None =>
          (StepResult(false, "步骤失败（已重试 " + NatToString(maxRetries) + " 次）: " + attempts[maxRetries].message),
           maxRetries + 1)
    }

    /** `_execute_step_with_retry`: human steps run once; other steps run
        until the first success, at most `maxRetries + 1` times. */
    method ExecuteStepWithRetry(step: Step, attempts: seq<StepResult>) returns (r: StepResult, used: nat)
      requires |attempts| > maxRetries
      ensures (r, used) == RetryOutcome(step, attempts)
    {
      if IsHumanStep(step) {
        return attempts[0], 1;
      }
      var attempt := 0;
      var message := "";
      while attempt < maxRetries + 1
        invariant 0 <= attempt <= maxRetries + 1
        invariant forall j :: 0 <= j < attempt ==> !attempts[j].ok
        invariant attempt > 0 ==> message == attempts[attempt - 1].message
      {
        var res := attempts[attempt];
        message := res.message;
        if res.ok {
          assert FirstSuccess(attempts, maxRetries + 1) == Some(attempt);
          return StepResult(true, message), attempt + 1;
        }
        attempt := attempt + 1;
      }
      return StepResult(false, "步骤失败（已重试 " + NatToString(maxRetries) + " 次）: " + message), maxRetries + 1;
    }

    // --- whole plan ------------------------------------------------------

    /** Each step has an outcome for every attempt it may make. */
    predicate Supplied(plan: Planner.TaskPlan, attempts: seq<seq<StepResult>>) {
      |attempts| == |plan.steps| && forall i :: 0 <= i < |attempts| ==> |attempts[i]| > maxRetries
    }

    /** The retried outcome of step `i` (0-based). */
    function Outcome(plan: Planner.TaskPlan, attempts: seq<seq<StepResult>>, i: nat): StepResult
      requires Supplied(plan, attempts) && i < |plan.steps|
    {
      RetryOutcome(plan.steps[i], attempts[i]).0
    }

    /** Step `i` (0-based) fails and a checkpoint marks it critical. */
    predicate FailsCritically(plan: Planner.TaskPlan, attempts: seq<seq<StepResult>>, i: nat)
      requires Supplied(plan, attempts) && i < |plan.steps|
    {
      !Outcome(plan, attempts, i).ok && IsCriticalStep(plan.checkpoints, i + 1)
    }

    /** `execute_plan`: runs the steps in order.  A failing critical step stops
        the run (returning at once with fallback when enabled); other failures
        are recorded and the run goes on. */
    method ExecutePlan(plan: Planner.TaskPlan, attempts: seq<seq<StepResult>>) returns (r: ExecutionResult)
      requires Supplied(plan, attempts)
      ensures Reports(plan, attempts, r)
    {
      var n := |plan.steps|;
      var completed: nat := 0;
      var failed: Option<nat> := None;
      var error: Option<string> := None;
      var i := 0;
      while i < n
        invariant 0 <= i <= n && completed == i
        invariant forall j :: 0 <= j < i ==> !FailsCritically(plan, attempts, j)
        invariant Recorded(plan, attempts, i, failed, error)
      {
        var res, _ := ExecuteStepWithRetry(plan.steps[i], attempts[i]);
        assert res == Outcome(plan, attempts, i);
        RecordedStep(plan, attempts, i, failed, error);
        if !res.ok {
          error := Some(res.message);
          failed := Some(i + 1);
          if IsCriticalStep(plan.checkpoints, i + 1) {
            CriticalStopReports(plan, attempts, i);
            if enableFallback {
              return ExecutionResult(false, i + 1, n, failed, error, true);
            }
            return ExecutionResult(failed.None? || completed == n, completed, n, failed, error, false);
          }
        }
        completed := i + 1;
        i := i + 1;
      }
      CompletedRunReports(plan, attempts, failed, error);
      r := ExecutionResult(failed.None? || completed == n, completed, n, failed, error, false);
    }

    /** What `execute_plan` promises about its result: success exactly when
        no step fails critically; a successful run completes every step
        without fallback and reports the last failing step, if any, with its
        message; the first critical failure stops the run there, counting
        that step as completed only with fallback. */
    ghost predicate Reports(plan: Planner.TaskPlan, attempts: seq<seq<StepResult>>, r: ExecutionResult)
      requires Supplied(plan, attempts)
    {
      && r.totalSteps == |plan.steps|
      && (r.success <==> forall i :: 0 <= i < |plan.steps| ==> !FailsCritically(plan, attempts, i))
      && (r.success ==> r.completedSteps == |plan.steps| && !r.fallbackToStepByStep)
      && (r.success ==> (r.failedStep.None? <==> forall i :: 0 <= i < |plan.steps| ==> Outcome(plan, attempts, i).ok))
      && (r.failedStep.Some? ==>
            && 1 <= r.failedStep.value <= |plan.steps|
            && !Outcome(plan, attempts, r.failedStep.value - 1).ok
            && r.errorMessage == Some(Outcome(plan, attempts, r.failedStep.value - 1).message))
      && (r.failedStep.None? ==> r.errorMessage.None?)
      && (r.success && r.failedStep.Some? ==>
            forall j :: r.failedStep.value <= j < |plan.steps| ==> Outcome(plan, attempts, j).ok)
      && (forall k :: FirstCritical(plan, attempts, k) ==>
            && r.failedStep == Some(k + 1) && r.fallbackToStepByStep == enableFallback
            && r.completedSteps == (if enableFallback then k + 1 else k))
    }

    /** The return at a critical failure of step `i` (0-based). */
    lemma CriticalStopReports(plan: Planner.TaskPlan, attempts: seq<seq<StepResult>>, i: nat)
      requires Supplied(plan, attempts) && i < |plan.steps|
      requires FailsCritically(plan, attempts, i)
      requires forall j :: 0 <= j < i ==> !FailsCritically(plan, attempts, j)
      ensures var failed, error := Some(i + 1), Some(Outcome(plan, attempts, i).message);
        Reports(plan, attempts,
          if enableFallback then ExecutionResult(false, i + 1, |plan.steps|, failed, error, true)
          else ExecutionResult(false, i, |plan.steps|, failed, error, false))
    {
      FirstCriticalIs(plan, attempts, i);
    }

    /** The return after the last step, with no critical failure. */
    lemma CompletedRunReports(plan: Planner.TaskPlan, attempts: seq<seq<StepResult>>, failed: Option<nat>, error: Option<string>)
      requires Supplied(plan, attempts)
      requires forall j :: 0 <= j < |plan.steps| ==> !FailsCritically(plan, attempts, j)
      requires Recorded(plan, attempts, |plan.steps|, failed, error)
      ensures Reports(plan, attempts, ExecutionResult(true, |plan.steps|, |plan.steps|, failed, error, false))
    {
      NoFirstCritical(plan, attempts);
    }

    /** What the run of `execute_plan` has recorded after the first `i`
        steps: `failed` and `error` describe the last failing step, if any. */
    predicate Recorded(plan: Planner.TaskPlan, attempts: seq<seq<StepResult>>, i: nat, failed: Option<nat>, error: Option<string>)
      requires Supplied(plan, attempts) && i <= |plan.steps|
    {
      && (failed.None? <==> forall j :: 0 <= j < i ==> Outcome(plan, attempts, j).ok)
      && (failed.None? ==> error.None?)
      && (failed.Some? ==>
            && 1 <= failed.value <= i && !Outcome(plan, attempts, failed.value - 1).ok
            && error == Some(Outcome(plan, attempts, failed.value - 1).message)
            && forall j :: failed.value <= j < i ==> Outcome(plan, attempts, j).ok)
    }

    lemma RecordedStep(plan: Planner.TaskPlan, attempts: seq<seq<StepResult>>, i: nat, failed: Option<nat>, error: Option<string>)
      requires Supplied(plan, attempts) && i < |plan.steps|
      requires Recorded(plan, attempts, i, failed, error)
      ensures Outcome(plan, attempts, i).ok ==> Recorded(plan, attempts, i + 1, failed, error)
      ensures !Outcome(plan, attempts, i).ok ==>
        Recorded(plan, attempts, i + 1, Some(i + 1), Some(Outcome(plan, attempts, i).message))
    {
    }

    /** Step `k` (0-based) is the first that fails critically. */
    predicate FirstCritical(plan: Planner.TaskPlan, attempts: seq<seq<StepResult>>, k: int)
      requires Supplied(plan, attempts)
    {
      && 0 <= k < |plan.steps| && FailsCritically(plan, attempts, k)
      && forall j :: 0 <= j < k ==> !FailsCritically(plan, attempts, j)
    }

    /** The first critical failure is unique. */
    lemma FirstCriticalIs(plan: Planner.TaskPlan, attempts: seq<seq<StepResult>>, i: nat)
      requires Supplied(plan, attempts) && i < |plan.steps|
      requires FailsCritically(plan, attempts, i)
      requires forall j :: 0 <= j < i ==> !FailsCritically(plan, attempts, j)
      ensures forall k :: FirstCritical(plan, attempts, k) <==> k == i
    {
    }

    /** Without a critical failure there is no first one. */
    lemma NoFirstCritical(plan: Planner.TaskPlan, attempts: seq<seq<StepResult>>)
      requires Supplied(plan, attempts)
      requires forall j :: 0 <= j < |plan.steps| ==> !FailsCritically(plan, attempts, j)
      ensures forall k :: !FirstCritical(plan, attempts, k)
    {
    }

    // --- checkpoints -----------------------------------------------------

    /** `_can_use_vision`. */
    predicate CanUseVision()
      reads this
    {
      visionCheckpointCount < maxVisionCheckpoints
    }

    /** `_should_use_vision_validation` at checkpoint number `count` with
        `vcount` vision checks used; `None` when the sampling interval is zero
        and the modulo raises. */
    function ShouldUseVision(critical: bool, mode: Json, count: nat, vcount: nat): (r: Option<bool>)
      ensures r == Some(true) ==> vcount < maxVisionCheckpoints
      ensures mode == JStr("xml") ==> r == Some(false)
      ensures mode == JStr("vision") ==> r == Some(vcount < maxVisionCheckpoints)
      ensures r.None? <==> mode != JStr("vision") && mode != JStr("xml") && vcount < maxVisionCheckpoints
                           && !(critical && visionForCritical) && visionCheckpointInterval == 0
      ensures mode != JStr("vision") && mode != JStr("xml") && vcount < maxVisionCheckpoints
              && visionCheckpointInterval != 0 ==>
                (r == Some(true) <==> (critical && visionForCritical) || count % visionCheckpointInterval == 0)
    {
      if mode == JStr("vision") then Some(vcount < maxVisionCheckpoints)
      else if mode == JStr("xml") then Some(false)
      else if !(vcount < maxVisionCheckpoints) then Some(false)
      else if critical && visionForCritical then Some(true)
      // Python's and Dafny's `%` differ for a negative divisor, but both are zero exactly on multiples.
      else if visionCheckpointInterval == 0 then None
      else Some(count % visionCheckpointInterval == 0)
    }

    /** `_validate_with_vision` (apart from its counter): without a model it
        falls back to XML; an exception on a non-critical checkpoint falls back
        to XML too. */
    function VisionOutcome(description: string, expected: Json, critical: bool, screen: Screen): (r: StepResult)
      ensures !hasModel ==> r == ValidateWithXml(description, expected, screen)
      ensures hasModel && screen.vision.Reply? ==> (r.ok <==> VisionSaysYes(screen.vision.content))
      ensures hasModel && critical && !screen.vision.Reply? ==> !r.ok
    {
      if !hasModel then ValidateWithXml(description, expected, screen)
      else
        match screen.vision
        case NoScreenshot => StepResult(false, "无法获取截图")
        case Reply(content) =>
          if VisionSaysYes(content) then StepResult(true, "Vision checkpoint passed: " + description)
          else StepResult(false, "Vision 验证失败: " + content)
        case VisionRaises =>
          if !critical then ValidateWithXml(description, expected, screen)
          else StepResult(false, "Vision validation error: ")
    }

    /** The result of `_execute_checkpoint` as checkpoint number `count`, and
        the vision count afterwards. */
    function CheckpointOutcome(params: Step, screen: Screen, count: nat, vcount: nat): (r: (StepResult, nat))
      ensures r.1 == vcount || (r.1 == vcount + 1 && vcount < maxVisionCheckpoints)
      ensures !Truthy(Get(params, "expected_state", JObj(map[]))) ==>
                r == (StepResult(true, "检查点通过: " + Shown(Get(params, "description", JStr("Checkpoint")))), vcount)
      ensures r.1 == vcount + 1 ==> Truthy(Get(params, "expected_state", JObj(map[])))
      ensures Get(params, "validation_mode", JStr(defaultMode)) == JStr("xml") && !xmlFirst ==> r.1 == vcount
    {
      var description := Shown(Get(params, "description", JStr("Checkpoint")));
      var expected := Get(params, "expected_state", JObj(map[]));
      var critical := Truthy(Get(params, "critical", JBool(false)));
      var mode := Get(params, "validation_mode", JStr(defaultMode));
      if !Truthy(expected) then (StepResult(true, "检查点通过: " + description), vcount)
      else
        match ShouldUseVision(critical, mode, count, vcount)
        case None => (StepResult(false, "Error: "), vcount)
        case Some(useVision) =>
          if useVision then (VisionOutcome(description, expected, critical, screen), vcount + 1)
          else
            var xml := ValidateWithXml(description, expected, screen);
            if xml.ok then (xml, vcount)
            else if xmlFirst && vcount < maxVisionCheckpoints then
              (VisionOutcome(description, expected, critical, screen), vcount + 1)
            else (xml, vcount)
    }

    /** `_validate_with_vision`: spends one vision check. */
    method ValidateWithVision(description: string, expected: Json, critical: bool, screen: Screen)
      returns (r: StepResult)
      modifies this
      ensures visionCheckpointCount == old(visionCheckpointCount) + 1
      ensures checkpointCount == old(checkpointCount)
      ensures r == VisionOutcome(description, expected, critical, screen)
    {
      visionCheckpointCount := visionCheckpointCount + 1;
      if !hasModel {
        return ValidateWithXml(description, expected, screen);
      }
      match screen.vision {
        case NoScreenshot =>
          r := StepResult(false, "无法获取截图");
        case Reply(content) =>
          if VisionSaysYes(content) {
            r := StepResult(true, "Vision checkpoint passed: " + description);
          } else {
            r := StepResult(false, "Vision 验证失败: " + content);
          }
        case VisionRaises =>
          if !critical {
            r := ValidateWithXml(description, expected, screen);
          } else {
            r := StepResult(false, "Vision validation error: ");
          }
      }
    }

    /** `_execute_checkpoint`: counts the checkpoint, passes one without an
        expected state, and otherwise validates by vision or by the UI tree,
        falling back to vision while the budget allows. */
    method ExecuteCheckpoint(params: Step, screen: Screen) returns (r: StepResult)
      modifies this
      ensures checkpointCount == old(checkpointCount) + 1
      ensures (r, visionCheckpointCount) == CheckpointOutcome(params, screen, checkpointCount, old(visionCheckpointCount))
    {
      var description := Shown(Get(params, "description", JStr("Checkpoint")));
      var expected := Get(params, "expected_state", JObj(map[]));
      var critical := Truthy(Get(params, "critical", JBool(false)));
      var mode := Get(params, "validation_mode", JStr(defaultMode));
      checkpointCount := checkpointCount + 1;
      if !Truthy(expected) {
        return StepResult(true, "检查点通过: " + description);
      }
      var useVision := ShouldUseVision(critical, mode, checkpointCount, visionCheckpointCount);
      if useVision.None? {
        return StepResult(false, "Error: ");
      }
      if useVision.value {
        r := ValidateWithVision(description, expected, critical, screen);
        return;
      }
      var xml := ValidateWithXml(description, expected, screen);
      if xml.ok {
        return xml;
      }
      if xmlFirst && CanUseVision() {
        r := ValidateWithVision(description, expected, critical, screen);
        return;
      }
      r := xml;
    }

    // --- human intervention ------------------------------------------------

    /** `_execute_human_confirm`: auto-passes without a callback; otherwise the
        human's answer decides. */
    function HumanConfirm(params: Step, reply: HumanReply): (r: StepResult)
      ensures Joinable(Get(params, "options", JArr([JStr("确认"), JStr("取消")]))) && !hasHumanCallback ==>
                r == StepResult(true, "人工确认（自动通过）")
      ensures hasHumanCallback && !reply.Answered? ==> !r.ok
      ensures r.ok <==> Joinable(Get(params, "options", JArr([JStr("确认"), JStr("取消")])))
                        && (!hasHumanCallback || (reply.Answered? && reply.response.JObj?))
    {
      var options := Get(params, "options", JArr([JStr("确认"), JStr("取消")]));
      if !Joinable(options) then StepResult(false, "Error: ")
      else if !hasHumanCallback then StepResult(true, "人工确认（自动通过）")
      else
        match reply
        case CallbackRaises => StepResult(false, "人工确认失败: ")
        case Declined => StepResult(false, "用户取消操作")
        case Answered(response) =>
          if !response.JObj? then StepResult(false, "人工确认失败: ")
          else StepResult(true, "用户确认: " + Shown(Get(response.fields, "selected_option", JStr("确认"))))
    }

    /** `_execute_human_input`: fails without a callback or on an empty answer;
        types the answer (`typed` says whether typing went through) and masks a
        password or captcha in the message. */
    function HumanInput(params: Step, reply: HumanReply, typed: bool): (r: StepResult)
      ensures !hasHumanCallback ==> r == StepResult(false, "未配置人工介入回调")
      ensures r.ok <==> hasHumanCallback && reply.Answered? && reply.response.JObj?
                        && Get(reply.response.fields, "input_value", JStr("")).JStr?
                        && Get(reply.response.fields, "input_value", JStr("")).s != "" && typed
      ensures r.ok ==>
                var input := Get(reply.response.fields, "input_value", JStr("")).s;
                |r.message| == |InputDonePrefix| + |input|
                && r.message[..|InputDonePrefix|] == InputDonePrefix
                && (IsSecretInput(Get(params, "input_type", JStr("text"))) ==>
                      forall i :: |InputDonePrefix| <= i < |r.message| ==> r.message[i] == '*')
                && (!IsSecretInput(Get(params, "input_type", JStr("text"))) ==>
                      r.message[|InputDonePrefix|..] == input)
    {
      var inputType := Get(params, "input_type", JStr("text"));
      if !hasHumanCallback then StepResult(false, "未配置人工介入回调")
      else
        match reply
        case CallbackRaises => StepResult(false, "人工输入失败: ")
        case Declined => StepResult(false, "用户取消输入")
        case Answered(response) =>
          if !response.JObj? then StepResult(false, "人工输入失败: ")
          else
            var value := Get(response.fields, "input_value", JStr(""));
            if !Truthy(value) then StepResult(false, "用户输入为空")
            else if !value.JStr? || !typed then StepResult(false, "人工输入失败: ")
            else
              var shown := if IsSecretInput(inputType) then Stars(|value.s|) else value.s;
              StepResult(true, InputDonePrefix + shown)
    }
  }
}
