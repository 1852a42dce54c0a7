/** The phone task service: tasks with a status life cycle, the per-task
    step log written by the agent's callback, and the service that starts,
    cancels, lists and retires tasks and answers the agent's questions to
    the user. Clock readings are integer seconds passed in; the agent run
    itself, persistence, broadcasting and screenshots are not modelled. */
module AgentService {
  import opened Util

  datatype TaskStatus = Pending | Running | WaitingForUser | Completed | Failed | Cancelled

  function StatusValue(s: TaskStatus): (r: string)
    ensures r != ""
  {
    match s
    case Pending => "pending"
    case Running => "running"
    case WaitingForUser => "waiting_for_user"
    case Completed => "completed"
    case Failed => "failed"
    case Cancelled => "cancelled"
  }

  lemma StatusValueInjective(a: TaskStatus, b: TaskStatus)
    requires StatusValue(a) == StatusValue(b)
    ensures a == b
  {
  }

  predicate IsTerminal(s: TaskStatus) { s == Completed || s == Failed || s == Cancelled }

  /** One entry of `task.steps`. `stepKey` is the value under "step" when
      the entry has that key, else the one under "step_index". */
  datatype StepRecord = StepRecord(
    stepKey: Option<int>,
    status: string,
    thinking: string,
    action: string,
    observation: string,
    success: Option<bool>,
    completedAt: Option<int>)

  /** `api_key` as `to_dict` shows it: the first 8 and last 4 characters of
      a key longer than 12, else "***". */
  function MaskApiKey(key: string): (r: string)
    ensures |key| > 12 ==> |r| == 15 && r[..8] == key[..8] && r[8..11] == "..." && r[11..] == key[|key| - 4..]
    ensures |key| <= 12 ==> r == "***"
  {
    if |key| > 12 then key[..8] + "..." + key[|key| - 4..] else "***"
  }

  /** The mask reveals nothing but the first 8 and last 4 characters. */
  lemma MaskDependsOnlyOnEnds(k1: string, k2: string)
    requires |k1| > 12 && |k2| > 12
    requires k1[..8] == k2[..8] && k1[|k1| - 4..] == k2[|k2| - 4..]
    ensures MaskApiKey(k1) == MaskApiKey(k2)
  {
  }

  /** The model configuration shown by `to_dict`: None when absent or
      empty, otherwise a copy whose "api_key" (if any) is masked. */
  function SafeModelConfig(config: Option<map<string, string>>): (r: Option<map<string, string>>)
    ensures config.None? || config.value == map[] ==> r.None?
    ensures config.Some? && config.value != map[] ==>
      && r.Some? && r.value.Keys == config.value.Keys
      && (forall k :: k in r.value && k != "api_key" ==> r.value[k] == config.value[k])
      && ("api_key" in r.value ==> r.value["api_key"] == MaskApiKey(config.value["api_key"]))
  {
    if config.None? || config.value == map[] then None
    else if "api_key" in config.value then Some(config.value["api_key" := MaskApiKey(config.value["api_key"])])
    else config
  }

  datatype TaskDict = TaskDict(
    taskId: string,
    instruction: string,
    deviceId: Option<string>,
    status: string,
    createdAt: int,
    startedAt: Option<int>,
    completedAt: Option<int>,
    duration: Option<int>,
    result: Option<string>,
    error: Option<string>,
    steps: nat,
    modelConfig: Option<map<string, string>>)

  class Task {
    const taskId: string
    const instruction: string
    const createdAt: int
    const modelConfig: Option<map<string, string>>
    var deviceId: Option<string>
    var status: TaskStatus
    var startedAt: Option<int>
    var completedAt: Option<int>
    var result: Option<string>
    var error: Option<string>
    var steps: seq<StepRecord>
    var pendingQuestion: Option<string>

    constructor (taskId: string, instruction: string, deviceId: Option<string>, modelConfig: Option<map<string, string>>, now: int)
      ensures this.taskId == taskId && this.instruction == instruction && this.deviceId == deviceId
      ensures this.modelConfig == modelConfig && createdAt == now
      ensures status == Pending && startedAt.None? && completedAt.None? && result.None? && error.None?
      ensures steps == [] && pendingQuestion.None?
    {
      this.taskId := taskId;
      this.instruction := instruction;
      this.createdAt := now;
      this.modelConfig := modelConfig;
      this.deviceId := deviceId;
      status := Pending;
      startedAt := None;
      completedAt := None;
      result := None;
      error := None;
      steps := [];
      pendingQuestion := None;
    }

    /** Seconds from start to completion, known only once both are set. */
    function Duration(): (r: Option<int>)
      reads this
      ensures r.Some? <==> startedAt.Some? && completedAt.Some?
      ensures r.Some? ==> startedAt.value + r.value == completedAt.value
    {
      if startedAt.Some? && completedAt.Some? then Some(completedAt.value - startedAt.value) else None
    }

    /** The task as the API reports it. */
    function ToDict(): (d: TaskDict)
      reads this
      ensures d.taskId == taskId && d.status == StatusValue(status) && d.steps == |steps|
      ensures d.duration == Duration() && d.modelConfig == SafeModelConfig(modelConfig)
      ensures d.startedAt == startedAt && d.completedAt == completedAt
    {
      TaskDict(taskId, instruction, deviceId, StatusValue(status), createdAt, startedAt, completedAt,
        Duration(), result, error, |steps|, SafeModelConfig(modelConfig))
    }
  }

  /** The thinking and action fields of a step message that decoded as a
      JSON object. */
  datatype StepMessage = StepMessage(thinking: Option<string>, action: Option<string>)

  /** The callback the agent drives while it runs a task. */
  class AgentCallback {
    const task: Task

    constructor (task: Task)
      ensures this.task == task
    {
      this.task := task;
    }

    /** Refuses (raises) on a cancelled task; otherwise appends one "running"
        step. `decoded` is the step message if it decoded as a JSON object. */
    method OnStepStart(step: int, action: string, decoded: Option<StepMessage>, now: int) returns (raised: bool)
      modifies task
      ensures raised <==> old(task.status) == Cancelled
      ensures raised ==> task.steps == old(task.steps)
      ensures !raised ==> |task.steps| == |old(task.steps)| + 1 && task.steps[..|old(task.steps)|] == old(task.steps)
      ensures !raised ==> var s := task.steps[|task.steps| - 1];
        s.stepKey == Some(step) && s.status == "running" &&
        s.thinking == (if decoded.Some? then decoded.value.thinking.GetOr("") else "") &&
        s.action == (if decoded.Some? then decoded.value.action.GetOr(action) else action)
      ensures task.status == old(task.status) && task.startedAt == old(task.startedAt) && task.completedAt == old(task.completedAt)
      ensures task.deviceId == old(task.deviceId) && task.error == old(task.error) && task.pendingQuestion == old(task.pendingQuestion)
      ensures task.result == old(task.result)
    {
      if task.status == Cancelled {
        return true;
      }
      var thinking := "";
      var actionData := action;
      if decoded.Some? {
        thinking := decoded.value.thinking.GetOr("");
        actionData := decoded.value.action.GetOr(action);
      }
      task.steps := task.steps + [StepRecord(Some(step), "running", thinking, actionData, "", None, None)];
      return false;
    }

    /** Completes the last step, and only when its key is `step`. */
    method UpdateStepStatus(step: int, success: bool, thinking: string, observation: string, now: int)
      modifies task
      ensures var n := |old(task.steps)|;
        if n > 0 && old(task.steps)[n - 1].stepKey == Some(step) then
          task.steps == old(task.steps)[n - 1 := old(task.steps)[n - 1].(
            status := if success then "completed" else "failed", success := Some(success),
            thinking := thinking, observation := observation, completedAt := Some(now))]
        else task.steps == old(task.steps)
      ensures task.status == old(task.status) && task.startedAt == old(task.startedAt) && task.completedAt == old(task.completedAt)
      ensures task.deviceId == old(task.deviceId) && task.error == old(task.error) && task.pendingQuestion == old(task.pendingQuestion)
      ensures task.result == old(task.result)
    {
      var n := |task.steps|;
      if n > 0 && task.steps[n - 1].stepKey == Some(step) {
        var last := task.steps[n - 1];
        task.steps := task.steps[n - 1 := last.(
          status := if success then "completed" else "failed", success := Some(success),
          thinking := thinking, observation := observation, completedAt := Some(now))];
      }
    }
  }

  /** Stable insertion of `t` into a list sorted by descending `createdAt`:
      it goes before the first task created no later than itself. */
  function InsertDesc(t: Task, s: seq<Task>): (r: seq<Task>)
    ensures multiset(r) == multiset(s) + multiset{t}
    ensures SortedDesc(s) ==> SortedDesc(r)
  {
    if s == [] || s[0].createdAt <= t.createdAt then [t] + s
    else
      var rest := InsertDesc(t, s[1..]);
      InsertDescStep(t, s, rest);
      [s[0]] + rest
  }

  /** The step of `InsertDesc` that keeps the head: contents and order. */
  lemma InsertDescStep(t: Task, s: seq<Task>, rest: seq<Task>)
    requires s != [] && s[0].createdAt > t.createdAt
    requires multiset(rest) == multiset(s[1..]) + multiset{t}
    requires SortedDesc(s[1..]) ==> SortedDesc(rest)
    ensures multiset([s[0]] + rest) == multiset(s) + multiset{t}
    ensures SortedDesc(s) ==> SortedDesc([s[0]] + rest)
  {
    assert s == [s[0]] + s[1..];
    if SortedDesc(s) {
      MembersBounded(rest, multiset(s[1..]) + multiset{t}, s[0].createdAt);
      ConsSortedDesc(s[0], rest);
    }
  }

  /** Every task of a list whose multiset is bounded by `b` is bounded by `b`. */
  lemma MembersBounded(r: seq<Task>, m: multiset<Task>, b: int)
    requires multiset(r) == m && forall u :: u in m ==> u.createdAt <= b
    ensures forall u :: u in r ==> u.createdAt <= b
  {
    forall u | u in r ensures u.createdAt <= b {
      assert u in multiset(r);
    }
  }

  lemma ConsSortedDesc(x: Task, r: seq<Task>)
    requires SortedDesc(r) && forall u :: u in r ==> u.createdAt <= x.createdAt
    ensures SortedDesc([x] + r)
  {
    forall i, j | 0 <= i < j < |[x] + r| ensures ([x] + r)[i].createdAt >= ([x] + r)[j].createdAt {
      if i == 0 {
        assert ([x] + r)[j] == r[j - 1] && r[j - 1] in r;
      }
    }
  }

  predicate SortedDesc(s: seq<Task>) {
    forall i, j :: 0 <= i < j < |s| ==> s[i].createdAt >= s[j].createdAt
  }

  /** `sort(key=created_at, reverse=True)`: newest first. */
  function SortByCreatedDesc(s: seq<Task>): (r: seq<Task>)
    ensures SortedDesc(r) && multiset(r) == multiset(s)
  {
    if s == [] then []
    else
      assert s == [s[0]] + s[1..];
      InsertDesc(s[0], SortByCreatedDesc(s[1..]))
  }

  /** Lists with the same multiset have the same members. */
  lemma SameMembers(a: seq<Task>, b: seq<Task>)
    requires multiset(a) == multiset(b)
    ensures forall t :: t in a <==> t in b
  {
    forall t ensures t in a <==> t in b {
      assert t in a <==> t in multiset(a);
      assert t in b <==> t in multiset(b);
    }
  }

  /** `s[offset:offset + limit]` for non-negative bounds. */
  function Slice<T>(s: seq<T>, offset: nat, limit: nat): (r: seq<T>)
    ensures |r| <= limit
    ensures offset >= |s| ==> r == []
    ensures offset < |s| ==> |r| == (if offset + limit <= |s| then limit else |s| - offset)
    ensures forall i :: 0 <= i < |r| ==> r[i] == s[offset + i]
  {
    var lo := if offset <= |s| then offset else |s|;
    var hi := if offset + limit <= |s| then offset + limit else |s|;
    s[lo..hi]
  }

  /** A slice of a sorted list is sorted. */
  lemma SliceSorted(s: seq<Task>, offset: nat, limit: nat)
    requires SortedDesc(s)
    ensures SortedDesc(Slice(s, offset, limit))
  {
  }

  /** How a wait for the user's answer ends: woken (with the answer stored
      by then, if any), timed out, or cancelled. */
  datatype WaitOutcome = Woken(stored: Option<string>) | TimedOut | WaitCancelled

  class AgentService {
    var runningTasks: map<string, Task>
    var order: seq<string>
    var handles: set<string>
    var cancelRequested: set<string>
    var waitingEvents: set<string>
    var signalled: set<string>
    var waitingAnswers: map<string, string>

    ghost predicate Valid()
      reads this, runningTasks.Values
    {
      && Distinct(order)
      && (forall id :: id in order <==> id in runningTasks)
      && (forall id :: id in runningTasks ==> runningTasks[id].taskId == id)
    }

    constructor ()
      ensures Valid() && runningTasks == map[] && order == [] && handles == {} && waitingAnswers == map[]
      ensures waitingEvents == {} && cancelRequested == {} && signalled == {}
    {
      runningTasks := map[];
      order := [];
      handles := {};
      cancelRequested := {};
      waitingEvents := {};
      signalled := {};
      waitingAnswers := map[];
    }

    /** Stores a new PENDING task under `taskId` (a fresh UUID). */
    method CreateTask(taskId: string, instruction: string, modelConfig: Option<map<string, string>>, deviceId: Option<string>, now: int)
      returns (t: Task)
      requires Valid() && taskId !in runningTasks
      modifies this
      ensures Valid() && fresh(t)
      ensures runningTasks == old(runningTasks)[taskId := t] && order == old(order) + [taskId]
      ensures t.status == Pending && t.deviceId == deviceId && t.instruction == instruction && t.createdAt == now
      ensures handles == old(handles) && waitingAnswers == old(waitingAnswers) && waitingEvents == old(waitingEvents)
    {
      t := new Task(taskId, instruction, deviceId, modelConfig, now);
      runningTasks := runningTasks[taskId := t];
      order := order + [taskId];
    }

    /** Starts a PENDING task. Without a device of its own the task takes
        the one the device pool offers (`poolDevice`: None without a pool,
        Some(None) when the pool has no available device). `claimed` is
        the device the pool must then mark busy with the task
        (`device_pool.assign_task`), None when the pool gave none. */
    method ExecuteTask(taskId: string, poolDevice: Option<Option<string>>, now: int) returns (started: bool, claimed: Option<string>)
      requires Valid()
      modifies this, if taskId in runningTasks then {runningTasks[taskId]} else {}
      ensures Valid() && runningTasks == old(runningTasks) && order == old(order)
      ensures started ==> taskId in runningTasks && old(runningTasks[taskId].status) == Pending
      ensures started ==> var t := runningTasks[taskId];
        t.status == Running && t.startedAt == Some(now) && t.deviceId.Some? && t.deviceId.value != "" &&
        handles == old(handles) + {taskId}
      ensures started <==> (taskId in runningTasks && old(runningTasks[taskId].status) == Pending &&
        ((old(runningTasks[taskId].deviceId).Some? && old(runningTasks[taskId].deviceId).value != "") ||
         (poolDevice.Some? && poolDevice.value.Some? && poolDevice.value.value != "")))
      ensures !started ==> handles == old(handles)
      ensures !started && taskId in runningTasks ==> runningTasks[taskId].status == old(runningTasks[taskId].status)
      ensures started && old(runningTasks[taskId].deviceId).Some? && old(runningTasks[taskId].deviceId).value != "" ==>
        runningTasks[taskId].deviceId == old(runningTasks[taskId].deviceId)
      ensures started && (old(runningTasks[taskId].deviceId).None? || old(runningTasks[taskId].deviceId).value == "") ==>
        runningTasks[taskId].deviceId == poolDevice.value
      ensures claimed == (if taskId in runningTasks && old(runningTasks[taskId].status) == Pending
                              && (old(runningTasks[taskId].deviceId).None? || old(runningTasks[taskId].deviceId).value == "")
                              && poolDevice.Some? then poolDevice.value else None)
    {
      claimed := None;
      if taskId !in runningTasks {
        return false, None;
      }
      var t := runningTasks[taskId];
      if t.status != Pending {
        return false, None;
      }
      if (t.deviceId.None? || t.deviceId.value == "") && poolDevice.Some? {
        if poolDevice.value.None? {
          return false, None;
        }
        t.deviceId := poolDevice.value;
        claimed := poolDevice.value;
      }
      if t.deviceId.None? || t.deviceId.value == "" {
        return false, claimed;
      }
      t.status := Running;
      t.startedAt := Some(now);
      handles := handles + {taskId};
      return true, claimed;
    }

    /** Cancels a PENDING or RUNNING task: it becomes CANCELLED with an
        error and completion time, its run is asked to stop and it leaves
        the running tasks. */
    method CancelTask(taskId: string, now: int) returns (cancelled: bool)
      requires Valid()
      modifies this, if taskId in runningTasks then {runningTasks[taskId]} else {}
      ensures Valid()
      ensures cancelled <==> taskId in old(runningTasks) && old(runningTasks[taskId].status) in {Pending, Running}
      ensures !cancelled ==> runningTasks == old(runningTasks) && order == old(order) && cancelRequested == old(cancelRequested)
      ensures !cancelled && taskId in runningTasks ==> runningTasks[taskId].status == old(runningTasks[taskId].status)
      ensures cancelled ==> var t := old(runningTasks[taskId]);
        && t.status == Cancelled && t.completedAt == Some(now) && t.error == Some("Task cancelled by user")
        && runningTasks == old(runningTasks) - {taskId} && order == Without(old(order), taskId)
        && cancelRequested == old(cancelRequested) + (if taskId in handles then {taskId} else {})
      ensures handles == old(handles)
    {
      if taskId !in runningTasks {
        return false;
      }
      var t := runningTasks[taskId];
      if t.status != Pending && t.status != Running {
        return false;
      }
      t.status := Cancelled;
      t.completedAt := Some(now);
      t.error := Some("Task cancelled by user");
      if taskId in handles {
        cancelRequested := cancelRequested + {taskId};
      }
      runningTasks := runningTasks - {taskId};
      order := Without(order, taskId);
      return true;
    }

    /** The running tasks among `ids` (in that order) of the given status. */
    function Matching(ids: seq<string>, status: Option<TaskStatus>): (r: seq<Task>)
      reads this, runningTasks.Values
      requires forall id :: id in ids ==> id in runningTasks
      ensures |r| <= |ids|
    {
      if ids == [] then []
      else
        var k := |ids| - 1;
        var t := runningTasks[ids[k]];
        Matching(ids[..k], status) + (if status.None? || t.status == status.value then [t] else [])
    }

    /** Exactly the running tasks of the status are listed. */
    lemma {:induction false} MatchingMembers(ids: seq<string>, status: Option<TaskStatus>)
      requires forall id :: id in ids ==> id in runningTasks
      ensures forall t :: t in Matching(ids, status) ==> t in runningTasks.Values && (status.Some? ==> t.status == status.value)
      ensures forall id :: id in ids && (status.None? || runningTasks[id].status == status.value) ==> runningTasks[id] in Matching(ids, status)
    {
      if ids != [] {
        var k := |ids| - 1;
        MatchingMembers(ids[..k], status);
        forall id | id in ids && (status.None? || runningTasks[id].status == status.value)
          ensures runningTasks[id] in Matching(ids, status)
        {
          if id != ids[k] {
            var j :| 0 <= j < |ids| && ids[j] == id;
            assert ids[..k][j] == id;
          }
        }
      }
    }

    /** The loop of `list_tasks` that keeps the tasks of one status. */
    method CollectMatching(status: Option<TaskStatus>) returns (tasks: seq<Task>)
      requires Valid()
      ensures tasks == Matching(order, status)
    {
      tasks := [];
      var i := 0;
      while i < |order|
        invariant 0 <= i <= |order|
        invariant tasks == Matching(order[..i], status)
      {
        assert order[..i + 1][..i] == order[..i];
        var t := runningTasks[order[i]];
        if status.None? || t.status == status.value {
          tasks := tasks + [t];
        }
        i := i + 1;
      }
      assert order[..i] == order;
    }

    /** Running tasks, optionally of one status, newest first, the slice
        [offset, offset + limit). */
    method ListTasks(status: Option<TaskStatus>, limit: nat, offset: nat) returns (r: seq<Task>)
      requires Valid()
      ensures r == Slice(SortByCreatedDesc(Matching(order, status)), offset, limit)
      ensures SortedDesc(r) && |r| <= limit
      ensures forall t :: t in r ==> t in runningTasks.Values && (status.Some? ==> t.status == status.value)
    {
      var tasks := CollectMatching(status);
      MatchingMembers(order, status);
      var sorted := SortByCreatedDesc(tasks);
      SameMembers(sorted, tasks);
      r := Slice(sorted, offset, limit);
    }

    /** Retires a task from memory together with its handle and any
        question-and-answer state. */
    method CleanupCompletedTask(taskId: string)
      requires Valid()
      modifies this
      ensures Valid()
      ensures taskId !in old(runningTasks) ==>
        runningTasks == old(runningTasks) && handles == old(handles) && waitingEvents == old(waitingEvents) &&
        waitingAnswers == old(waitingAnswers)
      ensures taskId in old(runningTasks) ==>
        && runningTasks == old(runningTasks) - {taskId} && order == Without(old(order), taskId)
        && handles == old(handles) - {taskId} && waitingEvents == old(waitingEvents) - {taskId}
        && waitingAnswers == old(waitingAnswers) - {taskId}
    {
      if taskId !in runningTasks {
        return;
      }
      runningTasks := runningTasks - {taskId};
      order := Without(order, taskId);
      handles := handles - {taskId};
      waitingEvents := waitingEvents - {taskId};
      waitingAnswers := waitingAnswers - {taskId};
    }

    /** Stores the user's answer and wakes the task if it is waiting. */
    method WakeUpWaitingTask(taskId: string, answer: string)
      modifies this
      ensures waitingAnswers == old(waitingAnswers)[taskId := answer]
      ensures signalled == old(signalled) + (if taskId in waitingEvents then {taskId} else {})
      ensures runningTasks == old(runningTasks) && order == old(order) && waitingEvents == old(waitingEvents)
      ensures handles == old(handles)
    {
      waitingAnswers := waitingAnswers[taskId := answer];
      if taskId in waitingEvents {
        signalled := signalled + {taskId};
      }
    }

    /** The error of a task whose question timed out. */
    function TimeoutError(timeout: string): string {
      "等待用户回答超时（" + timeout + "秒）"
    }

    /** The agent asks the user. A cached answer is consumed at once.
        Otherwise the task waits (WAITING_FOR_USER with the question) until
        `outcome`; a time-out fails it, and however the wait ends, the
        question is cleared and the status is RUNNING again. `timeout` is
        the time limit as Python prints it ("300.0" by default). */
    method WaitForUserAnswer(taskId: string, question: string, timeout: string, outcome: WaitOutcome, now: int)
      returns (answer: Option<string>)
      requires Valid()
      modifies this, if taskId in runningTasks then {runningTasks[taskId]} else {}
      ensures Valid() && runningTasks == old(runningTasks) && order == old(order)
      ensures taskId in old(waitingAnswers) ==>
        answer == Some(old(waitingAnswers)[taskId]) && waitingAnswers == old(waitingAnswers) - {taskId}
      ensures taskId !in old(waitingAnswers) && taskId !in runningTasks ==>
        answer.None? && waitingAnswers == old(waitingAnswers)
      ensures taskId !in old(waitingAnswers) && taskId in runningTasks ==>
        var t := runningTasks[taskId];
        && t.status == Running && t.pendingQuestion.None?
        && taskId !in waitingEvents
        && (outcome == TimedOut ==> t.completedAt == Some(now) && t.error == Some(TimeoutError(timeout)) && answer.None?)
        && (outcome != TimedOut ==> t.completedAt == old(t.completedAt) && t.error == old(t.error))
        && (outcome.Woken? ==> answer == (if outcome.stored.Some? && outcome.stored.value != "" then outcome.stored else None))
        && (!outcome.Woken? ==> answer.None?)
        && waitingAnswers == old(waitingAnswers)
    {
      if taskId in waitingAnswers {
        answer := Some(waitingAnswers[taskId]);
        waitingAnswers := waitingAnswers - {taskId};
        return;
      }
      if taskId !in runningTasks {
        return None;
      }
      var t := runningTasks[taskId];
      t.status := WaitingForUser;
      t.pendingQuestion := Some(question);
      waitingEvents := waitingEvents + {taskId};
      answer := None;
      match outcome {
        case Woken(stored) =>
          if stored.Some? && stored.value != "" {
            answer := stored;
          }
          waitingAnswers := waitingAnswers - {taskId};
        case TimedOut =>
          t.status := Failed;
          t.error := Some(TimeoutError(timeout));
          t.completedAt := Some(now);
        case WaitCancelled =>
      }
      waitingEvents := waitingEvents - {taskId};
      t.pendingQuestion := None;
      t.status := Running;
    }
  }
}
