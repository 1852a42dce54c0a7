/** The PC task service: it creates PC tasks, starts them once the device's
    FRP port is known, records how the agent run ended and cancels running
    tasks. The FRP port lookup (an HTTP query) and the agent run's outcome
    are inputs; persistence is not modelled. */
module PcAgentService {
  import opened Util
  import opened PcTask

  /** How `agent.run` ended: with a result dictionary, or by raising. */
  datatype RunOutcome = Returned(success: bool, message: Option<string>) | Raised(error: string)

  /** `{"kernel_mode": ..., "max_steps": ..., **kwargs}`: later keys win. */
  function TaskConfig(kernelMode: string, maxSteps: int, extra: map<string, string>): (c: map<string, string>)
    ensures c.Keys == extra.Keys + {"kernel_mode", "max_steps"}
    ensures forall k :: k in extra ==> c[k] == extra[k]
    ensures "kernel_mode" !in extra ==> c["kernel_mode"] == kernelMode
    ensures "max_steps" !in extra ==> c["max_steps"] == IntToString(maxSteps)
  {
    map["kernel_mode" := kernelMode, "max_steps" := IntToString(maxSteps)] + extra
  }

  class PCAgentService {
    var tasks: map<string, PCTask>
    var handles: set<string>

    ghost predicate Valid()
      reads this, tasks.Values
    {
      forall id :: id in tasks ==> tasks[id].taskId == id
    }

    constructor ()
      ensures Valid() && tasks == map[] && handles == {}
    {
      tasks := map[];
      handles := {};
    }

    /** Stores a new PENDING task under `taskId` (a fresh UUID) and returns it. */
    method CreateTask(taskId: string, instruction: string, deviceId: string, kernelMode: string, maxSteps: int,
                      extra: map<string, string>, now: int) returns (id: string)
      requires Valid() && taskId !in tasks
      modifies this
      ensures Valid() && id == taskId && handles == old(handles)
      ensures id in tasks && fresh(tasks[id]) && tasks == old(tasks)[id := tasks[id]]
      ensures tasks[id].status == Pending && tasks[id].instruction == instruction && tasks[id].deviceId == deviceId
      ensures tasks[id].config == TaskConfig(kernelMode, maxSteps, extra)
    {
      var t := new PCTask(taskId, instruction, deviceId, TaskConfig(kernelMode, maxSteps, extra), now);
      tasks := tasks[taskId := t];
      return taskId;
    }

    /** Starts a task when its device reports an FRP port (`frpPort`, None
        or 0 when the lookup finds none); otherwise the task fails. */
    method ExecuteTask(taskId: string, frpPort: Option<int>) returns (started: bool)
      requires Valid()
      modifies this, if taskId in tasks then {tasks[taskId]} else {}
      ensures Valid() && tasks == old(tasks)
      ensures taskId !in tasks ==> !started && handles == old(handles)
      ensures taskId in tasks ==> (started <==> frpPort.Some? && frpPort.value != 0)
      ensures taskId in tasks && !started ==>
        tasks[taskId].status == Failed && tasks[taskId].error == Some("设备未连接或 FRP 未就绪") && handles == old(handles)
      ensures started ==> handles == old(handles) + {taskId} && tasks[taskId].status == old(tasks[taskId].status)
    {
      if taskId !in tasks {
        return false;
      }
      var t := tasks[taskId];
      if frpPort.None? || frpPort.value == 0 {
        t.status := Failed;
        t.error := Some("设备未连接或 FRP 未就绪");
        return false;
      }
      handles := handles + {taskId};
      return true;
    }

    /** `_run_agent`: RUNNING from `start`, then COMPLETED iff the result
        says success (FAILED otherwise or on an exception) at `finish`; the
        run handle is dropped in every case. */
    method RunAgent(task: PCTask, outcome: RunOutcome, start: int, finish: int)
      modifies this, task
      ensures tasks == old(tasks) && handles == old(handles) - {task.taskId}
      ensures task.startedAt == Some(start) && task.completedAt == Some(finish)
      ensures task.status == (if outcome.Returned? && outcome.success then Completed else Failed)
      ensures outcome.Returned? ==> task.result == outcome.message && task.error == old(task.error)
      ensures outcome.Raised? ==> task.error == Some(outcome.error) && task.result == old(task.result)
    {
      task.status := Running;
      task.startedAt := Some(start);
      match outcome {
        case Returned(success, message) =>
          task.status := if success then Completed else Failed;
          task.result := message;
          task.completedAt := Some(finish);
        case Raised(e) =>
          task.status := Failed;
          task.error := Some(e);
          task.completedAt := Some(finish);
      }
      handles := handles - {task.taskId};
    }

    /** Cancels a RUNNING task: its handle is cancelled and dropped and it
        becomes CANCELLED at `now`. */
    method CancelTask(taskId: string, now: int) returns (cancelled: bool)
      requires Valid()
      modifies this, if taskId in tasks then {tasks[taskId]} else {}
      ensures Valid() && tasks == old(tasks)
      ensures cancelled <==> taskId in tasks && old(tasks[taskId].status) == Running
      ensures cancelled ==>
        tasks[taskId].status == Cancelled && tasks[taskId].completedAt == Some(now) && handles == old(handles) - {taskId}
      ensures !cancelled ==> handles == old(handles)
      ensures !cancelled && taskId in tasks ==> tasks[taskId].status == old(tasks[taskId].status)
    {
      if taskId !in tasks {
        return false;
      }
      var t := tasks[taskId];
      if t.status != Running {
        return false;
      }
      handles := handles - {taskId};
      t.status := Cancelled;
      t.completedAt := Some(now);
      return true;
    }
  }
}
