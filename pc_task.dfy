/** The PC task record: status, steps, result and timestamps (integer
    seconds), with the derived views the API reports. */
module PcTask {
  import opened Util

  datatype PCTaskStatus = Pending | Running | Completed | Failed | Cancelled

  function StatusValue(s: PCTaskStatus): (r: string)
    ensures r in {"pending", "running", "completed", "failed", "cancelled"}
  {
    match s
    case Pending => "pending"
    case Running => "running"
    case Completed => "completed"
    case Failed => "failed"
    case Cancelled => "cancelled"
  }

  lemma StatusValueInjective(a: PCTaskStatus, b: PCTaskStatus)
    requires StatusValue(a) == StatusValue(b)
    ensures a == b
  {
  }

  /** The dictionary `to_dict` returns; timestamps stay integers here
      (they are ISO strings in the API). */
  datatype PCTaskDict = PCTaskDict(
    taskId: string,
    instruction: string,
    deviceId: string,
    deviceType: string,
    status: string,
    steps: seq<map<string, string>>,
    result: Option<string>,
    error: Option<string>,
    createdAt: int,
    startedAt: Option<int>,
    completedAt: Option<int>,
    totalTokens: int,
    totalPromptTokens: int,
    totalCompletionTokens: int,
    config: map<string, string>)

  class PCTask {
    const taskId: string
    const instruction: string
    const deviceId: string
    const deviceType: string
    const createdAt: int
    const config: map<string, string>
    var status: PCTaskStatus
    var steps: seq<map<string, string>>
    var result: Option<string>
    var error: Option<string>
    var startedAt: Option<int>
    var completedAt: Option<int>
    var totalTokens: int
    var totalPromptTokens: int
    var totalCompletionTokens: int

    constructor (taskId: string, instruction: string, deviceId: string, config: map<string, string>, now: int)
      ensures this.taskId == taskId && this.instruction == instruction && this.deviceId == deviceId
      ensures this.config == config && deviceType == "pc" && createdAt == now
      ensures status == Pending && steps == [] && result.None? && error.None?
      ensures startedAt.None? && completedAt.None?
      ensures totalTokens == 0 && totalPromptTokens == 0 && totalCompletionTokens == 0
    {
      this.taskId := taskId;
      this.instruction := instruction;
      this.deviceId := deviceId;
      this.deviceType := "pc";
      this.createdAt := now;
      this.config := config;
      status := Pending;
      steps := [];
      result := None;
      error := None;
      startedAt := None;
      completedAt := None;
      totalTokens := 0;
      totalPromptTokens := 0;
      totalCompletionTokens := 0;
    }

    /** Seconds since the start, up to completion or, while unfinished, up
        to `now`; None before the start. */
    function Duration(now: int): (r: Option<int>)
      reads this
      ensures r.None? <==> startedAt.None?
      ensures r.Some? && completedAt.Some? ==> r.value == completedAt.value - startedAt.value
      ensures r.Some? && completedAt.None? ==> r.value == now - startedAt.value
    {
      if startedAt.None? then None
      else Some((if completedAt.Some? then completedAt.value else now) - startedAt.value)
    }

    function StepCount(): (n: nat)
      reads this
      ensures n == |steps|
    {
      |steps|
    }

    predicate IsRunning()
      reads this
    {
      status == Running
    }

    predicate IsFinished()
      reads this
    {
      status in {Completed, Failed, Cancelled}
    }

    /** A task is never both running and finished, and exactly the pending
        tasks are neither. */
    lemma RunningExcludesFinished()
      ensures !(IsRunning() && IsFinished())
      ensures !IsRunning() && !IsFinished() <==> status == Pending
    {
    }

    function ToDict(): (d: PCTaskDict)
      reads this
      ensures d.status == StatusValue(status) && d.taskId == taskId && d.deviceType == deviceType
      ensures d.startedAt == startedAt && d.completedAt == completedAt && d.steps == steps
      ensures d.result == result && d.error == error && d.config == config
    {
      PCTaskDict(taskId, instruction, deviceId, deviceType, StatusValue(status), steps, result, error,
        createdAt, startedAt, completedAt, totalTokens, totalPromptTokens, totalCompletionTokens, config)
    }
  }
}
