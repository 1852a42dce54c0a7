# Phone and PC agent core, modelled in Dafny

This project models the Python server and agent core of an Android/PC
automation system. A server keeps a pool of devices reached through FRP
tunnels: phones through ADB, PCs through an HTTP agent. It allocates each
device a port, scans the port range for devices, and removes zombie ports.
It runs agent tasks against the devices and lets a running task ask the user
a question. The agent side turns model replies into typed actions, turns
normalized 0..1000 coordinates into pixels, reads the accessibility tree
into a numbered element list, and runs multi-step plans with retries and
checkpoints. It also wraps the ADB helpers: device-id checks, command
prefixes, the yadb tool, reconnection and health checks.

The system also has a browser-side live task channel (push/poll merge,
reconnect backoff, an intervention countdown). That browser code is not
part of this model, which covers the Python code. The nearest server-side
pieces are modelled: the ask-user answer cache of the task service
(`AgentService`) and the human confirm/input rules of the plan executor
(`Executor`).

One Dafny module models each source file, under the file's own name:

| module | source file |
|---|---|
| `PortManager` | server/services/port_manager.py |
| `DevicePool` | server/services/device_pool.py |
| `DeviceServer` | server/websocket/server.py |
| `DeviceScanner` | server/services/device_scanner.py |
| `PortCleanup` | server/services/port_cleanup_service.py |
| `AgentService` | server/services/agent_service.py |
| `PcAgentService` | server/services/pc_agent_service.py |
| `PcTask` | server/pc/pc_task.py |
| `PcActions` | server/pc/pc_actions.py |
| `PcAgent` | server/pc/pc_agent.py |
| `PcPerception` | server/pc/pc_perception.py |
| `PcSubtask` | server/pc/pc_subtask.py |
| `PromptCards` | server/api/prompt_cards.py |
| `Planner` | phone_agent/planning/planner.py |
| `Executor` | phone_agent/planning/executor.py |
| `StandardActions` | phone_agent/actions/standard_actions.py |
| `ActionParse` | phone_agent/actions/parse.py |
| `VisionFormat` | phone_agent/actions/vision_format.py |
| `ActionExecutor` | phone_agent/actions/action_executor.py |
| `XmlParserV3` | phone_agent/adb/xml_parser_v3.py |
| `XmlTree` | phone_agent/adb/xml_tree.py |
| `XmlAgent` | phone_agent/kernel/xml_agent.py |
| `ResponseParser` | phone_agent/model/response_parser.py |
| `Device` | phone_agent/adb/device.py |
| `Yadb` | phone_agent/adb/yadb.py |
| `AutoReconnect` | phone_agent/adb/auto_reconnect.py |
| `DeviceHealth` | phone_agent/adb/device_health.py |
| `Util` | shared: `Option`, `Result`, and the Python string operations the code relies on |

The core keeps state in objects and in module-level dictionaries. Where it
mutates that state in place, the model uses a Dafny `class`: the port
manager, the device pool, the device manager, the scanner, the zombie-port
cleaner, the task records and services, the card store, the plan executor, the action
executor, the XML kernel agent, the yadb and connection caches, and the
health checker. Each method states its new state with `modifies`/`old`.
Parsing, conversion and geometry code is pure and becomes functions over
datatypes. Loops in the source become `while` loops with invariants. Each
such loop is proved against a specification function, and the
specification function's properties are proved as lemmas.

Other conventions:

- **Inputs.** Wall-clock time is an integer number of seconds passed in.
  The outcome of every subprocess (`adb`, `ss`, `netstat`, `kill`), HTTP
  call or model call is an input value. So is the result of the regular
  expression engine or `json.loads` where the code leans on them.
- **Numbers.** Integers are unbounded, as in Python. Python's floor `//`
  coincides with Dafny's `/` on the non-negative operands the code uses.
  `int()` truncation toward zero is written out (`Util.TruncDiv`) where an
  operand can be negative.

## Model

| member | source | states |
|---|---|---|
| PortManager.InverseIsInjective | server/services/port_manager.py:139-144 | while the port->allocation and device->port maps are mutual inverses, no device owns two ports |
| PortManager.InverseInsert | server/services/port_manager.py:139-144 | recording an unused port for a device without a port keeps the two maps mutual inverses |
| PortManager.NameOrId | server/services/port_manager.py:141 | the stored name is the device name when given and non-empty, otherwise the device id |
| PortManager.PortManager.constructor | server/services/port_manager.py:28-37 | a new manager holds no allocations and satisfies the inverse-maps invariant |
| PortManager.PortManager.ReleasePortInternal | server/services/port_manager.py:176-190 | returns whether the port was allocated; afterwards the port and its owner's reverse entry are gone and nothing else changes; the invariant is kept |
| PortManager.PortManager.AllocatePort | server/services/port_manager.py:85-147 | re-requesting the own port changes nothing; otherwise the device's old port is released first, an occupied port is refused without force (leaving the old port released) and taken over with force; on success both maps record the pair with name-or-id and the allocation time; the invariant is kept |
| PortManager.PortManager.ReleasePort | server/services/port_manager.py:149-174 | a non-empty device id releases that device's port (false if it has none); else a non-zero port releases that port; with neither nothing changes and the result is false; the invariant is kept |
| PortManager.PortManager.FindAvailablePort | server/services/port_manager.py:207-213 | returns the smallest port in [start, end] without an allocation, or None exactly when every port in the range is allocated |
| PortManager.PortManager.CleanupStaleAllocations | server/services/port_manager.py:215-233 | afterwards exactly the allocations older than the maximum age are gone from both maps, and the invariant is kept |
| DevicePool.SuccessRate | server/services/device_pool.py:88-93 | the rate is success/total x 100 as an exact fraction (numerator x total = success x 100 x denominator), and 0 when no task was ever assigned |
| DevicePool.Expire | server/services/device_pool.py:269-276 | an available device whose heartbeat is older than two minutes loses its WebSocket channel and goes offline (so is no longer available); every other device is unchanged |
| DevicePool.AutoStatus | server/services/device_pool.py:343-348 | a channel down means offline; both channels up with no task and no error means online; otherwise the status is kept |
| DevicePool.ApplyFields | server/services/device_pool.py:324-341 | each given field replaces the stored one, absent ones are kept, the activity time becomes now, and the task and counters are untouched |
| DevicePool.SelectableIds | server/services/device_pool.py:258-278 | an id is a candidate exactly when it is in the pool and the device is available with a live heartbeat; pool order is kept |
| DevicePool.FirstMaxIndex | server/services/device_pool.py:285-287 | the chosen index has the highest rate and every earlier entry has a strictly lower rate, which is the first element of a stable descending sort |
| DevicePool.StatusCountsPartition | server/services/device_pool.py:476-502 | the online, busy, offline and error counts add up to the number of devices |
| DevicePool.StatsRateZeroWithoutTasks | server/services/device_pool.py:488-500 | the pool-wide success rate is 0 when no task was ever assigned |
| DevicePool.DevicePool.constructor | server/services/device_pool.py:109-119 | an empty pool with the given capacity |
| DevicePool.DevicePool.RegisterDevice | server/services/device_pool.py:121-148 | a full pool refuses (even a known id) and changes nothing; otherwise the record is stored under its id, and a new id goes to the end of the key order |
| DevicePool.DevicePool.UnregisterDevice | server/services/device_pool.py:150-167 | returns whether the id was registered; afterwards it is gone from the map and from the key order |
| DevicePool.DevicePool.GetAvailableDevice | server/services/device_pool.py:244-293 | None exactly when no device is available with a live heartbeat; otherwise the first candidate in key order with the highest success rate; available devices with an expired heartbeat are marked offline and nothing else changes |
| DevicePool.DevicePool.CollectRates | server/services/device_pool.py:285 | the success rates of the candidates, in candidate order |
| DevicePool.DevicePool.CheckHeartbeat | server/services/device_pool.py:269-278 | one device of the heartbeat pass: it is kept exactly when selectable, and expired if available with a stale heartbeat |
| DevicePool.DevicePool.ExpireStale | server/services/device_pool.py:258-278 | returns the selectable ids in key order; available devices with a stale heartbeat are marked offline and the kept devices are unchanged |
| DevicePool.DevicePool.UpdateDeviceStatus | server/services/device_pool.py:295-350 | fails without change on an unknown id; otherwise the given fields are written, the activity time is now and the status is recomputed (offline whenever a channel is down) |
| DevicePool.DevicePool.AssignTask | server/services/device_pool.py:352-378 | succeeds exactly on a registered, available device, which then holds the task, is busy and has its total count raised by one; otherwise nothing changes |
| DevicePool.DevicePool.CompleteTask | server/services/device_pool.py:380-412 | a registered device is freed and set online, and exactly one of its success and failure counters goes up by one; an unknown id changes nothing |
| DevicePool.DevicePool.GetStats | server/services/device_pool.py:476-502 | the maximum and the device total; the online, busy and offline counts are the numbers of registered devices in each status; the task, success and failure totals are sums over the devices; the success rate is successes × 100 / total, and 0 with no tasks |
| DevicePool.CountStatusIsCard | server/services/device_pool.py:476-502 | counting the devices of one status along the distinct registration order gives the size of the set of devices in that status |
| DeviceServer.FrpListening | server/websocket/server.py:73-91 | the FRP channel counts as connected exactly when a non-zero port was given and the netstat output (when it ran) contains ":<port>" |
| DeviceServer.ReportedStatus | server/websocket/server.py:477-484 | a PC is reported online exactly when its WebSocket is connected; any other device needs both the WebSocket and the FRP channel |
| DeviceServer.ReportedStatusFrpMatters | server/websocket/server.py:520-527 | for either WebSocket state the FRP flag never changes a PC's reported status; a phone without FRP, and any device without a WebSocket, is reported offline |
| DeviceServer.DeviceIdForPort | server/websocket/server.py:384 | the id is "device_" followed by the decimal port |
| DeviceServer.DeviceIdForPortInjective | server/websocket/server.py:384 | two different ports never give the same device id |
| DeviceServer.FirstMessage | server/websocket/server.py:372-392 | a first message whose type is not device_online closes the socket with code 1008; otherwise the device registers as device_<port>, with the URL port overriding the one in its specs |
| DeviceServer.OnMessage | server/websocket/server.py:406-436 | a ping is answered with a pong, a task_complete completes the given task, and every other message type is ignored |
| DeviceServer.NewDevice | server/websocket/server.py:124-137 | a first registration is online, WebSocket-connected, has the measured FRP flag, and takes name, type (default android), port (default 0) and battery (default 100) from the specs |
| DeviceServer.Reconnected | server/websocket/server.py:93-113 | a reconnection sets the record online and WebSocket-connected with the measured FRP flag, keeps id, port and model, and keeps type, name and OS info when the device did not send them |
| DeviceServer.IndexedUpdate | server/websocket/server.py:93-113 | rewriting a known record under its own id keeps the manager's invariant |
| DeviceServer.IndexedAdd | server/websocket/server.py:124-137 | adding a new record at the end of the key order keeps the manager's invariant |
| DeviceServer.IndexedTasks | server/websocket/server.py:319-334 | changing a known device's task set keeps the manager's invariant |
| DeviceServer.DeviceManager.constructor | server/websocket/server.py:58-68 | a manager with no connections, records or task sets |
| DeviceServer.DeviceManager.RegisterDevice | server/websocket/server.py:70-147 | the socket is stored; a known record is updated as a reconnection, a new one is created and appended to the key order; a device without a task set gets an empty one |
| DeviceServer.DeviceManager.UnregisterDevice | server/websocket/server.py:193-214 | the record is kept but marked offline without WebSocket; the connection and task set are dropped; the FRP port to release is returned exactly when the record has a non-zero port |
| DeviceServer.DeviceManager.SendCommand | server/websocket/server.py:270-283 | sending succeeds exactly when the device has a connection and the send itself succeeds |
| DeviceServer.DeviceManager.GetAvailableDevice | server/websocket/server.py:310-317 | returns the first device in key order that is online, FRP-connected and has no task, or None exactly when there is none |
| DeviceServer.DeviceManager.AssignTask | server/websocket/server.py:319-324 | a device with a task set gets the task added and becomes busy; any other id changes nothing |
| DeviceServer.DeviceManager.CompleteTask | server/websocket/server.py:326-334 | the task is removed from the device's set, and a device left with no tasks is online again; an unknown id changes nothing |
| DeviceServer.DeviceManager.GetDevice | server/websocket/server.py:513-546 | None exactly for an unknown id (the 404 case); otherwise the live status rule, the live WebSocket flag and the number of tasks on the device, 0 when it has none |
| DeviceScanner.GenerateDeviceId | server/services/device_scanner.py:77-90 | the id of the device behind an FRP port is "device_" followed by the decimal port |
| DeviceScanner.ScannerAgreesWithServer | server/services/device_scanner.py:77-90 | the scanner names a port's device exactly as the WebSocket endpoint does |
| DeviceScanner.GenerateDeviceIdInjective | server/services/device_scanner.py:77-90 | different ports give different device ids |
| DeviceScanner.DefaultDeviceName | server/services/device_scanner.py:265-276 | "<model with spaces turned into dashes>-<port>" when a model is known, "device-<port>" otherwise |
| DeviceScanner.DetectDeviceType | server/services/device_scanner.py:278-335 | a non-empty type reported over WebSocket wins; otherwise the mobile range gives mobile and the PC range gives pc; outside both, the HTTP /health reply decides (its device_type, "pc" when it names none), and without a reply the type is mobile |
| DeviceScanner.PortRangeClassification | server/services/device_scanner.py:310-335 | without WebSocket or HTTP information, ports in the mobile range and outside both ranges are mobile and ports in the PC range are pc |
| DeviceScanner.ScanPort | server/services/device_scanner.py:345-382 | a port is reported only when it listens and always under its own id; a mobile result has an ADB serial and lies below the PC range; a port classified mobile inside the PC range is reported as a PC without serial |
| DeviceScanner.NewScannedDevice | server/services/device_scanner.py:432-468 | a new record is online under the found id and port; a PC is named "PC_<port>" and has no ADB serial |
| DeviceScanner.FoundIdsMembers | server/services/device_scanner.py:383-398 | an id is found in a scan exactly when some port of the range reports it |
| DeviceScanner.FoundIdsSound | server/services/device_scanner.py:383-398 | every found id is the id of a port whose scan reported a device |
| DeviceScanner.FoundIdsComplete | server/services/device_scanner.py:383-398 | every port that reports a device contributes its id |
| DeviceScanner.OfflinedConsistent | server/services/device_scanner.py:484-505 | at every step of the offline pass, each port entry names an online device on that port |
| DeviceScanner.DeviceScanner.constructor | server/services/device_scanner.py:52-75 | a scanner over the given port range with no devices and no port entries |
| DeviceScanner.DeviceScanner.Absorb | server/services/device_scanner.py:400-482 | a known device gets its last-seen time and comes back online with nothing else changed; a new device whose port the port manager grants is added as `NewScannedDevice`, entered under its port and holds that port with the manager; a refused one changes nothing; no other device's port registration changes |
| DeviceScanner.Vanished | server/services/device_scanner.py:484-505 | the vanished devices are exactly the known online devices that the scan did not find |
| DeviceScanner.DeviceScanner.MarkOffline | server/services/device_scanner.py:484-505 | no device is added or removed; exactly the online devices not found go offline; the port entries of devices not found are dropped; exactly the vanished devices give their ports back to the port manager, whose allocations lose those devices |
| DeviceScanner.DeviceScanner.AbsorbAll | server/services/device_scanner.py:383-482 | the found set is exactly the ids the range reports; devices only appear for found ids; found devices are online; devices not found are unchanged; names are kept; every new device is registered under its port in the table and with the port manager |
| DeviceScanner.DeviceScanner.ScanOnce | server/services/device_scanner.py:337-508 | after a scan a device is online exactly when it was found; no offline device keeps a port entry; only found ids are new and each new one holds its port in the table and with the port manager; a device that was online and was not found has given its port back; known names are kept |
| DeviceScanner.OfflinePassRegistration | server/services/device_scanner.py:337-508 | the offline pass after the absorb pass keeps every new device registered, sets online exactly the found devices, and releases the ports of vanished ones |
| DeviceScanner.DeviceScanner.GetOnlineDevices | server/services/device_scanner.py:552-554 | exactly the online records, unchanged |
| DeviceScanner.DeviceScanner.UpdateDeviceName | server/services/device_scanner.py:556-574 | succeeds exactly for a known id, and then changes only that device's name |
| PortCleanup.Pid | server/services/port_cleanup_service.py:72 | a pid is read exactly when the line holds "pid=" followed by a digit; with `PidIsFirst`, its value is the digits after the first such "pid=" |
| PortCleanup.PidIsFirst | server/services/port_cleanup_service.py:72 | the pid read from a position is the number formed by the digits after the first "pid=<digit>" at or after it |
| PortCleanup.PidFromSpec | server/services/port_cleanup_service.py:72 | searching for "pid=<digit>" from a position finds one exactly when one occurs at or after it |
| PortCleanup.ListenPortFrom | server/services/port_cleanup_service.py:69-79 | the port credited to a line is the first of the range whose ":<port>" occurs in a line that says LISTEN; no port when there is none |
| PortCleanup.ParseSsLine | server/services/port_cleanup_service.py:67-79 | a line yields its first listening port of the range together with its pid, and nothing exactly when no port of the range listens in it |
| PortCleanup.Zombies | server/services/port_cleanup_service.py:158-195 | a zombie is a listening port that is not active and was stamped more than the timeout ago, and every such port is a zombie |
| PortCleanup.ListeningPorts | server/services/port_cleanup_service.py:48-117 | the collected ports are distinct, lie in the range, and are exactly the keys of the pid map |
| PortCleanup.ListeningSound | server/services/port_cleanup_service.py:67-79 | every collected port and its pid come from one line of the output |
| PortCleanup.ListeningComplete | server/services/port_cleanup_service.py:67-79 | every line that names a listening port of the range has its port collected |
| PortCleanup.ClassifyStamps | server/services/port_cleanup_service.py:178-185 | afterwards exactly the previously stamped ports and the inactive listening ones are stamped; new stamps are `now` and old ones are kept |
| PortCleanup.ClassifyZombies | server/services/port_cleanup_service.py:178-195 | on distinct ports the classification loop reports exactly the zombies, in listening order |
| PortCleanup.Killed | server/services/port_cleanup_service.py:278-280 | the cleaned ports are exactly the zombies whose process could be killed |
| PortCleanup.KilledCountPositions | server/services/port_cleanup_service.py:277-280 | the cleaned count is the number of zombie positions whose process could be killed |
| PortCleanup.PortCleanupService.constructor | server/services/port_cleanup_service.py:28-46 | a service over the given range and timeout with no activity stamps |
| PortCleanup.PortCleanupService.GetListeningPorts | server/services/port_cleanup_service.py:48-117 | returns the listening ports and pids of the specification function over the `ss -tlnp` lines |
| PortCleanup.PortCleanupService.GetActiveDevices | server/services/port_cleanup_service.py:119-156 | the active ports are the non-zero ports of connected WebSocket devices and of online scanned devices; each of them, and only they, are restamped with `now` |
| PortCleanup.PortCleanupService.ClassifyListening | server/services/port_cleanup_service.py:176-195 | returns the zombies and leaves the stamps that the classification function gives |
| PortCleanup.PortCleanupService.IdentifyZombiePorts | server/services/port_cleanup_service.py:158-195 | a port is reported exactly when it listens in the range, is not active and was stamped before the call more than the timeout ago; active ports are stamped `now`, every listening port gets a stamp, and other stamps are kept |
| PortCleanup.PortCleanupService.CleanupZombies | server/services/port_cleanup_service.py:267-294 | exactly the killed zombies lose their stamp and their allocation with the port manager, and the count is the number of kills |
| AgentService.StatusValue | server/services/agent_service.py:44-51 | every status has a non-empty wire value |
| AgentService.StatusValueInjective | server/services/agent_service.py:44-51 | different statuses have different wire values |
| AgentService.MaskApiKey | server/services/agent_service.py:133-138 | a key longer than 12 characters shows as its first 8 characters, "..." and its last 4; any shorter key shows as "***" |
| AgentService.MaskDependsOnlyOnEnds | server/services/agent_service.py:133-138 | two long keys that agree on their first 8 and last 4 characters mask alike, so the mask reveals nothing else |
| AgentService.SafeModelConfig | server/services/agent_service.py:126-139 | an absent or empty configuration shows as None; otherwise every key is kept, and "api_key" alone is replaced by its mask |
| AgentService.Task.constructor | server/services/agent_service.py:81-118 | a new task is PENDING with its instruction, device, configuration and creation time, no steps, no result, error or question |
| AgentService.Task.Duration | server/services/agent_service.py:120-124 | the duration is known exactly when the task has both a start and a completion time, and then it is their difference |
| AgentService.Task.ToDict | server/services/agent_service.py:126-153 | the reported record carries the id, the status value, the number of steps, the duration and the masked configuration |
| AgentService.AgentCallback.constructor | server/services/agent_service.py:168-174 | a callback bound to its task |
| AgentService.AgentCallback.OnStepStart | server/services/agent_service.py:205-237 | a cancelled task makes the callback raise and changes nothing; otherwise exactly one "running" step is appended with the decoded thinking and action, and the task's status, times, result and error are kept |
| AgentService.AgentCallback.UpdateStepStatus | server/services/agent_service.py:288-305 | the last step is completed (completed or failed, with thinking, observation and time) exactly when it is the step named; otherwise the steps are unchanged |
| AgentService.InsertDesc | server/services/agent_service.py:1344-1345 | inserting a task keeps a newest-first list newest first and adds exactly that task |
| AgentService.SortByCreatedDesc | server/services/agent_service.py:1344-1345 | the result is ordered newest first and is a permutation of the input |
| AgentService.SameMembers | server/services/agent_service.py:1344-1345 | a permutation has the same members as the original |
| AgentService.Slice | server/services/agent_service.py:1347 | the window [offset, offset + limit) of the list: at most `limit` tasks, the right ones, and none when the offset is past the end |
| AgentService.SliceSorted | server/services/agent_service.py:1347 | a window of a newest-first list is newest first |
| AgentService.AgentService.constructor | server/services/agent_service.py:515-532 | a service with no tasks, run handles or question-and-answer state |
| AgentService.AgentService.CreateTask | server/services/agent_service.py:544-602 | a fresh PENDING task is stored under the new id and appended to the order; the rest of the state is unchanged |
| AgentService.AgentService.ExecuteTask | server/services/agent_service.py:604-661 | a task starts exactly when it exists, is PENDING, and has a device of its own or gets one from the pool; a started task is RUNNING from `now` with a run handle, keeps a device of its own and otherwise holds the pool's device; the pool's device is returned for `assign_task` whenever the pool was asked and offered one; otherwise no status changes |
| AgentService.AgentService.CancelTask | server/services/agent_service.py:1237-1289 | only a PENDING or RUNNING task is cancelled; it becomes CANCELLED with "Task cancelled by user" and a completion time, its run is asked to stop, and it leaves the running tasks |
| AgentService.AgentService.Matching | server/services/agent_service.py:1339-1342 | the running tasks of the given status, never more than the ids given |
| AgentService.AgentService.MatchingMembers | server/services/agent_service.py:1339-1342 | a task is listed exactly when it is running and has the requested status |
| AgentService.AgentService.CollectMatching | server/services/agent_service.py:1339-1342 | the filtering loop returns exactly the matching running tasks in order |
| AgentService.AgentService.ListTasks | server/services/agent_service.py:1322-1347 | the listing is the requested window of the matching tasks sorted newest first: ordered, at most `limit` long, and made only of tasks the service holds with the requested status |
| AgentService.AgentService.CleanupCompletedTask | server/services/agent_service.py:1525-1548 | a known task leaves memory together with its handle, its waiting event and any stored answer; an unknown id changes nothing |
| AgentService.AgentService.WakeUpWaitingTask | server/services/agent_service.py:1550-1569 | the answer is stored and the waiting task, if any, is signalled; nothing else changes |
| AgentService.AgentService.WaitForUserAnswer | server/services/agent_service.py:1571-1653 | a stored answer is consumed at once; otherwise the task waits, and afterwards it is RUNNING with no pending question and no waiting event; a time-out sets the error "等待用户回答超时（<timeout>秒）" and the completion time and gives no answer; a wake-up gives the stored non-empty answer |
| PcAgentService.TaskConfig | server/services/pc_agent_service.py:84-88 | the task configuration has exactly the extra keys plus kernel_mode and max_steps; extra keys are kept as given and win over the two defaults |
| PcAgentService.PCAgentService.constructor | server/services/pc_agent_service.py:46-57 | a service with no tasks and no run handles |
| PcAgentService.PCAgentService.CreateTask | server/services/pc_agent_service.py:59-94 | a fresh PENDING task with the instruction, device and merged configuration is stored under the new id, which is returned |
| PcAgentService.PCAgentService.ExecuteTask | server/services/pc_agent_service.py:96-131 | an unknown task is not started; a known one starts exactly when its device has a non-zero FRP port and then gets a run handle; otherwise it fails with "设备未连接或 FRP 未就绪" |
| PcAgentService.PCAgentService.RunAgent | server/services/pc_agent_service.py:133-188 | the task runs from `start` and finishes at `finish`, COMPLETED exactly when the agent returned success and FAILED otherwise; an exception becomes the error; the run handle is dropped in every case |
| PcAgentService.PCAgentService.CancelTask | server/services/pc_agent_service.py:319-352 | only a RUNNING task is cancelled: its handle is cancelled and dropped and it becomes CANCELLED at `now`; anything else changes nothing |
| PcTask.StatusValue | server/pc/pc_task.py:17-23 | every status has one of the five wire values |
| PcTask.StatusValueInjective | server/pc/pc_task.py:17-23 | different statuses have different wire values |
| PcTask.PCTask.constructor | server/pc/pc_task.py:27-80 | a new task is PENDING, of device type "pc", with no steps, result, error, times or tokens |
| PcTask.PCTask.Duration | server/pc/pc_task.py:109-120 | no duration before the start; otherwise the time from start to completion, or to `now` while the task is unfinished |
| PcTask.PCTask.StepCount | server/pc/pc_task.py:123-130 | the number of steps recorded |
| PcTask.PCTask.RunningExcludesFinished | server/pc/pc_task.py:133-154 | a task is never both running and finished, and it is neither exactly when it is pending |
| PcTask.PCTask.ToDict | server/pc/pc_task.py:83-106 | the reported record carries the status value and the task's own id, device type, times, steps, result, error and configuration |
| PcActions.Click | server/pc/pc_actions.py:38-43 | a click action with x, y and button and no thought or message |
| PcActions.TypeText | server/pc/pc_actions.py:46-51 | a type action carrying the text |
| PcActions.StrList | server/pc/pc_actions.py:54-59 | the modifier names as a JSON list, in order |
| PcActions.PressKey | server/pc/pc_actions.py:54-59 | a key action with exactly "key" and "modifiers", the latter the empty list when no modifiers are given |
| PcActions.Scroll | server/pc/pc_actions.py:62-67 | a scroll action carrying the clicks |
| PcActions.MoveMouse | server/pc/pc_actions.py:70-75 | a move action carrying x and y |
| PcActions.Finish | server/pc/pc_actions.py:78-84 | a finish action with no parameters and the message |
| PcActions.FactoryTagsDistinct | server/pc/pc_actions.py:38-84 | the six factories produce six different action types |
| PcActions.FromDict | server/pc/pc_actions.py:110-125 | a missing action type becomes "finish", missing params {} and missing thought or message null; present keys are taken as they are |
| PcActions.ToDict | server/pc/pc_actions.py:127-134 | the dictionary has exactly the four keys, holding the action's own fields |
| PcActions.FromDictToDict | server/pc/pc_actions.py:110-134 | converting an action to a dictionary and back gives the same action |
| PcActions.ToDictFromDict | server/pc/pc_actions.py:110-134 | a dictionary with exactly the four keys survives the round trip the other way |
| PcActions.FromModelResponse | server/pc/pc_actions.py:87-107 | a decoded object becomes the action `FromDict` gives; a decoding failure becomes a finish action saying "解析错误: " and the error |
| PcAgent.FinishAction | server/pc/pc_agent.py:657-666 | a finish action carries the finish marker and the message |
| PcAgent.StripChar | server/pc/pc_agent.py:672 | removing a quote character from both ends never lengthens the text and leaves no such character at either end; with `StripCharSlice` it is the text with exactly its leading and trailing runs of that character removed |
| PcAgent.StripCharSlice | server/pc/pc_agent.py:672 | the stripped text is a slice of the text, and everything before and after that slice is the stripped character |
| PcAgent.Point | server/pc/pc_agent.py:710-720 | coordinates are denormalized only in normalized mode with both values at most 1000; otherwise they are used as pixels |
| PcAgent.ShortcutKeys | server/pc/pc_agent.py:761-775 | a first key spelled command or cmd becomes the platform's control key |
| PcAgent.ParseAction | server/pc/pc_agent.py:614-911 | every parsed action is well formed: its parameters fit its action type |
| PcAgent.DoubleTapIdxClicksTwice | server/pc/pc_agent.py:728-740 | "Double TapIdx (n)" with no finish, stop or open-app command gives a perception click at index n − 1 with two clicks |
| PcAgent.OpenAppPressesSearchKey | server/pc/pc_agent.py:668-690 | "Open App (name)" presses the search key, the list form joined with "+", and queues typing the cleaned app name and Enter |
| PcAgent.FinishWins | server/pc/pc_agent.py:650-661 | any text that mentions "finish" in any letter case ends the task with the finish marker |
| PcAgent.StopFinishes | server/pc/pc_agent.py:663-666 | "Stop" without "finish" ends the task with the default message "任务完成" |
| PcAgent.TapIdxIsZeroBased | server/pc/pc_agent.py:693-702 | "TapIdx (n)" without "Double" becomes a single click on the element at index n - 1 that needs the perception result |
| PcAgent.UnparsedFinishes | server/pc/pc_agent.py:911 | text that no rule recognises ends the task with "无法解析动作: " and the text |
| PcAgent.TapOnScreen | server/pc/pc_agent.py:704-725 | a denormalized tap is a single click inside the screen |
| PcAgent.FinishOutcome | server/pc/pc_agent.py:219-231 | a finish succeeds exactly when it was not caused by an error; a failure reports "任务失败: " and the message, a success "任务完成" |
| PcAgent.SplitKeys | server/pc/pc_agent.py:1086-1095 | "a+b+c" splits into modifiers a, b and key c; joining them with "+" gives the text back, and text without "+" is a key with no modifiers |
| PcAgent.ClickIdxAsWritten | server/pc/pc_agent.py:1058-1070 | as written, an empty list or an index at or past the end is refused with "索引 <n> 超出范围", and an index in range clicks that element |
| PcAgent.TapIdxZeroClicksLast | server/pc/pc_agent.py:693-702 | "TapIdx (0)" gives index -1, and the lookup as written clicks the last marked element instead of refusing |
| PcAgent.MinusOneIsLast | server/pc/pc_agent.py:1062-1066 | index -1 passes the range check as written and names the last element |
| PcAgent.TapIdxZeroText | server/pc/pc_agent.py:648-695 | the text "TapIdx (0)" reaches the TapIdx rule |
| PcAgent.ClickIdxTarget | server/pc/pc_agent.py:1058-1070 | with the index checked at both ends, only a marked element can be clicked, and for non-negative indexes the behaviour is the same as written |
| PcAgent.PieceStart | server/pc/pc_agent.py:968 | the last piece starts no earlier than where the scan resumes, and right after an occurrence of the marker whenever the scan finds one; the scan finds no marker from there on |
| PcAgent.LastPiece | server/pc/pc_agent.py:968 | the text after the last answer marker is a suffix of the output, and the whole output when there is no marker |
| PcAgent.LastPieceHasNoSeparator | server/pc/pc_agent.py:968 | the last piece contains no marker |
| PcAgent.LastPieceFollowsSeparator | server/pc/pc_agent.py:968 | when the output has a marker, one ends right where the last piece begins |
| PcAgent.FirstLetter | server/pc/pc_agent.py:970-972 | the first of A, B, C, D, in that order, occurring in the window; None exactly when none occurs |
| PcAgent.AnswerWindow | server/pc/pc_agent.py:968-971 | the window is the prefix of the stripped last piece of length min(10, its length) |
| PcAgent.ReflectAnswer | server/pc/pc_agent.py:913-979 | the verdict is one of A to D; without an answer marker it is A (success); otherwise it is the first of A, B, C, D, in that order, that occurs in the window, and A when none does |
| PcPerception.NormalizeCoordinates | server/pc/pc_perception.py:51-83 | results always lie in 0..1000; a zero dimension gives (0, 0); an on-screen point is scaled by 1000 over the dimension and truncated |
| PcPerception.NormalizeExact | server/pc/pc_perception.py:76-81 | scaling an on-screen coordinate already lands in 0..1000, so the clamp changes nothing there |
| PcPerception.DenormalizeCoordinates | server/pc/pc_perception.py:86-110 | the pixel is never negative and stays below the screen width and height; inside 0..999 it is `n × size / 1000` truncated, and from 1000 on the last pixel |
| PcPerception.DenormalizeOne | server/pc/pc_perception.py:86-110 | one axis: truncated scaling inside 0..999, the last pixel from 1000 on, 0 for a non-positive coordinate or a screen of at most one pixel |
| PcPerception.PixelBounds | server/pc/pc_perception.py:86-110 | scaling a coordinate inside 0..999 lands on the screen, one from 1000 on lands at or past its edge, and a non-positive one at or before 0 |
| PcPerception.RoundTripDoesNotOvershoot | server/pc/pc_perception.py:51-110 | denormalizing then normalizing again never moves a coordinate forward and stays non-negative |
| PcPerception.RolePriority | server/pc/pc_perception.py:413-433 | role priorities lie in 0..10, unlisted roles having 0 |
| PcPerception.Keep | server/pc/pc_perception.py:435-473 | a kept element has a position and a size, lies on screen, is at least 10 by 10, has text, a title or a role of priority 5 or more, its role's priority and its centre; it carries the element's own position and size, its role ("Unknown" when absent) and its stripped text and title; an element is dropped exactly when it fails one of these rules |
| PcPerception.Kept | server/pc/pc_perception.py:435-473 | the kept elements are no more than the input and all satisfy the rules; every element the rules accept is kept, and every kept element is the accepted form of an input element |
| PcPerception.KeptConcat | server/pc/pc_perception.py:435-473 | filtering keeps input order: the kept elements of two lists in a row are those of the first followed by those of the second |
| PcPerception.InsertByKey | server/pc/pc_perception.py:476 | inserting adds exactly one element and keeps every element positioned |
| PcPerception.InsertByKeySorted | server/pc/pc_perception.py:476 | inserting into a list ordered by (-priority, y, x) keeps it ordered |
| PcPerception.SortByKey | server/pc/pc_perception.py:476 | the sorted list is a permutation of the input |
| PcPerception.SortByKeySorted | server/pc/pc_perception.py:476 | the sorted list is ordered by priority descending, then y, then x |
| PcPerception.TopSorted | server/pc/pc_perception.py:476-479 | the first 50 of the sorted elements are ordered and at most 50, and they are all the elements when there are no more than 50 |
| PcPerception.FilterElements | server/pc/pc_perception.py:386-479 | the result is the first 50 of the kept elements sorted by priority then position: ordered, at most 50, and every kept element when there are at most 50 |
| PcPerception.DisplayName | server/pc/pc_perception.py:505-509 | the name is text, else title, else "无标签" and the role; it is at most 30 characters, a longer one being cut to 27 plus "..." |
| PcPerception.ShownLines | server/pc/pc_perception.py:500-510 | one line per shown element |
| PcPerception.ShownLinesAt | server/pc/pc_perception.py:500-510 | line i shows element i under number i + 1 |
| PcPerception.SummaryLines | server/pc/pc_perception.py:498-514 | one line for each of the first 20 elements, numbered from 1, plus a note when there are more |
| PcPerception.GenerateElementSummary | server/pc/pc_perception.py:481-516 | no elements give the fixed message; otherwise the summary lines joined by line breaks |
| PcPerception.ConvertToPerceptionInfos | server/pc/pc_perception.py:518-568 | one entry per element: mark number i + 1, the element's pixel centre, its centre normalized and its description |
| PcPerception.MarkNumbersDistinct | server/pc/pc_perception.py:560-566 | mark numbers are distinct, so a mark names exactly one element |
| PcSubtask.SubtaskPrompt | server/pc/pc_subtask.py:25-75 | the prompt is the preamble, then the instruction under "User Instruction:", then the JSON format block, and nothing else |
| PcSubtask.ValidateSubtaskDict | server/pc/pc_subtask.py:115-135 | the loop accepts exactly the non-empty dictionaries that hold "subtask 1" up to "subtask n", n being their size |
| PcSubtask.SubtaskKeysCard | server/pc/pc_subtask.py:130-133 | the keys "subtask 1" to "subtask n" are n different strings |
| PcSubtask.ValidMeansExactKeys | server/pc/pc_subtask.py:115-135 | a valid dictionary has exactly the keys "subtask 1" to "subtask n" and no other |
| PcSubtask.LeadingWord | server/pc/pc_subtask.py:149 | the longest prefix of word characters |
| PcSubtask.ExtractParameters | server/pc/pc_subtask.py:138-149 | every name found is a non-empty word that occurs in braces in the text, and text without "{" has none; with `ReferenceExtracted`, every `{word}` occurrence contributes its name, left to right |
| PcSubtask.ExtractSplit | server/pc/pc_subtask.py:138-149 | the names of a text are those of the part before any "{" followed by those of the rest |
| PcSubtask.ReferenceExtracted | server/pc/pc_subtask.py:138-149 | a `{word}` at any position contributes its word between the names before it and those after it |
| PcSubtask.ParameterFirst | server/pc/pc_subtask.py:138-149 | a reference at the front is found first, before those in the rest of the text |
| PcSubtask.Format | server/pc/pc_subtask.py:166 | text without braces formats to itself |
| PcSubtask.DoubleBraces | server/pc/pc_subtask.py:164-166 | text without braces is unchanged by doubling |
| PcSubtask.FormatDoubled | server/pc/pc_subtask.py:164-166 | formatting a text whose braces are all doubled gives the text back, whatever the answers |
| PcSubtask.EscapeDictLiterals | server/pc/pc_subtask.py:164-165 | text without braces is unchanged by the escaping step |
| PcSubtask.SubstituteParameters | server/pc/pc_subtask.py:152-170 | text without braces is returned as it is; a missing key gives back the original text; a successful format gives the formatted text |
| PcSubtask.MissingAnswerKeepsText | server/pc/pc_subtask.py:167-170 | a reference to an answer that is missing leaves the subtask text exactly as it was |
| PcSubtask.PresentAnswerSubstituted | server/pc/pc_subtask.py:152-170 | a present answer replaces its reference and the text around it is kept |
| PcSubtask.FormatEscapedReference | server/pc/pc_subtask.py:164-166 | formatting the escaped "prefix{key}suffix" gives the prefix, then the answer or the missing key, then the rest |
| PcSubtask.FormatReference | server/pc/pc_subtask.py:166 | at a "{name}" reference, formatting gives the answer followed by the rest, or the missing key |
| PcSubtask.EscapeOfReference | server/pc/pc_subtask.py:164-165 | the escaping step leaves a plain "{name}" reference alone |
| PcSubtask.FormatPlainPrefix | server/pc/pc_subtask.py:166 | text before the first brace is copied as it is |
| PromptCards.Ids | server/api/prompt_cards.py:173 | the ids of the cards, in order |
| PromptCards.NextId | server/api/prompt_cards.py:169-173 | 1 for no cards; otherwise one more than the largest id, so above every id |
| PromptCards.NextIdFresh | server/api/prompt_cards.py:169-173 | a new id never collides with an existing one |
| PromptCards.ListCards | server/api/prompt_cards.py:181-192 | an absent or empty category lists every card; otherwise exactly the cards of that category |
| PromptCards.OfCategory | server/api/prompt_cards.py:189-190 | a card is listed exactly when it is one of the cards and has the category |
| PromptCards.FindCard | server/api/prompt_cards.py:204-212 | the first card with the id; None exactly when no card has it (the 404 case) |
| PromptCards.InsertCategory | server/api/prompt_cards.py:196-200 | inserting into a strictly sorted list keeps it strictly sorted and adds exactly that category |
| PromptCards.Categories | server/api/prompt_cards.py:196-200 | the categories are strictly sorted and are exactly those some card has |
| PromptCards.SortedCategoriesDistinct | server/api/prompt_cards.py:196-200 | no category is listed twice |
| PromptCards.ApplyUpdate | server/api/prompt_cards.py:245-254 | each field the request gives replaces the card's, the others are kept, id, system flag and creation time are kept, and the update time is set |
| PromptCards.CustomCards | server/api/prompt_cards.py:286 | exactly the cards that are not system cards |
| PromptCards.WithoutId | server/api/prompt_cards.py:273 | exactly the cards whose id differs |
| PromptCards.PromptCardStore.constructor | server/api/prompt_cards.py:72-86 | without saved cards the store starts from the default system cards |
| PromptCards.PromptCardStore.Create | server/api/prompt_cards.py:216-232 | an invalid request is refused and changes nothing; a valid one appends exactly one custom card with a fresh id and the request's fields |
| PromptCards.PromptCardStore.Update | server/api/prompt_cards.py:236-259 | an invalid request is refused; an unknown id is not found; otherwise only the first card with the id is rewritten, system cards included |
| PromptCards.PromptCardStore.Delete | server/api/prompt_cards.py:263-277 | an unknown id is not found, a system card is refused, and otherwise every card with the id is dropped and the rest kept in order |
| PromptCards.PromptCardStore.Reset | server/api/prompt_cards.py:281-295 | the default system cards are put back in front of the custom cards, and the total is the new number of cards |
| PromptCards.DeleteRemovesOnlyThatId | server/api/prompt_cards.py:273 | deletion keeps every card with another id and leaves none with the deleted id |
| PromptCards.ResetKeepsCustom | server/api/prompt_cards.py:281-295 | a reset keeps exactly the custom cards |
| PromptCards.CustomIdempotent | server/api/prompt_cards.py:286 | keeping the custom cards twice is the same as once |
| Planner.JsonToObjects | phone_agent/planning/planner.py:48-59 | a JSON list reads as a list of objects exactly when every item is an object, and then item by item |
| Planner.JsonToStrings | phone_agent/planning/planner.py:48-59 | a JSON list reads as a list of strings exactly when every item is a string, and then item by item |
| Planner.ToDict | phone_agent/planning/planner.py:34-45 | the dictionary has exactly the eight plan keys |
| Planner.FromDict | phone_agent/planning/planner.py:48-59 | a dictionary without "instruction" fails; otherwise complexity defaults to "medium", the texts to "", the duration to 30 and the three lists to empty |
| Planner.FromDictToDict | phone_agent/planning/planner.py:34-59 | converting a plan to its dictionary and back gives the same plan |
| Planner.ToDictFromDict | phone_agent/planning/planner.py:34-59 | a dictionary with exactly the eight keys that reads as a plan comes back unchanged |
| Planner.CheckStep | phone_agent/planning/planner.py:330-369 | a step passes exactly when it has a step id, a known action type and parameters, and the parameters hold what that type needs |
| Planner.CheckSteps | phone_agent/planning/planner.py:330-369 | the steps pass exactly when every one of them does |
| Planner.ValidatePlan | phone_agent/planning/planner.py:307-371 | no instruction gives "计划必须有指令", no steps "计划必须至少有一个步骤" |
| Planner.ValidPlanIff | phone_agent/planning/planner.py:307-371 | a plan is valid exactly when it has an instruction and steps and every step passes its checks |
| Planner.SwipeNeedsEndPoint | phone_agent/planning/planner.py:362-365 | a SWIPE step with only a start point lacks its required parameters and is rejected with "步骤 i SWIPE缺少坐标" |
| Planner.BackfillStepIds | phone_agent/planning/planner.py:163-169 | the backfill succeeds exactly when every step is a dictionary, and then gives `Backfilled` of the items; a failure names a step that is not a dictionary |
| Planner.WithStepId | phone_agent/planning/planner.py:163-169 | a step keeps its own "step_id"; a step without one gets the given position and keeps every other entry |
| Planner.Backfilled | phone_agent/planning/planner.py:163-169 | the backfilled list has one step per item, each item given its 1-based position as missing step id |
| Planner.PlanFromReply | phone_agent/planning/planner.py:157-200 | a list of dictionaries becomes a plan of that task with complexity "medium", the texts "AI直接返回了步骤列表" and "按照步骤顺序执行", 10 seconds per step, the backfilled items as steps and no checkpoints or risks; an object with a step list is `FromDict` of that object with its steps backfilled; other objects are `FromDict` as they are; a list with another item, a step list with a non-dictionary or a reply that is neither list nor object fails |
| Planner.ParseReply | phone_agent/planning/planner.py:203-305 | a reply starting with "[notool]" or "[sensitive]" after stripping is refused; any other is passed on decoded |
| Executor.FirstSuccess | phone_agent/planning/executor.py:255-267 | the first successful attempt among the first `limit`, with every earlier one failed; None exactly when all of them fail |
| Executor.IsCriticalStep | phone_agent/planning/executor.py:938-943 | a step is critical exactly when some checkpoint names it and is marked critical |
| Executor.FindBySelector | phone_agent/planning/executor.py:945-1006 | an element is found exactly when some element matches the selector; then a match's centre is returned, otherwise (0, 0) |
| Executor.ScrollEnd | phone_agent/planning/executor.py:507-543 | an end point exists exactly for the four known directions; it keeps the other coordinate and stays on the 1440x3200 screen the code assumes |
| Executor.ExecuteScroll | phone_agent/planning/executor.py:507-543 | the direction defaults to down; a scroll succeeds only for a known direction and when the device swipe went through |
| Executor.ValidateWithXmlAsWritten | phone_agent/planning/executor.py:661-734 | as written, the check can only pass when the expected state names the current app |
| Executor.ValidateWithXml | phone_agent/planning/executor.py:661-734 | the corrected check passes exactly when every condition the expected state names holds on the screen, reporting "XML checkpoint passed: " and the description |
| Executor.AsWrittenPassImpliesIntended | phone_agent/planning/executor.py:661-734 | wherever the check as written passes, the corrected check passes too |
| Executor.HasTextAloneFailsAsWritten | phone_agent/planning/executor.py:661-734 | an expectation naming only a text that the screen shows fails as written and passes as intended |
| Executor.ScrollAsWrittenNeverSucceeds | phone_agent/planning/executor.py:507-543 | as written no scroll succeeds; one in a known direction is reported as a failed scroll |
| Executor.ScrollSucceedsWhenSwiped | phone_agent/planning/executor.py:507-543 | corrected, a scroll in a known direction with whole-number coordinates succeeds exactly when the device swipe goes through |
| Executor.HasTextWithAppFailsAsWritten | phone_agent/planning/executor.py:661-734 | with the app named and matching, a text-only expectation still fails as written |
| Executor.Stars | phone_agent/planning/executor.py:928-932 | the mask of a secret answer is one asterisk per character |
| Executor.PlanExecutor.constructor | phone_agent/planning/executor.py:94-133 | an executor with the given retry, checkpoint and callback settings and both checkpoint counters at zero |
| Executor.PlanExecutor.RetryOutcome | phone_agent/planning/executor.py:239-273 | a human step runs once; another step succeeds exactly when one of its `maxRetries + 1` attempts does, and then with the first successful attempt; otherwise after every attempt with "步骤失败（已重试 n 次）: " and the last message |
| Executor.PlanExecutor.ExecuteStepWithRetry | phone_agent/planning/executor.py:239-273 | the retry loop returns the result and the number of attempts `RetryOutcome` gives |
| Executor.PlanExecutor.ExecutePlan | phone_agent/planning/executor.py:159-237 | the run succeeds exactly when no step fails critically; a success completes every step without fallback and reports the last failing step with its message; the first critical failure stops the run there, with fallback exactly when enabled |
| Executor.PlanExecutor.CriticalStopReports | phone_agent/planning/executor.py:186-207 | the early return at the first critical failure meets the run's promise |
| Executor.PlanExecutor.CompletedRunReports | phone_agent/planning/executor.py:219-237 | the return after the last step, with no critical failure, meets the run's promise |
| Executor.PlanExecutor.RecordedStep | phone_agent/planning/executor.py:182-189 | after each step the recorded failure is the last failing step so far, with its message |
| Executor.PlanExecutor.FirstCriticalIs | phone_agent/planning/executor.py:186-207 | the first critical failure is unique |
| Executor.PlanExecutor.NoFirstCritical | phone_agent/planning/executor.py:219-237 | without a critical failure there is no first one |
| Executor.PlanExecutor.ShouldUseVision | phone_agent/planning/executor.py:620-655 | "xml" never uses vision; "vision" uses it while the budget allows; vision is only chosen within the budget; the sampling modulo raises exactly when other modes reach it with interval zero |
| Executor.PlanExecutor.VisionOutcome | phone_agent/planning/executor.py:736-806 | without a model the check falls back to the UI tree; a model reply passes exactly when it says yes; an exception fails a critical checkpoint |
| Executor.PlanExecutor.CheckpointOutcome | phone_agent/planning/executor.py:573-618 | a checkpoint spends at most one vision check and only within the budget; one without an expected state passes and spends none; xml mode without xml-first spends none |
| Executor.PlanExecutor.ValidateWithVision | phone_agent/planning/executor.py:736-806 | spends exactly one vision check and returns the vision outcome |
| Executor.PlanExecutor.ExecuteCheckpoint | phone_agent/planning/executor.py:573-618 | counts the checkpoint once and returns the result and vision count that `CheckpointOutcome` gives |
| Executor.PlanExecutor.HumanConfirm | phone_agent/planning/executor.py:828-874 | options that cannot be joined for the log fail; otherwise it passes without a callback, and with one it passes exactly when the human answered |
| Executor.PlanExecutor.HumanInput | phone_agent/planning/executor.py:876-936 | fails with "未配置人工介入回调" without a callback; succeeds exactly with a callback, an answered reply holding a non-empty input and typing that went through; the message shows the input, or one asterisk per character for a password or captcha |
| StandardActions.OptInt | phone_agent/actions/standard_actions.py:25 | an absent or null field reads as None; otherwise the field is accepted exactly when lax integer coercion reads it, and then as that integer |
| StandardActions.LaxInt | phone_agent/actions/standard_actions.py:25 | lax integer coercion: an integer as it is, a boolean as 1 or 0, a string by its integer reading, and nothing for null, lists and objects |
| StandardActions.LaxIntReadsPrinted | phone_agent/actions/standard_actions.py:25 | the decimal text of any integer coerces back to that integer |
| StandardActions.LaxBool | phone_agent/actions/standard_actions.py:146 | lax boolean coercion: a boolean as it is, the integers 0 and 1, the true and false words in any case, and nothing else |
| StandardActions.LaxBoolIgnoresCase | phone_agent/actions/standard_actions.py:146 | two strings that differ only in letter case coerce alike |
| StandardActions.LaxFloat | phone_agent/actions/standard_actions.py:220 | lax float coercion: an integer as that number, a string by its stripped decimal reading, and nothing for null, lists and objects |
| StandardActions.IntWithDefault | phone_agent/actions/standard_actions.py:58-62 | an absent field takes the default; a present one is accepted exactly when lax integer coercion reads it, and then as that integer |
| StandardActions.RequiredStr | phone_agent/actions/standard_actions.py:47 | a required text field is accepted exactly when present and a string, and then as that string |
| StandardActions.OptStr | phone_agent/actions/standard_actions.py:28 | an absent or null field is None; a string is taken as it is |
| StandardActions.BoolWithDefault | phone_agent/actions/standard_actions.py:146 | an absent field takes the default; a present one is accepted exactly when lax boolean coercion reads it, and then as that boolean |
| StandardActions.IntList | phone_agent/actions/standard_actions.py:27 | a list reads exactly when every item coerces to an integer, and then has one integer per item, each the coercion of its item |
| StandardActions.OptIntList | phone_agent/actions/standard_actions.py:27 | an absent or null field is None; otherwise it reads exactly when it is a list whose items all coerce, and then as that list of integers |
| StandardActions.OptLiteral | phone_agent/actions/standard_actions.py:184-192 | a literal field reads exactly when it is absent, null or one of the allowed texts; it is Some exactly for an allowed text, and then that text |
| StandardActions.CheckTarget | phone_agent/actions/standard_actions.py:30-38 | the target is accepted exactly when the coordinates, if given, are a pair and an index or coordinates are given; a wrong-length list and a missing target fail with their own errors |
| StandardActions.TapFrom | phone_agent/actions/standard_actions.py:17-38 | a tap is built exactly when the index, coordinates and reason read and the target check passes; it carries exactly the index, coordinates and reason read; with neither index nor coordinates it fails with the missing-target error |
| StandardActions.SwipeFrom | phone_agent/actions/standard_actions.py:51-68 | a swipe is built exactly when every field reads and a direction or both end points are given; it carries the direction, start, end, reason and the duration read, 200 ms by default; without a direction and one end point missing it fails with its own error |
| StandardActions.LongPressFrom | phone_agent/actions/standard_actions.py:81-103 | a long press is built exactly when every field reads and the target check passes; it carries the index, coordinates, reason and the duration read, 1000 ms by default |
| StandardActions.DoubleTapFrom | phone_agent/actions/standard_actions.py:106-127 | a double tap is built exactly when the index, coordinates and reason read and the target check passes; it carries exactly those values |
| StandardActions.PressKeyFrom | phone_agent/actions/standard_actions.py:130-135 | a key press is built exactly when the key is back, home or recent and the reason is absent, null or text |
| StandardActions.DragFrom | phone_agent/actions/standard_actions.py:178-185 | a drag is built exactly when every field reads; it carries the start and end indices, the start and end points, the reason and the duration read, 500 ms by default |
| StandardActions.MakeWait | phone_agent/actions/standard_actions.py:216-221 | a wait is built exactly when the seconds are not negative and the reason is null or text |
| StandardActions.WaitFrom | phone_agent/actions/standard_actions.py:216-221 | a wait never has negative seconds, and without arguments it waits 3.0 seconds |
| StandardActions.Build | phone_agent/actions/standard_actions.py:250-268 | an unknown name fails with "Unknown action: " and the name; a built action is well formed and has a known name |
| StandardActions.XmlParams | phone_agent/actions/standard_actions.py:360-381 | back and home gain their key; launch's "app" becomes "app_name"; done always has a message, from "message", else "reason", else "任务完成"; every other key is kept |
| StandardActions.OnlyKey | phone_agent/actions/standard_actions.py:390-393 | a one-entry dictionary has exactly one key |
| StandardActions.ParseAction | phone_agent/actions/standard_actions.py:312-402 | a parsed action is well formed; a value that is not a dictionary fails; an "action" name outside the XML names fails with "Unknown XML Kernel action"; without "action" only one-entry dictionaries parse |
| StandardActions.XmlTypeIsInputText | phone_agent/actions/standard_actions.py:340 | {"action": "type", "text": t} is an input of t |
| StandardActions.XmlBackHomeArePressKey | phone_agent/actions/standard_actions.py:365-367 | back and home become a press of that key |
| StandardActions.XmlLaunchRenamesApp | phone_agent/actions/standard_actions.py:372-374 | launch takes its app from "app" |
| StandardActions.XmlDoneMessage | phone_agent/actions/standard_actions.py:376-381 | done without a message uses the reason, else "任务完成", and succeeds by default |
| StandardActions.XmlRefusesStandardOnlyNames | phone_agent/actions/standard_actions.py:356-357 | names only the nested shape uses, such as press_key, are refused in the flat shape |
| StandardActions.ValidateActionSequence | phone_agent/actions/standard_actions.py:418-443 | a sequence is accepted exactly when it is non-empty and a done action in it stands alone; an empty one fails with "动作列表不能为空" |
| StandardActions.HasDone | phone_agent/actions/standard_actions.py:437 | true exactly when some action is a done action |
| Util.DecimalValue | phone_agent/actions/parse.py:131 | text reads as a number exactly when it is decimal text; a leading minus negates the unsigned reading, and text without a sign is read unsigned |
| Util.Unsigned | phone_agent/actions/parse.py:131 | unsigned decimal text reads as a non-negative number, and digits alone read as the integer they denote |
| Util.Fraction | phone_agent/actions/parse.py:131 | the digits after the point denote a value in [0, 1) |
| Util.DecimalOfIntToString | phone_agent/actions/parse.py:131 | the decimal text of any integer reads back as that integer |
| Util.DecimalWithFraction | phone_agent/actions/parse.py:131 | "w.f" reads as w plus the fraction its digits denote |
| ActionParse.FirstToken | phone_agent/actions/parse.py:131 | the first word of a split on white space, None when there is none; it is non-empty and contains no white space |
| ActionParse.WaitSeconds | phone_agent/actions/parse.py:126-135 | the wait length comes from "duration", else "seconds", else 1.0; text is read from its first token and falls back to 1.0 when that fails |
| ActionParse.ParseAction | phone_agent/actions/parse.py:45-216 | a parsed action is well formed; a non-text action name fails; otherwise the result is the dispatch on the lower-cased name |
| ActionParse.ParseNamed | phone_agent/actions/parse.py:70-216 | a parsed action is well formed; a name outside the accepted spellings fails with "Unknown action: " and the name |
| ActionParse.CaseInsensitive | phone_agent/actions/parse.py:64 | two spellings of a name that agree after lower-casing parse alike |
| ActionParse.TapNeedsTarget | phone_agent/actions/parse.py:70-75 | a tap without coordinates or index is refused, whatever the case of its name |
| ActionParse.LaunchAppFallback | phone_agent/actions/parse.py:93-97 | launch and launch_app read "app" first and fall back to "app_name" |
| ActionParse.DoneDefaults | phone_agent/actions/parse.py:142-147 | done's message is "message", else "reason", else "任务完成", and success defaults to true |
| ActionParse.ParsedByModel | phone_agent/actions/parse.py:70-213 | every name but wait, back and home is built by the model class its alias selects, from the keyword arguments the parser reads; a parsed tap, swipe, long press, double tap or drag carries the given reason, and the empty text when none was given |
| ActionParse.ParsedKind | phone_agent/actions/parse.py:70-213 | a parsed action is of the kind its name aliases; back and home become key presses of that key |
| ActionParse.ParsedTargetKept | phone_agent/actions/parse.py:70-100 | a parsed tap, double tap or long press carries the index and coordinates read from the dictionary |
| ActionParse.WaitOfPrintedNumber | phone_agent/actions/parse.py:126-135 | a wait given as "<n> seconds" waits n seconds, for every n |
| ActionParse.SwipeDefault | phone_agent/actions/parse.py:84-91 | a swipe takes 300 ms by default |
| ActionParse.LongPressDefault | phone_agent/actions/parse.py:99-105 | a long press holds 3000 ms by default |
| ActionParse.DragDefault | phone_agent/actions/parse.py:153-161 | a drag takes 500 ms by default |
| ActionParse.ScrollDefault | phone_agent/actions/parse.py:163-168 | a scroll moves by 0 by default |
| ActionParse.WaitFromText | phone_agent/actions/parse.py:128-131 | a wait given as text waits the number its first word denotes, for any text whose first word reads as a non-negative decimal |
| ActionParse.WaitUnparsable | phone_agent/actions/parse.py:130-133 | a wait given as text whose first word is not decimal text, or that has no word, waits one second |
| ActionParse.NegativeWaitRefused | phone_agent/actions/parse.py:134-140 | a negative wait is refused by the model's lower bound |
| VisionFormat.OuterMatch | phone_agent/actions/vision_format.py:111-116 | only text starting with `do(` or `finish(` matches; a match names `do` or `finish` and the text is exactly `name(args)`, optionally followed by one newline |
| VisionFormat.OuterMatchComplete | phone_agent/actions/vision_format.py:111-116 | every `do(...)`/`finish(...)` call text matches, with its argument text recovered |
| VisionFormat.Captured | phone_agent/actions/vision_format.py:119-133 | a text field is present exactly when its pattern captures, and holds the captured string |
| VisionFormat.CapturedPairs | phone_agent/actions/vision_format.py:135-139 | a coordinate field is present exactly when its pattern finds two numbers, and holds `[x, y]` |
| VisionFormat.ParseWithRegex | phone_agent/actions/vision_format.py:101-142 | fails exactly when the outer pattern does not match; `_metadata` names the function; a field is present exactly when the function takes it and its pattern captures, holding the captured text or the captured pair of integers; a finish carries at most `message` |
| VisionFormat.Do | phone_agent/actions/vision_format.py:232-245 | the keyword arguments unchanged plus `_metadata` = "do" |
| VisionFormat.Finish | phone_agent/actions/vision_format.py:248-262 | the keyword arguments unchanged plus `_metadata` = "finish" |
| VisionFormat.Underscored | phone_agent/actions/vision_format.py:193-202 | same length, every space replaced by `_` and nothing else changed |
| VisionFormat.FinishToDone | phone_agent/actions/vision_format.py:184-187 | finish metadata sets `action` to "done"; otherwise the map is unchanged; no other key moves |
| VisionFormat.RenameElement | phone_agent/actions/vision_format.py:189-191 | `element` is gone afterwards, `coordinates` holds the old `element` when there was one, nothing else changes, and without `element` the dictionary is unchanged |
| VisionFormat.NormaliseName | phone_agent/actions/vision_format.py:193-202 | no action stays no action; a non-text action is refused; a text one becomes its standard name; no other key changes |
| VisionFormat.MessageToReason | phone_agent/actions/vision_format.py:205-210 | outside `done`, a `message` without a `reason` becomes the `reason`; otherwise unchanged |
| VisionFormat.ScrollFields | phone_agent/actions/vision_format.py:212-219 | non-scrolls unchanged; a scroll's `x`,`y` become `coordinates` and its direction and distance a signed `value`; only motion keys change |
| VisionFormat.KeyCodePrefix | phone_agent/actions/vision_format.py:221-225 | non-key-events unchanged; a key event with a non-text key is refused; a key with the `KEYCODE_` prefix loses it and is lower-cased, any other key is kept; only `key` changes |
| VisionFormat.NormaliseKeepsOthers | phone_agent/actions/vision_format.py:184-225 | every key outside the rewritten ones survives the conversion unchanged, and `element` never survives |
| VisionFormat.NormaliseFinishIsDone | phone_agent/actions/vision_format.py:184-187 | finish metadata always yields a successful conversion with action "done" |
| VisionFormat.NormaliseRefusesOddName | phone_agent/actions/vision_format.py:193-202 | an action name that is not text makes the conversion fail |
| VisionFormat.NormaliseStandardName | phone_agent/actions/vision_format.py:193-202 | a text action name is lower-cased with spaces as underscores, and "finish" becomes "done" |
| VisionFormat.NormaliseNoName | phone_agent/actions/vision_format.py:193-202 | without an action name the converted map has none either |
| VisionFormat.NormaliseMessage | phone_agent/actions/vision_format.py:205-210 | outside `done`, `message` becomes `reason` when no reason is given; a done action keeps its message |
| VisionFormat.NormaliseScrollCoordinates | phone_agent/actions/vision_format.py:212-215 | a scroll's `x`, `y` become its `coordinates` pair |
| VisionFormat.NormaliseScrollValue | phone_agent/actions/vision_format.py:216-219 | a scroll's value is the distance for up and right and its negation otherwise; a distance that cannot be negated is refused |
| VisionFormat.NormaliseKeyEvent | phone_agent/actions/vision_format.py:221-225 | a key event's key that starts with `KEYCODE_` loses the prefix and is lower-cased, any other text key is kept; a non-text key is refused |
| VisionFormat.Convert | phone_agent/actions/vision_format.py:145-228 | every action the conversion returns is well formed |
| VisionFormat.ConvertFinish | phone_agent/actions/vision_format.py:184-187 | `finish(message=m)` converts to a successful done action carrying `m` |
| VisionFormat.ConvertTap | phone_agent/actions/vision_format.py:189-202 | `do(action=<any tap spelling>, element=[x, y])` converts to a tap at `[x, y]` |
| ActionExecutor.Centre | phone_agent/actions/action_executor.py:705-713 | an element has a centre exactly when it has bounds or a centre of its own |
| ActionExecutor.KeyCodeFor | phone_agent/actions/action_executor.py:611-621 | a mapped key name becomes a `KEYCODE_` code; any other key is sent unchanged |
| ActionExecutor.Executor.constructor | phone_agent/actions/action_executor.py:78-103 | screen size, elements, task and callbacks as given; no device call made and no task record yet |
| ActionExecutor.Executor.IndexPoint | phone_agent/actions/action_executor.py:186-201 | an index resolves exactly when it is in range and its element has geometry, and then to that element's centre |
| ActionExecutor.Executor.ExecuteTap | phone_agent/actions/action_executor.py:169-252 | reply and device calls are those of the tap run with the corrected index lookup (a negative index is refused): one tap at the given point or at the element's centre, or a failure with no call; records and to-dos unchanged |
| ActionExecutor.Executor.ExecuteInputText | phone_agent/actions/action_executor.py:254-308 | reply and device calls are those of the input run with the corrected index lookup: an optional focus tap, whose failure ends the action with "Failed to focus input field", then the typing; records and to-dos unchanged |
| ActionExecutor.Executor.ExecuteSwipe | phone_agent/actions/action_executor.py:310-371 | reply and device calls are those of the swipe run; records and to-dos unchanged |
| ActionExecutor.Executor.ExecuteLaunchApp | phone_agent/actions/action_executor.py:373-393 | reply and device calls are those of the launch run; records and to-dos unchanged |
| ActionExecutor.Executor.ExecuteLongPress | phone_agent/actions/action_executor.py:395-450 | reply and device calls are those of the corrected long-press run (the duration reaches the device, a negative index is refused); records and to-dos unchanged |
| ActionExecutor.Executor.ExecuteDoubleTap | phone_agent/actions/action_executor.py:452-506 | reply and device calls are those of the double-tap run with the corrected index lookup (a negative index is refused); records and to-dos unchanged |
| ActionExecutor.Executor.ExecutePressKey | phone_agent/actions/action_executor.py:508-542 | reply and device calls are those of the press-key run; records and to-dos unchanged |
| ActionExecutor.Executor.ExecuteDrag | phone_agent/actions/action_executor.py:559-588 | reply and device calls are those of the corrected drag run (the duration reaches the device, negative indices are refused); records and to-dos unchanged |
| ActionExecutor.Executor.ExecuteScroll | phone_agent/actions/action_executor.py:590-605 | reply and device calls are those of the corrected scroll run (the swipe's duration reaches the device); records and to-dos unchanged |
| ActionExecutor.Executor.ExecuteKeyEvent | phone_agent/actions/action_executor.py:607-627 | reply and device calls are those of the corrected key-event run (the mapped key code is sent); records and to-dos unchanged |
| ActionExecutor.Executor.ExecuteRecordContent | phone_agent/actions/action_executor.py:650-680 | always succeeds with no device call; the record is appended to the task only when there is a task and no callback |
| ActionExecutor.Executor.ExecuteUpdateTodos | phone_agent/actions/action_executor.py:682-703 | always succeeds with no device call; the task's to-dos are replaced only when there is a task and no callback |
| ActionExecutor.Executor.ExecuteReadClipboard | phone_agent/actions/action_executor.py:769-817 | one clipboard read is sent and the reply reflects what the device answered |
| ActionExecutor.Executor.ExecuteWriteClipboard | phone_agent/actions/action_executor.py:819-863 | one clipboard write of the text is sent and the reply reflects what the device answered |
| ActionExecutor.Executor.Execute | phone_agent/actions/action_executor.py:105-167 | reply, device calls, appended record and to-do replacement are exactly those the action's run prescribes |
| ActionExecutor.Executor.Run | phone_agent/actions/action_executor.py:105-167 | an action that does not touch the device sends nothing, and only recording and to-do actions change the task |
| ActionExecutor.Executor.DirectionToCoordinates | phone_agent/actions/action_executor.py:715-767 | defined exactly for up, down, left and right; a vertical swipe stays on the centre column and moves up exactly for "up", a horizontal one stays on the centre row and moves left exactly for "left"; every point is on the screen |
| ActionExecutor.Executor.ExecuteOnDevice | phone_agent/actions/action_executor.py:116-147 | the device-driving branches: reply and calls of the run, task untouched |
| ActionExecutor.Executor.ExecuteOffDevice | phone_agent/actions/action_executor.py:136-154 | the answering branches: no device call, and the task effect of the run |
| ActionExecutor.Executor.NoTargetFails | phone_agent/actions/action_executor.py:204-208 | a tap, long press or double tap with neither coordinates nor index fails with no device call |
| ActionExecutor.Executor.IndexTap | phone_agent/actions/action_executor.py:186-252 | with the corrected index lookup, an index tap on an element with geometry sends one tap at its centre and succeeds unless the device raises; an index outside the list, negative ones included, or an element without geometry fails with no call |
| ActionExecutor.Executor.CoordinateTap | phone_agent/actions/action_executor.py:179-183 | a coordinate tap sends one tap at the normalised point scaled to the screen |
| ActionExecutor.Executor.InputNeedsFocus | phone_agent/actions/action_executor.py:262-270 | with the corrected index lookup, text input into an element outside the list, negative indices included, fails with "Failed to focus input field" and no device call |
| ActionExecutor.Executor.DirectionsReverse | phone_agent/actions/action_executor.py:715-767 | up and down (left and right) swipes are each other's reverse, an upward swipe moves up the screen, and other directions are refused |
| ActionExecutor.Executor.PressKeyOnlyKnown | phone_agent/actions/action_executor.py:508-542 | an unknown key fails with "Unknown key" and no call; back, home and recent send one call and succeed unless it raises |
| ActionExecutor.Executor.Finishing | phone_agent/actions/action_executor.py:629-638 | done reports its own success flag; answer always reports success; neither touches device or task |
| ActionExecutor.Executor.RecordKept | phone_agent/actions/action_executor.py:650-680 | with a task and no callback, the content is appended with its category, "general" when none is given |
| ActionExecutor.Executor.NegativeIndexAsWritten | phone_agent/actions/action_executor.py:187-189 | as written a negative index selects an element from the end, where the corrected lookup refuses it |
| ActionExecutor.Executor.LongPressAsWrittenFails | phone_agent/actions/action_executor.py:438 | as written a long press never succeeds and never reaches the device |
| ActionExecutor.Executor.LongPressReachesDevice | phone_agent/actions/action_executor.py:395-450 | corrected, a long press at a valid target sends one press of the requested duration, succeeding unless it raises |
| ActionExecutor.Executor.DragAsWrittenFails | phone_agent/actions/action_executor.py:576-584 | as written a drag never succeeds and never reaches the device |
| ActionExecutor.Executor.DragReachesDevice | phone_agent/actions/action_executor.py:559-588 | corrected, a drag between valid points sends one swipe of the requested duration, succeeding unless it raises |
| ActionExecutor.Executor.ScrollAsWrittenFails | phone_agent/actions/action_executor.py:590-605 | as written a scroll never succeeds and never reaches the device |
| ActionExecutor.Executor.ScrollReachesDevice | phone_agent/actions/action_executor.py:590-605 | corrected, a scroll at a two-coordinate position sends one 300 ms vertical swipe from that point, upwards for a positive value and downwards for a negative one, ending on the screen, and succeeds unless the device raises |
| ActionExecutor.Executor.KeyEventAsWrittenFails | phone_agent/actions/action_executor.py:609-623 | as written a key event never succeeds and never reaches the device |
| ActionExecutor.Executor.KeyEventSendsCode | phone_agent/actions/action_executor.py:607-627 | corrected, a key event sends the mapped key code, succeeding unless the call raises |
| ActionExecutor.PixelBounds | phone_agent/actions/action_executor.py:181-182 | a normalised coordinate in 0..1000 lands on the screen, with 0 and 1000 on its edges |
| ActionExecutor.CentreInside | phone_agent/actions/action_executor.py:705-709 | the centre of a well-formed bounds box lies inside it |
| ActionExecutor.ScrollOnScreen | phone_agent/actions/action_executor.py:596-602 | a scroll ends on the screen, moves up for positive values and down otherwise, by at most the value times 100 pixels |
| XmlParserV3.Box.Center | phone_agent/adb/xml_parser_v3.py:38-39 | the floor-divided midpoint, which lies inside a proper box |
| XmlParserV3.Box.Area | phone_agent/adb/xml_parser_v3.py:42-43 | a proper box has positive area, at least its width and at least its height |
| XmlParserV3.Box.ToList | phone_agent/adb/xml_parser_v3.py:45-46 | four numbers from which the box is rebuilt exactly |
| XmlParserV3.Intersection | phone_agent/adb/xml_parser_v3.py:127-136 | the overlap is never negative, is 0 for boxes that are apart, and is at most the area of either proper box |
| XmlParserV3.DuplicatesSymmetric | phone_agent/adb/xml_parser_v3.py:117-145 | overlap and the IoU duplicate test do not depend on argument order |
| XmlParserV3.EnclosesAsymmetric | phone_agent/adb/xml_parser_v3.py:254-257 | two proper boxes never enclose each other and no proper box encloses itself |
| XmlParserV3.SelfIntersection | phone_agent/adb/xml_parser_v3.py:117-145 | a proper box overlaps itself by its whole area and is its own duplicate |
| XmlParserV3.ApartNeverRelated | phone_agent/adb/xml_parser_v3.py:254-257 | boxes that are apart are never duplicates and never enclose each other |
| XmlParserV3.ParseBounds | phone_agent/adb/xml_parser_v3.py:148-160 | a parsed box is proper and came from exactly four comma-separated parts |
| XmlParserV3.ParseBoundsText | phone_agent/adb/xml_parser_v3.py:148-160 | round trip: the printed `[x1,y1][x2,y2]` of a box parses back to it exactly when it is non-empty, and to nothing otherwise |
| XmlParserV3.ParseBoundsEmpty | phone_agent/adb/xml_parser_v3.py:148-160 | missing or empty bounds give no box |
| XmlParserV3.Node.DisplayText | phone_agent/adb/xml_parser_v3.py:81-83 | the text when there is one, else the content description; empty exactly when both are |
| XmlParserV3.FromAttributes | phone_agent/adb/xml_parser_v3.py:179-204 | the node keeps the given children, has no highlight index yet, and any box it has is proper |
| XmlParserV3.AttributeDefaults | phone_agent/adb/xml_parser_v3.py:179-204 | an element without attributes becomes an enabled, non-interactive, text-less node without a box |
| XmlParserV3.HasParentInteractive | phone_agent/adb/xml_parser_v3.py:86-93 | true exactly when some ancestor on the parent chain is interactive |
| XmlParserV3.ChildTexts | phone_agent/adb/xml_parser_v3.py:95-114 | only non-empty child texts are collected, at most one per child |
| XmlParserV3.InteractiveChildrenSilent | phone_agent/adb/xml_parser_v3.py:104-112 | interactive children contribute no text |
| XmlParserV3.AllTextOwnOnly | phone_agent/adb/xml_parser_v3.py:95-114 | with only interactive children a node's collected text is its own display text |
| XmlParserV3.PreOrder | phone_agent/adb/xml_parser_v3.py:219-228 | the listing starts with the node itself and its parent chain |
| XmlParserV3.Select | phone_agent/adb/xml_parser_v3.py:219-228 | only nodes the collection rule accepts are kept, at most one per listing entry |
| XmlParserV3.SelectAppend | phone_agent/adb/xml_parser_v3.py:219-228 | selection distributes over concatenated listings |
| XmlParserV3.CollectFrom | phone_agent/adb/xml_parser_v3.py:219-228 | the recursive traversal equals selection over the pre-order listing of the subtree |
| XmlParserV3.CollectChildren | phone_agent/adb/xml_parser_v3.py:226-228 | traversing the children equals selection over their concatenated listings |
| XmlParserV3.CollectInteractiveNodes | phone_agent/adb/xml_parser_v3.py:209-231 | the collected nodes are the pre-order nodes the rule accepts; each is boxed, and interactive or a text node without an interactive ancestor |
| XmlParserV3.RootFirst | phone_agent/adb/xml_parser_v3.py:219-224 | the root is collected first exactly when it is boxed and interactive or has text |
| XmlParserV3.EnclosedCount | phone_agent/adb/xml_parser_v3.py:244-257 | a node encloses at most as many nodes as were examined |
| XmlParserV3.Survivors | phone_agent/adb/xml_parser_v3.py:263 | filtering never adds nodes |
| XmlParserV3.SurvivorPositions | phone_agent/adb/xml_parser_v3.py:260-263 | survivor positions are increasing, none is a container and every non-container is among them |
| XmlParserV3.SurvivorsInOrder | phone_agent/adb/xml_parser_v3.py:263 | the p-th survivor is the node at the p-th surviving position, so order is kept |
| XmlParserV3.RemovedAreContainers | phone_agent/adb/xml_parser_v3.py:244-263 | a removed node is boxed, has no text and encloses more than two others |
| XmlParserV3.FilterContainerNodes | phone_agent/adb/xml_parser_v3.py:234-263 | the loop returns exactly the survivors of the container rule |
| XmlParserV3.InsertByKey | phone_agent/adb/xml_parser_v3.py:275-278 | inserting into a listing sorted by centre keeps it sorted and adds exactly the node |
| XmlParserV3.SortByKey | phone_agent/adb/xml_parser_v3.py:275-278 | the result is sorted by centre (y, x) and a permutation of the input |
| XmlParserV3.Deduplicate | phone_agent/adb/xml_parser_v3.py:280-298 | every kept node is boxed and comes from the input |
| XmlParserV3.DeduplicatePairwise | phone_agent/adb/xml_parser_v3.py:280-298 | no kept node duplicates one kept before it |
| XmlParserV3.DeduplicateComplete | phone_agent/adb/xml_parser_v3.py:280-298 | every boxed input node is kept or duplicates a kept node |
| XmlParserV3.DeduplicateSorted | phone_agent/adb/xml_parser_v3.py:280-298 | the pass keeps the order of a sorted listing |
| XmlParserV3.IsDuplicate | phone_agent/adb/xml_parser_v3.py:285-293 | true exactly when the box has IoU above 0.7 with some kept boxed node |
| XmlParserV3.RemoveOverlappingNodes | phone_agent/adb/xml_parser_v3.py:266-298 | the loop computes the overlap pass over the centre-sorted input |
| XmlParserV3.OverlapRemovalSpec | phone_agent/adb/xml_parser_v3.py:266-298 | kept nodes are boxed and from the input, ordered by centre, pairwise not duplicates, and every dropped boxed node duplicates a kept one |
| XmlParserV3.WithIndex | phone_agent/adb/xml_parser_v3.py:314-316 | the node carries the given highlight index and keeps its box |
| XmlParserV3.AssignHighlightIndices | phone_agent/adb/xml_parser_v3.py:301-318 | keys are exactly 1..n, key k holds the k-th node in centre order carrying k, and keys follow the centre order |
| XmlParserV3.NumberingKeys | phone_agent/adb/xml_parser_v3.py:313-316 | numbering n nodes uses exactly the keys 1..n |
| XmlParserV3.NumberingValues | phone_agent/adb/xml_parser_v3.py:313-316 | key k holds the k-th node marked with k |
| XmlParserV3.NumberingAt | phone_agent/adb/xml_parser_v3.py:313-316 | key k holds the k-th node marked with k |
| XmlParserV3.Number | phone_agent/adb/xml_parser_v3.py:313-316 | the loop numbers the whole listing from 1, one key per node |
| XmlParserV3.NumberingComplete | phone_agent/adb/xml_parser_v3.py:313-316 | the whole numbering numbers the listing from 1 |
| XmlParserV3.NumberingOrdered | phone_agent/adb/xml_parser_v3.py:301-318 | numbering a sorted listing marks each node with its key and follows centre order |
| XmlParserV3.ParseUi | phone_agent/adb/xml_parser_v3.py:321-351 | no tree gives an empty map; otherwise the map numbers, from 1 in centre order, exactly the listed nodes; every entry is boxed and carries its key; no two entries are duplicates |
| XmlParserV3.Listed | phone_agent/adb/xml_parser_v3.py:321-351 | the listed nodes are in centre order, boxed, non-duplicate, taken from the collected non-container nodes, and every boxed non-container node is listed or clashes with a listed one |
| XmlParserV3.SortedIsFixed | phone_agent/adb/xml_parser_v3.py:275-278 | sorting an already sorted listing leaves it unchanged, so the second sort keeps the first's order |
| XmlParserV3.InsertAbove | phone_agent/adb/xml_parser_v3.py:275-278 | a node whose key is at least every key goes last |
| XmlTree.ActionOf | phone_agent/adb/xml_tree.py:57 | "tap" exactly for clickable elements, "input" exactly for focusable non-clickable ones, "read" for the rest |
| XmlTree.ToDict | phone_agent/adb/xml_tree.py:46-58 | exactly the nine keys, with id, text and centre taken from the element and the invited action |
| XmlTree.AfterLast | phone_agent/adb/xml_parser_v3.py:410-411 | the suffix after the last separator: contains no separator, is the whole text when there is none, and is preceded by one otherwise |
| XmlTree.ElementOf | phone_agent/adb/xml_parser_v3.py:405-419 | nodes without a box are skipped; otherwise the id loses its package prefix, the text is the display text, the centre is the box centre, the flags are carried and a missing class reads "Unknown" |
| XmlTree.ConvertSelectorMap | phone_agent/adb/xml_parser_v3.py:402-421 | the loop returns the converted boxed nodes in order, never more elements than nodes |
| XmlTree.Converted | phone_agent/adb/xml_parser_v3.py:402-421 | conversion never yields more elements than nodes |
| XmlTree.ConvertedKeepsAll | phone_agent/adb/xml_parser_v3.py:402-421 | when every node has a box, element i is the conversion of node i and none is skipped |
| XmlTree.Priority | phone_agent/adb/xml_tree.py:144-150 | at most 3; at least 2 exactly when the element has text; odd exactly when it has a resource id |
| XmlTree.OfPriority | phone_agent/adb/xml_tree.py:152 | only elements of the given priority, drawn from the input |
| XmlTree.OfPriorityAppend | phone_agent/adb/xml_tree.py:152 | filtering by priority distributes over concatenation |
| XmlTree.OfPriorityTwice | phone_agent/adb/xml_tree.py:152 | filtering a priority class again by its own priority keeps it, by another empties it |
| XmlTree.RankedPermutes | phone_agent/adb/xml_tree.py:152 | the ranking is a permutation of its input |
| XmlTree.RankedDescending | phone_agent/adb/xml_tree.py:152 | higher priorities come first |
| XmlTree.RankedStable | phone_agent/adb/xml_tree.py:152 | elements of equal priority keep their relative order, as Python's stable sort does |
| XmlTree.Head | phone_agent/adb/xml_tree.py:153 | a prefix of the ranking: `n` long (at most the whole) for `n >= 0`, and `n` short of the whole for negative `n` |
| XmlTree.ItemFields | phone_agent/adb/xml_tree.py:162-172 | an item has an `id` exactly when the element has a resource id, always the six other keys, and the invited action |
| XmlTree.CentreNormalized | phone_agent/adb/xml_tree.py:158-160 | a centre on the screen normalises into 0..1000, truncating the exact ratio |
| XmlTree.FormatElements | phone_agent/adb/xml_tree.py:124-174 | fails exactly when an element is listed and a screen dimension is 0; otherwise item i is the item of the i-th top-ranked element within the budget |
| XmlTree.FormatKeepsTop | phone_agent/adb/xml_tree.py:152-153 | with a non-negative budget, min(budget, n) elements are listed and no unlisted element has a higher priority than a listed one |
| XmlAgent.Pixel | phone_agent/kernel/xml_agent.py:142-143 | a coordinate converts exactly when it is a number; above 1000 it is kept, and 0..1000 lands on the screen |
| XmlAgent.PixelPoint | phone_agent/kernel/xml_agent.py:140-145 | a two-element list converts exactly when both parts are numbers, component by component |
| XmlAgent.Rewrite | phone_agent/kernel/xml_agent.py:138-160 | a field is rewritten only when it is a pair: the pixel pair replaces it and the original is saved under its `_normalized` key; nothing else changes; a non-numeric pair raises |
| XmlAgent.NormalizeForLogKeeps | phone_agent/kernel/xml_agent.py:116-163 | the log copy keeps every entry of the decision, changes only the coordinate fields and adds only their `_normalized` keys |
| XmlAgent.NormalizeForLogCoordinates | phone_agent/kernel/xml_agent.py:138-146 | a coordinate pair is logged in pixels, with the original kept under `coordinates_normalized` |
| XmlAgent.NormalizeForLogEnds | phone_agent/kernel/xml_agent.py:148-161 | `start` and `end` are rewritten, each with its original saved, only when both are present |
| XmlAgent.LoggedPointOnScreen | phone_agent/kernel/xml_agent.py:142-143 | a normalised point on the screen is logged as a pixel point on the screen |
| XmlAgent.PyTail | phone_agent/kernel/xml_agent.py:464 | Python's `s[-m:]`: the last m elements for positive m, and for m <= 0 all but the first -m |
| XmlAgent.CompressAsWrittenGrows | phone_agent/kernel/xml_agent.py:452-474 | as written, one turn of context keeps the whole history via `[-0:]`, so the trimmed context grows by three |
| XmlAgent.Compress | phone_agent/kernel/xml_agent.py:452-474 | trimming always keeps the system prompt first and leaves a context within the limit untouched |
| XmlAgent.CompressKeepsWindow | phone_agent/kernel/xml_agent.py:452-474 | past the limit the context is exactly 2N+1 messages: system prompt, first exchange and the latest 2N-2 |
| XmlAgent.CompressMatchesAsWritten | phone_agent/kernel/xml_agent.py:464 | from two turns up the corrected trimming equals the written one |
| XmlAgent.WaitDecision | phone_agent/kernel/xml_agent.py:610-613 | a "wait" decision carrying the reason |
| XmlAgent.ValidateDecision | phone_agent/kernel/xml_agent.py:560-590 | accepted exactly when the reply is a dict with "action" or a list whose first element is such a dict, which is then the decision; other lists and non-dicts get their own wait reasons |
| XmlAgent.ExecutionReport | phone_agent/kernel/xml_agent.py:661-664 | the result gains only an "error" entry, present exactly when it already was or the result reports failure |
| XmlAgent.XmlKernelAgent.constructor | phone_agent/kernel/xml_agent.py:91-114 | the limits and prompt as given, an empty context and all counters and token totals at zero |
| XmlAgent.XmlKernelAgent.GetLlmDecision | phone_agent/kernel/xml_agent.py:432-613 | the context is trimmed then extended by the user message and any accepted reply; the decision always has an action, is the validated reply when accepted and a wait otherwise; the empty-reply counter counts empty replies and resets on parsed ones |
| XmlAgent.XmlKernelAgent.Step | phone_agent/kernel/xml_agent.py:190-404 | sets the step count; no UI stops the run, an empty UI counts and stops at two, and both leave context, tokens and decision as they were; otherwise the empty count resets, the context is trimmed and extended by the user message and any accepted reply, the decision is the validated reply or a wait, the token totals grow by the reply's usage, and the step concludes by its rules; the system prompt stays first |
| XmlAgent.XmlKernelAgent.Think | phone_agent/kernel/xml_agent.py:255-269 | the decision, new context and token totals of a step with UI elements, as the model reply and its usage give them |
| XmlAgent.NormalizeActionForLog | phone_agent/kernel/xml_agent.py:116-163 | the conversion fails only when an action carries a coordinate pair under "coordinates", or "start" and "end" with a pair among them |
| XmlAgent.XmlKernelAgent.AddUsage | phone_agent/kernel/xml_agent.py:265-269 | reported usage is added to each token total and remembered as the last step's; no usage changes nothing |
| XmlAgent.XmlKernelAgent.Conclude | phone_agent/kernel/xml_agent.py:276-404 | a raising log conversion, or an action result without a "success" key (whose `result["success"]` raises a KeyError), counts an exception (five stop the run), a failed action counts a failure (three stop it), and a successful "done" completes it with the token totals |
| XmlAgent.OutcomeOf | phone_agent/kernel/xml_agent.py:300-310 | an action executor reply has no "success" key exactly when it is the ask_user question, and reads as success exactly when the executor reports success |
| XmlAgent.XmlKernelAgent.Run | phone_agent/kernel/xml_agent.py:165-418 | the context starts with the system prompt; between 1 and max steps are taken; running out of steps reports max_steps_reached after exactly max steps, with fallback advised; completion reports the token totals |
| XmlAgent.XmlKernelAgent.Reset | phone_agent/kernel/xml_agent.py:711-719 | the context, step count and token totals are cleared |
| ResponseParser.Str | phone_agent/model/response_parser.py:242 | `str()` leaves a string as it is |
| ResponseParser.Between | phone_agent/model/response_parser.py:108-143 | the lazy group between two tags: none without the opening tag, and the group never contains the closing tag |
| ResponseParser.BetweenWrapped | phone_agent/model/response_parser.py:108-143 | a group written between its tags is found exactly |
| ResponseParser.RemoveComments | phone_agent/model/response_parser.py:286 | removing `//` comments never lengthens the text and leaves text without `/` alone |
| ResponseParser.NoCommentLeft | phone_agent/model/response_parser.py:286 | no `//` survives comment removal |
| ResponseParser.Uncomment | phone_agent/model/response_parser.py:286 | the cleaned action has no `//` and no surrounding whitespace |
| ResponseParser.XmlThinking | phone_agent/model/response_parser.py:107-124 | the reasoning, from the tags or from the fallbacks for a missing closing tag, is stripped |
| ResponseParser.XmlPayload | phone_agent/model/response_parser.py:129-155 | there is a payload unless the reply has no `<tool_call>`, no `</thinking>` and no `{`; it is stripped |
| ResponseParser.RenameFinish | phone_agent/model/response_parser.py:172-174 | defined exactly for a string action; `finish` in any case becomes `done`, everything else unchanged |
| ResponseParser.XmlDecoded | phone_agent/model/response_parser.py:157-176 | only a dict with "action" is accepted; the reasoning is kept and a raw-text action is the payload |
| ResponseParser.XmlRepair | phone_agent/model/response_parser.py:178-202 | a repaired reply keeps the reasoning; a raw-text action is the payload and starts with `do(` |
| ResponseParser.XmlJson | phone_agent/model/response_parser.py:89-210 | none without `<thinking>`; an accepted reply always carries a well-named action |
| ResponseParser.XmlParsePayload | phone_agent/model/response_parser.py:157-202 | decoding with its repairs always gives a well-named action when it gives one |
| ResponseParser.ParenthesisKeepsRaw | phone_agent/model/response_parser.py:166-169 | an action name holding a parenthesis is handed back as the raw payload |
| ResponseParser.MissingBraceRepaired | phone_agent/model/response_parser.py:182-193 | a payload cut off before its closing brace is read with the brace added, `finish` renamed |
| ResponseParser.XmlReplyParsed | phone_agent/model/response_parser.py:89-210 | a well-formed tagged reply gives back its stripped reasoning and its decoded action |
| ResponseParser.PlainNameDecoded | phone_agent/model/response_parser.py:163-176 | a string action name without parentheses is kept, apart from `finish` becoming `done` |
| ResponseParser.AutoGlm | phone_agent/model/response_parser.py:213-226 | recognised exactly when the reply has `<answer>`; reasoning and command are stripped text |
| ResponseParser.AutoGlmReplyParsed | phone_agent/model/response_parser.py:213-226 | a well-formed AutoGLM reply gives back its stripped reasoning and command |
| ResponseParser.JsonFormat | phone_agent/model/response_parser.py:229-264 | none unless the stripped reply starts with `{` and mentions "think" and "action"; an accepted reply always carries an action |
| ResponseParser.JsonDecoded | phone_agent/model/response_parser.py:239-247 | accepted exactly for an object with "think" and "action" |
| ResponseParser.JsonFormatText | phone_agent/model/response_parser.py:239-247 | a decoded reply with string fields hands both back unchanged |
| ResponseParser.JsonFormatDict | phone_agent/model/response_parser.py:243-245 | an object action is handed back as a dictionary |
| ResponseParser.CallEnd | phone_agent/model/response_parser.py:283 | a call found at a position starts with `do(` or `finish(` and ends at a `)` |
| ResponseParser.FirstCall | phone_agent/model/response_parser.py:283 | the leftmost call found starts with `do(` or `finish(` and ends with `)` |
| ResponseParser.FirstLine | phone_agent/model/response_parser.py:284 | the first line holds no line break |
| ResponseParser.GlmThinking | phone_agent/model/response_parser.py:267-290 | none without both `{think}` and `{action}`; the action is stripped text without comments |
| ResponseParser.GlmThinkingReplyParsed | phone_agent/model/response_parser.py:267-290 | a GLM-Thinking reply with one `do(...)` command gives back its reasoning and that command |
| ResponseParser.GlmThinkingOfParts | phone_agent/model/response_parser.py:277-287 | the reply is read from its think group and the first call of its action section |
| ResponseParser.BoxThinking | phone_agent/model/response_parser.py:302-303 | the think group, stripped |
| ResponseParser.BoxAction | phone_agent/model/response_parser.py:305-320 | the action from the box markers, the `{action}` section or the text after the think braces, stripped |
| ResponseParser.GlmBoxAsWritten | phone_agent/model/response_parser.py:293-324 | as written, any reply with a think marker is accepted, even when no action is found |
| ResponseParser.GlmBox | phone_agent/model/response_parser.py:293-324 | accepted exactly with a think marker and a non-empty action, which it carries stripped; agrees with the written version there |
| ResponseParser.KeepLast | phone_agent/model/response_parser.py:353-354 | the last min(n, length) characters |
| ResponseParser.CleanThinking | phone_agent/model/response_parser.py:348-351 | the reasoning without the four tags, stripped |
| ResponseParser.Fallback | phone_agent/model/response_parser.py:327-357 | none exactly when no command is found; otherwise the last command, stripped, with at most 500 characters of reasoning |
| ResponseParser.Reasoning | phone_agent/model/response_parser.py:344-354 | at most 500 characters |
| ResponseParser.FallbackThinking | phone_agent/model/response_parser.py:344-354 | the reasoning is the cleaned text before the last occurrence of the command |
| ResponseParser.Parse | phone_agent/model/response_parser.py:32-86 | the formats are tried in order and the result always carries an action |
| ResponseParser.GlmBoxLosesCommand | phone_agent/model/response_parser.py:324 | as written, `{think>do(1)}` is accepted with the command as reasoning and no action; corrected, the box format declines it |
| ResponseParser.BracedCommandRecovered | phone_agent/model/response_parser.py:32-86 | with the correction, the command in the think braces is recovered by the fallback |
| ResponseParser.BracedCommandOtherFormats | phone_agent/model/response_parser.py:55-73 | the formats tried before the box format do not recognise `{think>do(1)}` |
| ResponseParser.BracedCommandFallback | phone_agent/model/response_parser.py:327-357 | the fallback finds `do(1)` and keeps the text before it |
| Device.PrefixedDigitsSerial | phone_agent/adb/device.py:517-519 | a serial-character prefix followed by digits is a serial number |
| Device.RedundantForms | phone_agent/adb/device.py:513-520 | `emulator-N` and `device_N` are already serial numbers, so an id is accepted exactly when it is a localhost, IPv4 or serial form |
| Device.Ipv4Chars | phone_agent/adb/device.py:516 | every character of an IPv4 form is a digit, a dot or the colon |
| Device.ValidIdCharacters | phone_agent/adb/device.py:495-522 | an accepted id consists only of letters, digits, `_`, `-`, `:` and `.`, so it cannot smuggle shell syntax |
| Device.TrailingLineBreakAccepted | phone_agent/adb/device.py:513-522 | as written, `$` lets "ABCD1234\n" through, which the whole-string check refuses |
| Device.AdbPrefix | phone_agent/adb/device.py:480-492 | refused exactly for a non-empty invalid id, with its message; a non-empty valid id gives `adb -s id`, no or an empty id gives `adb` |
| Device.PrefixArgumentsPlain | phone_agent/adb/device.py:480-492 | every argument of a returned prefix is made of id characters |
| Device.DurationForDistance | phone_agent/adb/device.py:226-230 | the default duration is squared distance / 1000, truncated and clamped to [1000, 2000] ms, with the clamp points exact |
| Device.SwipeDuration | phone_agent/adb/device.py:226-230 | a given duration is used as is; otherwise the default lies within [1000, 2000] ms |
| Device.DurationMonotone | phone_agent/adb/device.py:228-230 | a longer swipe never gets a shorter default duration |
| Device.SwipeDurationSymmetric | phone_agent/adb/device.py:228-230 | swiping back the same way takes as long |
| Device.ConfigPackage | phone_agent/adb/device.py:360-378 | the package of the first configuration entry naming the app by display name, English name or alias; none when no entry names it |
| Device.ResolvePackage | phone_agent/adb/device.py:352-395 | the configured package when there is a non-empty one, else the built-in table's; none exactly when both are missing or empty; never an empty name |
| Device.UnconfiguredUsesTable | phone_agent/adb/device.py:383-387 | an app no entry names is looked up in the built-in table |
| Device.LaunchApp | phone_agent/adb/device.py:322-477 | launched exactly when a package is found and `am start` or the monkey fallback started it |
| Device.AppInLine | phone_agent/adb/device.py:41-43 | an app is named exactly when a known package occurs in the line, and the one named is the first such app in table order |
| Device.AppInLines | phone_agent/adb/device.py:40-43 | an app is found exactly when some focus line holds a known package; with `FirstFocusLine` it is the app of the first such line |
| Device.FirstFocusLine | phone_agent/adb/device.py:39-43 | the app reported is the one the first focus line naming a known package gives, and no earlier line is such a focus line |
| Device.CurrentApp | phone_agent/adb/device.py:18-45 | the desktop when no focus line holds a known package; otherwise the app `AppInLines` finds, that is the first table app of the first focus line naming one |
| Yadb.BuildAdbCmd | phone_agent/adb/yadb.py:85-109 | a serial containing ':' is used as is; otherwise a non-empty host and non-zero port give `-s host:port`; otherwise a non-empty serial is the third argument; with none of them the command is bare `adb` |
| Yadb.BuildAgreesWithDevice | phone_agent/adb/yadb.py:85-109 | for every serial the device module accepts, the yadb prefix is the device module's prefix; the yadb builder also passes serials the device module refuses (`a b`) |
| Yadb.CacheKey | phone_agent/adb/yadb.py:133-134 | the cache key is the serial when one is given, and otherwise `str(host) + ":" + str(port)`, with "None" for a missing part |
| Yadb.Installed | phone_agent/adb/yadb.py:136-168 | a live cache entry answers; otherwise the answer is whether the `test -f` run printed OK, and a failed run answers no |
| Yadb.CacheAfter | phone_agent/adb/yadb.py:155-161 | only the key's entries change, and only on a cache miss with caching on and a probe that ran; then the answer and `now + 60` are recorded |
| Yadb.CachedAnswerReused | phone_agent/adb/yadb.py:136-161 | an answer recorded at `now` is returned unchanged by any call before `now + 60`, whatever a new probe would say |
| Yadb.CheckPng | phone_agent/adb/yadb.py:522-532 | the data is accepted exactly when it has at least 100 bytes and starts with the PNG signature, and is then returned unchanged |
| Yadb.ShotData | phone_agent/adb/yadb.py:443-532 | an image is produced exactly when the screenshot command exited 0, the `ls` check found the file, the read exited 0 and the data passed the PNG check, and it is then the data read |
| Yadb.FirstShot | phone_agent/adb/yadb.py:403-564 | the first attempt yields an image exactly when yadb is reported installed and the device-side steps yield one |
| Yadb.RetryShot | phone_agent/adb/yadb.py:361-381 | a retry yields an image exactly when the connection check passes, a fresh probe finds yadb and the device-side steps yield one |
| Yadb.EscapedHead | phone_agent/adb/yadb.py:292 | the escaped text of a non-empty text never starts with a bare space |
| Yadb.EscapeRoundTrip | phone_agent/adb/yadb.py:292 | for a text of characters the shell takes literally (no backslash, quote, tab or shell metacharacter), the shell reads the escaped text as exactly that one word (no word for the empty text) |
| Yadb.EscapedPlainRead | phone_agent/adb/yadb.py:292 | reading the escaped form of such a text continues the current word with exactly that text |
| Yadb.BackslashSpaceSplits | phone_agent/adb/yadb.py:292 | the escaped form of `a\ b` is read by the shell as the two words `a\` and `b` |
| Yadb.SemicolonInterpreted | phone_agent/adb/yadb.py:292 | the shell does not read `a;b` as a plain word |
| Yadb.ApostropheUnclosed | phone_agent/adb/yadb.py:292 | the shell does not read `it's` as a plain word: the quote is never closed |
| Yadb.InterpretedCharactersPassUnescaped | phone_agent/adb/yadb.py:292 | escaping only spaces leaves `a;b` and `it's` for the shell to interpret |
| Yadb.ShellQuote | phone_agent/adb/yadb.py:292 | the quoted form of any text is read by the shell as exactly that one word |
| Yadb.QuotedRead | phone_agent/adb/yadb.py:292 | reading the quoted characters of a text continues the current word with exactly that text |
| Yadb.EscapedSpacesFollowBackslash | phone_agent/adb/yadb.py:292 | every space of the escaped text is preceded by a backslash |
| Yadb.TypeCommand | phone_agent/adb/yadb.py:294-303 | the `-keyboard` command keeps the prefix and adds seven arguments; for a non-empty text the shell takes literally, its last argument is read as exactly that text |
| Yadb.YadbCache.constructor | phone_agent/adb/yadb.py:118-168 | both module caches start empty |
| Yadb.YadbCache.IsYadbInstalled | phone_agent/adb/yadb.py:118-168 | the answer is `Installed` for the call's key and the caches become `CacheAfter` |
| Yadb.YadbCache.EnsureYadbReady | phone_agent/adb/yadb.py:233-264 | ready exactly when the probe or cache says installed, or installation is not skipped and succeeds; the caches move as the probe does |
| Yadb.YadbCache.TypeText | phone_agent/adb/yadb.py:267-320 | success exactly when yadb is installed and the typing command exited 0; the command sent is `TypeCommand` on the built prefix |
| Yadb.YadbCache.Evict | phone_agent/adb/yadb.py:391-393 | the key's answer and expiry are dropped and every other entry is kept |
| Yadb.YadbCache.SingleAttempt | phone_agent/adb/yadb.py:403-564 | the result is `FirstShot` of the old caches, and the caches move as the probe does |
| Yadb.YadbCache.Retry | phone_agent/adb/yadb.py:361-381 | the connection check's outcome is `ReconnectOk`, the image is `RetryShot`; the probe cache moves only when the check passes; the connection cache is cleared and then holds just this network device when the check passes |
| Yadb.YadbCache.ScreenshotStep | phone_agent/adb/yadb.py:361-393 | attempt 1 is `FirstShot` of the caches, a later attempt is `RetryShot`; after a failure before the last attempt the probe's cache entry is gone |
| Yadb.YadbCache.ForceScreenshot | phone_agent/adb/yadb.py:323-400 | at most `max_retries` attempts; an image has at least 100 bytes and the PNG signature and comes from the first attempt or the first successful retry; an image from a retry, or none, means the first attempt failed; no image means every attempt was made and every retry failed |
| AutoReconnect.Entries | phone_agent/adb/auto_reconnect.py:80-86 | every (serial, state) pair comes from a listing line with at least two words, and every such line contributes its pair |
| AutoReconnect.DeviceEntries | phone_agent/adb/auto_reconnect.py:77-86 | the entries are exactly the (serial, state) pairs of the lines after the header of the stripped listing that have at least two words |
| AutoReconnect.OnlineNeedsListing | phone_agent/adb/auto_reconnect.py:63-94 | a device is online only when the listing exited 0; a listing of a single line, the header, shows no device online |
| AutoReconnect.AlreadyConnectedRedundant | phone_agent/adb/auto_reconnect.py:117-118 | the connect output counts as a connection exactly when its lower-cased text contains "connected" |
| AutoReconnect.ReconnectDevice | phone_agent/adb/auto_reconnect.py:97-136 | success exactly when one of the first `max_attempts` attempts succeeds; on success the attempt made last is the first that succeeded; on failure all attempts were made |
| AutoReconnect.ConnectionCache.constructor | phone_agent/adb/auto_reconnect.py:20-21 | the connection cache starts empty |
| AutoReconnect.ConnectionCache.Clear | phone_agent/adb/auto_reconnect.py:139-141 | the connection cache is emptied |
| AutoReconnect.ConnectionCache.EnsureDeviceConnected | phone_agent/adb/auto_reconnect.py:24-60 | non-network serials and devices confirmed within 5 seconds (unless forced) succeed without change; otherwise success exactly when the device is online or reconnection succeeds, recording `now`, and failure forgets the device with "Failed to reconnect device: <id>" |
| DeviceHealth.FirstStatus | phone_agent/adb/device_health.py:61-79 | a state is found exactly when some entry names the device, and it is the state of such an entry, the first one |
| DeviceHealth.ConnectionStatus | phone_agent/adb/device_health.py:46-86 | connected exactly when the listing exited 0 and the device's first entry is in state `device`; the message is never empty |
| DeviceHealth.ConnectionMessages | phone_agent/adb/device_health.py:61-81 | "Device offline" and the unauthorized message are reported exactly when the device's first entry is in that state |
| DeviceHealth.ConnectedIsOnline | phone_agent/adb/device_health.py:46-86 | a device this checker finds connected is also online for the reconnection module |
| DeviceHealth.ResponsiveStatus | phone_agent/adb/device_health.py:88-110 | responsive exactly when `echo ping` exited 0 and printed "ping"; the message is never empty |
| DeviceHealth.Probe | phone_agent/adb/device_health.py:129-149 | a fresh health is stamped `now`, connected as the listing says, responsive only when connected and the echo succeeds, and carries a non-empty message exactly when unhealthy |
| DeviceHealth.DisconnectedNotPinged | phone_agent/adb/device_health.py:132-138 | a device that is not connected gets the same health whatever the echo would do, with the listing's message |
| DeviceHealth.RestartOutcome | phone_agent/adb/device_health.py:199-218 | the USB recovery succeeds exactly when both server commands ran and the listing then shows the device connected |
| DeviceHealth.ReconnectOutcome | phone_agent/adb/device_health.py:151-218 | a network serial succeeds exactly when one of the first `max_attempts` attempts succeeds; a USB serial gets the restart outcome |
| DeviceHealth.Recovery | phone_agent/adb/device_health.py:221-264 | healthy exactly when the first check is healthy, or reconnection is allowed, succeeds, and the check after it is healthy |
| DeviceHealth.RecoveryReasonKnown | phone_agent/adb/device_health.py:252-264 | an unhealthy check always carries its own reason, so the "Unknown error" and "None" fallbacks never show |
| DeviceHealth.DeviceHealthChecker.constructor | phone_agent/adb/device_health.py:41-44 | the checker watches the given device and has no last result |
| DeviceHealth.DeviceHealthChecker.GetHealth | phone_agent/adb/device_health.py:112-149 | a fresh cached result is returned unchanged unless forced; otherwise the result is `Probe` and it is remembered |
| DeviceHealth.DeviceHealthChecker.TryReconnect | phone_agent/adb/device_health.py:151-218 | the outcome is `ReconnectOutcome`; a network success comes from the first succeeding attempt, and a USB device makes no network attempt |
| DeviceHealth.CheckAndRecoverDevice | phone_agent/adb/device_health.py:221-264 | the verdict and message are `Recovery` |
| DeviceHealth.ValidateDeviceBeforeCommand | phone_agent/adb/device_health.py:267-290 | no device named passes; otherwise the call passes exactly when recovery succeeds and fails naming the device and the recovery message |

## Left out

- Subprocess, shell, HTTP and model calls. `adb`, `app_process`, `ss`, `netstat`, `kill`, the FRP port lookup and the LLM calls are not executed. Their outcomes are values passed in (`Run`, `PortProbe`, `Reply` and similar). The sleeps between retries are left out.
- Concurrency. asyncio locks, task creation and cancellation, events and `wait_for` timeouts are left out. Each method is one atomic sequential step, and a wait is modelled by its outcome (answered or timed out).
- Floating point. Success rates are compared by integer cross-multiplication. `int(x / w * 1000)` and similar conversions are floor or truncating division of integers. The swipe duration is `int(dist² / 1000)` computed exactly, without the rounding of a float division of very large squares.
- Wall-clock time. Timestamps are integer seconds supplied by the caller. Dictionaries report timestamps as these integers (or None) rather than as ISO strings.
- Text. Strings are sequences of characters. `lower()` and white-space tests cover ASCII only.
- Regular expressions and JSON. The vision-format reader's outer pattern is modelled exactly, and the device-id patterns are modelled up to the digit class noted under `Device.IsValidDeviceId` below. Elsewhere the captures of a pattern (`Captures`, `ResponseParser.Oracles`) or the result of `json.loads` are inputs, and the code around them is modelled.
- Persistence, images and transport. The task database, the loading and saving of prompt cards, screenshots and images (`return_pil`, PIL decoding), FastAPI routes and the WebSocket transport are left out. Sockets are opaque integers.
- Logging. Log messages are left out, except where a logged value is computed by code that can fail (the XML kernel's `_normalize_action_for_log`).
- phone_agent/config/apps.py is not part of this model. The package table `APP_PACKAGES` is a parameter of the app lookup.
- phone_agent/adb/anti_detection.py is not part of this model. The randomised tap offsets and delays of `tap`/`swipe` are left out.
- phone_agent/adb/ui_hierarchy.py is not part of this model. The XML kernel receives the outcome of the UI dump, after its one retry, as a step input.
- The device effects of `tap`, `double_tap`, `long_press`, `swipe`, `back`, `home` and `run_adb_command` in phone_agent/adb/device.py are left out: each only runs an adb command. So are their calls to `ensure_device_connected` and to the optional health check guarded by `ENABLE_DEVICE_HEALTH_CHECK`. `launch_app`'s package resolution and launch fallbacks are modelled; its preflight connection check is not.
- `install_yadb` is left out. Its outcome is the `install` argument of `Yadb.YadbCache.EnsureYadbReady`.
- In the yadb screenshot, the random file name and the final `rm` are left out. So is the check of the tool's printed output, which only logs (phone_agent/adb/yadb.py:465-477). The sleeps between attempts are left out too.
- The netstat fallback of the zombie-port scan is left out when `ss` is unavailable. The `ss -tlnp` lines are the input.
- `_filter_elements` in server/pc/pc_perception.py also writes a "priority" entry into the caller's element dictionaries. That side effect is left out. The model computes the same priorities and returns new records.
- The AST-based path of `parse_vision_action` is left out. Only the regular-expression reader and the conversion to the standard dictionary are modelled.
- The hybrid and vision agent orchestration around `_run_agent` is left out, as are the model client classes.
- XmlTree.ElementOf: does not carry the `long_clickable` flag or the `long_press` action that xml_parser_v3's own `to_dict` can report. XmlTree's element record has no such field.
- XmlAgent.XmlKernelAgent.Step: models only the exception the log conversion can raise inside a step. An exception raised by the device action or the UI dump outside the modelled retry, including the "cancelled by user" text that ends the run with reason `user_cancelled` (phone_agent/kernel/xml_agent.py:360-399), is left out. The action's outcome is one of success, failure or a result with no "success" key (the ask_user reply), the last counted as an exception.
- AgentService.AgentService.ExecuteTask: the device pool is not a field of the agent service; the device the pool must mark busy (`device_pool.assign_task`) is returned as `claimed`, and `DevicePool.DevicePool.AssignTask` models that call.
- AgentService.AgentService.ListTasks: tasks created in the same second keep their original relative order under the model's sort, as under Python's stable sort. No lemma states this.
- DevicePool.DevicePool.GetAvailableDevice: returns the chosen device's id rather than the device object.
- Order of effects. A refused allocation in `PortManager.allocate_port` (port held by another device, no `force`) has already released the requesting device's previous port. The model keeps that order.
- ActionExecutor.Executor.Execute: composes the corrected halves of the index, long-press, drag, scroll and key-event rows under "## Findings", so its long presses, drags, scrolls and key events reach the device and a negative index is refused; the program as written fails each of these (the as-written members state how).
- ActionExecutor.Executor.ExecuteOnDevice: composes the same corrected halves as `Execute`.
- ActionExecutor.Executor.Run: composes the same corrected halves as `Execute`.
- ActionExecutor.Executor.ExecuteTap: looks elements up with the corrected `IndexPoint`, so a negative index is refused; as written index −1 taps the last element (`IndexPointAsWritten`).
- ActionExecutor.Executor.ExecuteInputText: focuses through the corrected `IndexPoint`, so a negative index is refused; as written index −1 focuses the last element.
- ActionExecutor.Executor.ExecuteLongPress: states the corrected long press, whose duration is passed as `duration_ms`, and the corrected index lookup; as written every long press raises a TypeError (`LongPressAsWritten`).
- ActionExecutor.Executor.ExecuteDoubleTap: looks elements up with the corrected `IndexPoint`, so a negative index is refused; as written index −1 double-taps the last element.
- ActionExecutor.Executor.ExecuteDrag: states the corrected drag, whose duration is passed as `duration_ms`, and the corrected index lookup; as written every drag raises a TypeError (`DragAsWritten`).
- ActionExecutor.Executor.ExecuteScroll: states the corrected scroll, whose duration is passed as `duration_ms`; as written every scroll with a position raises a TypeError (`ScrollAsWritten`).
- ActionExecutor.Executor.ExecuteKeyEvent: states the corrected key event, which sends the mapped key code; as written every key event fails with an ImportError (`KeyEventAsWritten`).
- ActionExecutor.Executor.IndexTap: is stated for the corrected index lookup; as written a negative index selects an element from the end (`NegativeIndexAsWritten`).
- ActionExecutor.Executor.InputNeedsFocus: is stated for the corrected index lookup; as written a negative index focuses an element from the end instead of failing.
- Executor.Shown: a list or object value inside a failure message is rendered as the empty string; Python's f-string prints its repr (`['a', 'b']`, `{'k': 1}`). Only strings, integers, booleans and null are rendered as Python does.
- Executor.PlanExecutor.CheckpointOutcome: its UI-tree check is the corrected `ValidateWithXml`; the program calls the as-written check, under which an expectation without `current_app` fails (see `Executor.HasTextAloneFailsAsWritten`).
- Executor.PlanExecutor.VisionOutcome: its no-model and non-critical fallbacks are the corrected `ValidateWithXml`, as for `CheckpointOutcome`.
- Executor.PlanExecutor.ValidateWithVision: falls back to the corrected `ValidateWithXml`, as `VisionOutcome` does.
- Executor.PlanExecutor.ExecuteCheckpoint: its verdict is `CheckpointOutcome`'s, which uses the corrected `ValidateWithXml`.
- Executor.PlanExecutor.ExecutePlan: the optional `step_callback` after each step is not modelled (a caller-supplied function). Nor is the `except Exception` path around the loop, which reports success with "Execution error: …" when no step had failed: the modelled steps return results and never raise.
- XmlAgent.XmlKernelAgent.GetLlmDecision: trims the context with the corrected `Compress`; the program's slice keeps the whole history when `max_context_turns` is 1 (see `XmlAgent.CompressAsWrittenGrows`).
- XmlAgent.XmlKernelAgent.Think: trims with the corrected `Compress`, as `GetLlmDecision` does.
- ResponseParser.Parse: dispatches to the corrected `GlmBox`; as written a box reply without an action is claimed with no action (see `ResponseParser.GlmBoxLosesCommand`).
- Device.AdbPrefix: uses the corrected `IsValidDeviceId`; as written an id with a final line break is accepted and passed to `adb -s` (see `Device.TrailingLineBreakAccepted`).
- Device.PrefixArgumentsPlain: holds of the corrected prefix only, for the same reason.
- Device.LaunchApp: has no device id, so the ValueError `_get_adb_prefix` raises for an invalid id after a package is found (phone_agent/adb/device.py:397) is not modelled.
- Device.CurrentApp: has no device id, so the ValueError `_get_adb_prefix` raises for an invalid id is not modelled.
- Device.IsValidDeviceId: Python's `\d` also matches non-ASCII decimal digits; the model's digit test is ASCII-only, so an id with such digits is refused here and accepted by the program.
- PcSubtask.ExtractParameters: a name is made of ASCII word characters only (`Util.IsWordChar`), while Python's `\w` is Unicode-aware; `请发送{邮件}` yields the name `邮件` in the program and no name in the model.
- Planner.FromDict: `from_dict` passes values to the dataclass without type checks; the model refuses a plan whose instruction or texts are not strings, whose duration is not an integer, whose lists are not lists (`null` included) or whose step and checkpoint items are not objects, all of which the program builds as they are.
- Planner.JsonToObjects: refuses a list with a non-object item, which `from_dict` passes through unchecked.
- Planner.JsonToStrings: refuses a list with a non-string item, which `from_dict` passes through unchecked.
- StandardActions.LaxInt: covers integers, booleans and strings of decimal digits with an optional sign. Pydantic's other lax forms, such as floats with no fractional part and their strings, are not modelled; the model's JSON values have no floats.
- StandardActions.LaxFloat: reads strings with `DecimalValue`, which has no exponent, `inf`, `nan` or `_` separators.
- Util.IsWordChar: only ASCII letters, digits and `_` are word characters; Python's `\w` on `str` also matches every Unicode letter and digit.
- Util.DecimalValue: no exponent, `inf`, `nan` or `_` separators, which Python's `float()` also reads.
- Yadb.TypeCommand: an empty text gives an empty last argument, which the shell drops; the round trip is stated for non-empty texts only.
- Yadb.EscapeRoundTrip: stated for texts the shell takes literally; for the others `Yadb.BackslashSpaceSplits` and `Yadb.InterpretedCharactersPassUnescaped` show what the shell makes of them.
- DeviceScanner.DeviceScanner.AbsorbAll: states each new device's registration; which devices the port manager refuses is stated per device by `Absorb`, not collected over the pass.
- PcPerception.DenormalizeCoordinates: each axis is `DenormalizeOne`, whose contract gives the clamped value.
- XmlParserV3.AssignHighlightIndices: `assign_highlight_indices` writes `highlight_index` into the node objects it is given, which the filtered and deduplicated lists share; the model returns numbered copies, so that aliasing is not captured.

## Findings

| source | as written | input that shows it | evidently intended | confidence | as-written member | corrected member |
|---|---|---|---|---|---|---|
| server/pc/pc_agent.py:694-697 | "TapIdx (n)" becomes index n − 1, and `click_idx` (line 1063) only refuses an index at or past the end | the text `TapIdx (0)` with a non-empty perception list gives index −1, which Python reads as the last marked element, so that element is clicked | refuse any index outside 0 ≤ index < len | not executed | `PcAgent.ClickIdxAsWritten`, `PcAgent.TapIdxZeroClicksLast` | `PcAgent.ClickIdxTarget` |
| phone_agent/planning/executor.py:681-723 | `_validate_with_xml` logs `current_app`, `required_text` and `forbidden_text` even on paths that never assigned them, so the NameError fails the check | expected state `{"has_text": t}` on a screen that shows `t` fails | the check passes when every stated expectation holds | not executed | `Executor.ValidateWithXmlAsWritten`, `Executor.HasTextAloneFailsAsWritten` | `Executor.ValidateWithXml`, `Executor.AsWrittenPassImpliesIntended` |
| phone_agent/actions/action_executor.py:188 | an element index is checked only against `len(self.elements)` | index −1 with a non-empty element list selects the last element | refuse negative indices | not executed | `ActionExecutor.Executor.IndexPointAsWritten`, `ActionExecutor.Executor.NegativeIndexAsWritten` | `ActionExecutor.Executor.IndexPoint` |
| phone_agent/actions/action_executor.py:439 | `long_press(x, y, duration=...)`, but the device function's parameter is `duration_ms` | any long press at valid coordinates raises a TypeError and reaches no device | pass the duration as `duration_ms` | not executed | `ActionExecutor.Executor.LongPressAsWritten`, `ActionExecutor.Executor.LongPressAsWrittenFails` | `ActionExecutor.Executor.LongPressReachesDevice` |
| phone_agent/actions/action_executor.py:585 | `swipe(..., duration=...)`, but the device function's parameter is `duration_ms` | any drag between valid points raises a TypeError and reaches no device | pass the duration as `duration_ms` | not executed | `ActionExecutor.Executor.DragAsWritten`, `ActionExecutor.Executor.DragAsWrittenFails` | `ActionExecutor.Executor.DragReachesDevice` |
| phone_agent/actions/action_executor.py:599 | `_execute_scroll` calls `swipe(..., duration=300, ...)`, but the device function's parameter is `duration_ms` | any scroll at a position with two coordinates raises a TypeError, which `execute` reports as an execution error, and nothing is sent | pass the duration as `duration_ms` | not executed | `ActionExecutor.Executor.ScrollAsWritten`, `ActionExecutor.Executor.ScrollAsWrittenFails` | `ActionExecutor.Executor.ScrollRun`, `ActionExecutor.Executor.ScrollReachesDevice` |
| phone_agent/planning/executor.py:538 | the plan executor's scroll also calls `swipe(..., duration=300, ...)` | a scroll step `{"direction": "up"}` fails with "Failed to scroll: ..." and the plan step fails | pass the duration as `duration_ms` | not executed | `Executor.ExecuteScrollAsWritten`, `Executor.ScrollAsWrittenNeverSucceeds` | `Executor.ExecuteScroll`, `Executor.ScrollSucceedsWhenSwiped` |
| phone_agent/actions/action_executor.py:609 | the key event imports `execute_adb_command` from `phone_agent.adb`, which does not export it | any key event, e.g. "BACK", fails with an ImportError and sends nothing | send the mapped key code through the adb prefix | not executed | `ActionExecutor.Executor.KeyEventAsWritten`, `ActionExecutor.Executor.KeyEventAsWrittenFails` | `ActionExecutor.Executor.KeyEventSendsCode` |
| phone_agent/kernel/xml_agent.py:464 | the recent window is `context[-(2N - 2):]` | with `max_context_turns` N = 1 the slice is `context[-0:]`, the whole list, so trimming a context of more than 3 messages makes it 3 messages longer | keep no recent messages when N = 1 | not executed | `XmlAgent.CompressAsWritten`, `XmlAgent.CompressAsWrittenGrows` | `XmlAgent.Compress`, `XmlAgent.CompressKeepsWindow` |
| phone_agent/model/response_parser.py:324 | `return thinking, action if action else None` always returns a pair, which is truthy | the reply `{think>do(1)}` is claimed by the box format with no action, and the fallback that would find `do(1)` is never tried | return None when no action is found | not executed | `ResponseParser.GlmBoxAsWritten`, `ResponseParser.GlmBoxLosesCommand` | `ResponseParser.GlmBox`, `ResponseParser.BracedCommandRecovered` |
| phone_agent/adb/device.py:513-522 | the id patterns end in `$` under `re.match`, and `$` also matches before a final line break | `"ABCD1234\n"` is accepted as a valid device id and is then placed after `adb -s` | accept only ids made of the pattern's characters (`\Z` or `re.fullmatch`) | not executed | `Device.IsValidDeviceIdAsWritten`, `Device.TrailingLineBreakAccepted` | `Device.IsValidDeviceId`, `Device.ValidIdCharacters` |
| phone_agent/adb/yadb.py:292 | `type_text` escapes only spaces before the text reaches the device shell through `adb shell` | the text `a\ b` is sent as `a\\ b`, which the shell reads as the two words `a\` and `b`; `a;b` and `it's` are interpreted by the shell instead of typed | quote the whole text for the shell | not executed | `Yadb.EscapeSpaces`, `Yadb.BackslashSpaceSplits` | `Yadb.ShellQuote`, `Yadb.QuotedRead` |
