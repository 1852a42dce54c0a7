/** The WebSocket device server: its `DeviceManager` (open connections,
    device records and per-device task sets), the status it reports for each
    device, and the first-message handshake of the device endpoint.
    Sockets are opaque handles; the `netstat` output used to see whether the
    FRP port listens is an input (None when the command failed). */
module DeviceServer {
  import opened Util

  type Socket = int

  datatype DeviceInfo = DeviceInfo(
    deviceId: string,
    deviceName: string,
    deviceType: string,
    model: string,
    androidVersion: string,
    screenResolution: string,
    frpPort: int,
    connectedAt: Option<int>,
    lastHeartbeat: Option<int>,
    status: string,
    battery: int,
    network: string,
    frpConnected: bool,
    wsConnected: bool,
    osInfo: Option<string>)

  /** The keys a device may send in its registration `specs`; None = key absent. */
  datatype RegisterInfo = RegisterInfo(
    frpPort: Option<int>,
    deviceName: Option<string>,
    deviceType: Option<string>,
    model: Option<string>,
    androidVersion: Option<string>,
    screenResolution: Option<string>,
    battery: Option<int>,
    network: Option<string>,
    osInfo: Option<string>)

  /** The FRP channel counts as connected when a port was given and the
      `netstat -tln` output mentions ":<port>". */
  function FrpListening(frpPort: int, netstat: Option<string>): (r: bool)
    ensures r <==> frpPort != 0 && netstat.Some? && Contains(netstat.value, ":" + IntToString(frpPort))
  {
    frpPort != 0 && netstat.Some? && Contains(netstat.value, ":" + IntToString(frpPort))
  }

  /** The status a device is reported with: a PC is online iff it has a
      WebSocket connection; any other device also needs its FRP channel. */
  function ReportedStatus(info: DeviceInfo, wsConnected: bool): (r: string)
    ensures r == "online" || r == "offline"
    ensures info.deviceType == "pc" ==> (r == "online" <==> wsConnected)
    ensures info.deviceType != "pc" ==> (r == "online" <==> wsConnected && info.frpConnected)
  {
    if info.deviceType == "pc" then
      (if wsConnected then "online" else "offline")
    else
      (if wsConnected && info.frpConnected then "online" else "offline")
  }

  /** A PC never needs FRP to be reported online; a phone does. */
  lemma ReportedStatusFrpMatters(info: DeviceInfo, ws: bool)
    ensures info.deviceType == "pc" ==> ReportedStatus(info, ws) == ReportedStatus(info.(frpConnected := !info.frpConnected), ws)
    ensures info.deviceType != "pc" ==> ReportedStatus(info.(frpConnected := false), ws) == "offline"
    ensures !ws ==> ReportedStatus(info, ws) == "offline"
  {
  }

  /** What the device endpoint does with the first message on a socket. */
  datatype Handshake =
    | Close(code: int, reason: string)
    | Register(deviceId: string, specs: RegisterInfo)

  function DeviceIdForPort(frpPort: int): (r: string)
    ensures StartsWith(r, "device_") && r[|"device_"|..] == IntToString(frpPort)
  {
    "device_" + IntToString(frpPort)
  }

  /** Two endpoints with different ports never register the same device id. */
  lemma DeviceIdForPortInjective(p: int, q: int)
    requires DeviceIdForPort(p) == DeviceIdForPort(q)
    ensures p == q
  {
    assert DeviceIdForPort(p)[7..] == IntToString(p);
    assert DeviceIdForPort(q)[7..] == IntToString(q);
    IntToStringInjective(p, q);
  }

  /** Any first message other than `device_online` closes the socket with
      policy-violation code 1008; otherwise the device is registered as
      "device_<port>" with the port from the URL overriding its specs. */
  function FirstMessage(messageType: Option<string>, specs: Option<RegisterInfo>, frpPort: int): (r: Handshake)
    ensures r.Close? <==> messageType != Some("device_online")
    ensures r.Close? ==> r.code == 1008
    ensures r.Register? ==> r.deviceId == DeviceIdForPort(frpPort) && r.specs.frpPort == Some(frpPort)
  {
    if messageType != Some("device_online") then Close(1008, "Invalid first message")
    else
      var s := specs.GetOr(RegisterInfo(None, None, None, None, None, None, None, None, None));
      Register(DeviceIdForPort(frpPort), s.(frpPort := Some(frpPort)))
  }

  /** What the endpoint's message loop does with one later message. */
  datatype Reaction = SendPong | CompleteTask(taskId: Option<string>) | Ignore

  function OnMessage(messageType: Option<string>, taskId: Option<string>): (r: Reaction)
    ensures r == SendPong <==> messageType == Some("ping")
    ensures r.CompleteTask? <==> messageType == Some("task_complete")
    ensures r.CompleteTask? ==> r.taskId == taskId
  {
    if messageType == Some("ping") then SendPong
    else if messageType == Some("task_complete") then CompleteTask(taskId)
    else Ignore
  }

  /** The record a first registration creates. */
  function NewDevice(deviceId: string, info: RegisterInfo, frpConnected: bool, now: int): (d: DeviceInfo)
    ensures d.deviceId == deviceId && d.status == "online" && d.wsConnected && d.frpConnected == frpConnected
    ensures d.deviceName == info.deviceName.GetOr(deviceId) && d.deviceType == info.deviceType.GetOr("android")
    ensures d.frpPort == info.frpPort.GetOr(0) && d.battery == info.battery.GetOr(100)
  {
    DeviceInfo(
      deviceId, info.deviceName.GetOr(deviceId), info.deviceType.GetOr("android"),
      info.model.GetOr("unknown"), info.androidVersion.GetOr("unknown"), info.screenResolution.GetOr("unknown"),
      info.frpPort.GetOr(0), Some(now), Some(now), "online",
      info.battery.GetOr(100), info.network.GetOr("unknown"), frpConnected, true, info.osInfo)
  }

  /** What a reconnection changes in a known record: timestamps, status,
      both channel flags, battery and network, and type, OS info and name
      only when the device sent them. Model, versions and port are kept. */
  function Reconnected(d: DeviceInfo, info: RegisterInfo, frpConnected: bool, now: int): (r: DeviceInfo)
    ensures r.status == "online" && r.wsConnected && r.frpConnected == frpConnected
    ensures r.deviceId == d.deviceId && r.frpPort == d.frpPort && r.model == d.model
    ensures info.deviceType.None? ==> r.deviceType == d.deviceType
    ensures info.deviceName.None? ==> r.deviceName == d.deviceName
    ensures info.osInfo.None? ==> r.osInfo == d.osInfo
  {
    d.(connectedAt := Some(now), lastHeartbeat := Some(now), status := "online",
       frpConnected := frpConnected, wsConnected := true,
       battery := info.battery.GetOr(d.battery), network := info.network.GetOr(d.network),
       deviceType := info.deviceType.GetOr(d.deviceType),
       osInfo := if info.osInfo.Some? then info.osInfo else d.osInfo,
       deviceName := info.deviceName.GetOr(d.deviceName))
  }

  predicate Idle(d: DeviceInfo, tasks: map<string, set<string>>) {
    d.status == "online" && d.frpConnected && (d.deviceId !in tasks || tasks[d.deviceId] == {})
  }

  /** The manager's invariant on plain values: `order` lists each record
      once, records are keyed by their own id, and only known devices have
      a task set. */
  ghost predicate Indexed(order: seq<string>, devices: map<string, DeviceInfo>, tasks: map<string, set<string>>) {
    && Distinct(order)
    && (forall id :: id in order <==> id in devices)
    && (forall id :: id in devices ==> devices[id].deviceId == id)
    && tasks.Keys <= devices.Keys
  }

  /** Rewriting a known record under its own id keeps the invariant. */
  lemma IndexedUpdate(order: seq<string>, devices: map<string, DeviceInfo>, tasks: map<string, set<string>>, d: DeviceInfo)
    requires Indexed(order, devices, tasks) && d.deviceId in devices
    ensures Indexed(order, devices[d.deviceId := d], tasks)
  {
  }

  /** Adding a new record at the end of the order keeps the invariant. */
  lemma IndexedAdd(order: seq<string>, devices: map<string, DeviceInfo>, tasks: map<string, set<string>>, d: DeviceInfo)
    requires Indexed(order, devices, tasks) && d.deviceId !in devices
    ensures Indexed(order + [d.deviceId], devices[d.deviceId := d], tasks)
  {
    DistinctAppend(order, d.deviceId);
  }

  /** Changing the task set of a known device keeps the invariant. */
  lemma IndexedTasks(order: seq<string>, devices: map<string, DeviceInfo>, tasks: map<string, set<string>>, id: string, ts: set<string>)
    requires Indexed(order, devices, tasks) && id in devices
    ensures Indexed(order, devices, tasks[id := ts])
  {
  }

  class DeviceManager {
    var connections: map<string, Socket>
    var devices: map<string, DeviceInfo>
    /** Key order of `devices` (insertion order). */
    var order: seq<string>
    var deviceTasks: map<string, set<string>>

    ghost predicate Valid()
      reads this
    {
      Indexed(order, devices, deviceTasks)
    }

    constructor ()
      ensures Valid()
      ensures connections == map[] && devices == map[] && order == [] && deviceTasks == map[]
    {
      connections, devices, order, deviceTasks := map[], map[], [], map[];
    }

    method RegisterDevice(deviceId: string, socket: Socket, info: RegisterInfo, netstat: Option<string>, now: int)
      requires Valid()
      modifies this
      ensures Valid()
      ensures connections == old(connections)[deviceId := socket]
      ensures var frp := FrpListening(info.frpPort.GetOr(0), netstat);
        if deviceId in old(devices) then
          devices == old(devices)[deviceId := Reconnected(old(devices)[deviceId], info, frp, now)] && order == old(order)
        else
          devices == old(devices)[deviceId := NewDevice(deviceId, info, frp, now)] && order == old(order) + [deviceId]
      ensures deviceTasks == if deviceId in old(deviceTasks) then old(deviceTasks) else old(deviceTasks)[deviceId := {}]
    {
      connections := connections[deviceId := socket];
      var frpPort := info.frpPort.GetOr(0);
      var frpConnected := false;
      if frpPort != 0 && netstat.Some? && Contains(netstat.value, ":" + IntToString(frpPort)) {
        frpConnected := true;
      }
      if deviceId in devices {
        IndexedUpdate(order, devices, deviceTasks, Reconnected(devices[deviceId], info, frpConnected, now));
        devices := devices[deviceId := Reconnected(devices[deviceId], info, frpConnected, now)];
      } else {
        IndexedAdd(order, devices, deviceTasks, NewDevice(deviceId, info, frpConnected, now));
        devices := devices[deviceId := NewDevice(deviceId, info, frpConnected, now)];
        order := order + [deviceId];
      }
      if deviceId !in deviceTasks {
        IndexedTasks(order, devices, deviceTasks, deviceId, {});
        deviceTasks := deviceTasks[deviceId := {}];
      }
    }

    /** Keeps the record but marks it offline without a WebSocket; drops the
        connection and the task set. Returns the FRP port whose resources
        the server then releases (none when the port is 0 or unknown). */
    method UnregisterDevice(deviceId: string) returns (releasePort: Option<int>)
      requires Valid()
      modifies this
      ensures Valid() && order == old(order)
      ensures devices == if deviceId in old(devices)
        then old(devices)[deviceId := old(devices)[deviceId].(status := "offline", wsConnected := false)]
        else old(devices)
      ensures connections == old(connections) - {deviceId}
      ensures deviceTasks == old(deviceTasks) - {deviceId}
      ensures releasePort.Some? <==> deviceId in old(devices) && old(devices)[deviceId].frpPort != 0
      ensures releasePort.Some? ==> releasePort.value == old(devices)[deviceId].frpPort
    {
      releasePort := None;
      if deviceId in devices {
        var d := devices[deviceId];
        if d.frpPort != 0 {
          releasePort := Some(d.frpPort);
        }
        devices := devices[deviceId := d.(status := "offline", wsConnected := false)];
      }
      connections := connections - {deviceId};
      deviceTasks := deviceTasks - {deviceId};
    }

    /** Fails without a connection; otherwise the outcome of the send. */
    method SendCommand(deviceId: string, sendSucceeds: bool) returns (sent: bool)
      ensures sent <==> deviceId in connections && sendSucceeds
    {
      if deviceId !in connections {
        return false;
      }
      return sendSucceeds;
    }

    /** The first device (in key order) that is online, FRP-connected and
        has no task, or None. */
    method GetAvailableDevice() returns (r: Option<string>)
      requires Valid()
      ensures r.Some? ==> r.value in devices && Idle(devices[r.value], deviceTasks)
      ensures r.Some? ==> exists k :: 0 <= k < |order| && order[k] == r.value && forall j :: 0 <= j < k ==> !Idle(devices[order[j]], deviceTasks)
      ensures r.None? ==> forall id :: id in devices ==> !Idle(devices[id], deviceTasks)
    {
      var i := 0;
      while i < |order|
        invariant 0 <= i <= |order|
        invariant forall j :: 0 <= j < i ==> !Idle(devices[order[j]], deviceTasks)
      {
        var d := devices[order[i]];
        if d.status == "online" && d.frpConnected {
          var tasks := if d.deviceId in deviceTasks then deviceTasks[d.deviceId] else {};
          if |tasks| == 0 {
            return Some(order[i]);
          }
        }
        i := i + 1;
      }
      return None;
    }

    /** Only a device with a task set takes the task; it is then busy. */
    method AssignTask(deviceId: string, taskId: string)
      requires Valid()
      modifies this
      ensures Valid() && order == old(order) && connections == old(connections)
      ensures deviceId in old(deviceTasks) ==>
        && deviceTasks == old(deviceTasks)[deviceId := old(deviceTasks)[deviceId] + {taskId}]
        && devices == old(devices)[deviceId := old(devices)[deviceId].(status := "busy")]
      ensures deviceId !in old(deviceTasks) ==> deviceTasks == old(deviceTasks) && devices == old(devices)
    {
      if deviceId in deviceTasks {
        IndexedTasks(order, devices, deviceTasks, deviceId, deviceTasks[deviceId] + {taskId});
        deviceTasks := deviceTasks[deviceId := deviceTasks[deviceId] + {taskId}];
        IndexedUpdate(order, devices, deviceTasks, devices[deviceId].(status := "busy"));
        devices := devices[deviceId := devices[deviceId].(status := "busy")];
      }
    }

    /** Removes the task; a device left without tasks is online again. */
    method CompleteTask(deviceId: string, taskId: Option<string>)
      requires Valid()
      modifies this
      ensures Valid() && order == old(order) && connections == old(connections)
      ensures deviceId in old(deviceTasks) ==>
        var rest := if taskId.Some? then old(deviceTasks)[deviceId] - {taskId.value} else old(deviceTasks)[deviceId];
        && deviceTasks == old(deviceTasks)[deviceId := rest]
        && devices == if rest == {} then old(devices)[deviceId := old(devices)[deviceId].(status := "online")] else old(devices)
      ensures deviceId !in old(deviceTasks) ==> deviceTasks == old(deviceTasks) && devices == old(devices)
    {
      if deviceId in deviceTasks {
        var rest := deviceTasks[deviceId];
        if taskId.Some? {
          rest := rest - {taskId.value};
        }
        IndexedTasks(order, devices, deviceTasks, deviceId, rest);
        deviceTasks := deviceTasks[deviceId := rest];
        if |rest| == 0 {
          IndexedUpdate(order, devices, deviceTasks, devices[deviceId].(status := "online"));
          devices := devices[deviceId := devices[deviceId].(status := "online")];
        }
      }
    }

    /** `GET /devices/{id}`: None for an unknown id (HTTP 404), else the live
        status, the live WebSocket flag and the number of current tasks. */
    function GetDevice(deviceId: string): (r: Option<(string, bool, nat)>)
      reads this
      ensures r.None? <==> deviceId !in devices
      ensures r.Some? ==> r.value.1 == (deviceId in connections)
      ensures r.Some? ==> r.value.0 == ReportedStatus(devices[deviceId], deviceId in connections)
      ensures r.Some? && deviceId in deviceTasks ==> r.value.2 == |deviceTasks[deviceId]|
      ensures r.Some? ==> (r.value.2 == 0 <==> deviceId !in deviceTasks || deviceTasks[deviceId] == {})
    {
      if deviceId !in devices then None
      else
        var ws := deviceId in connections;
        Some((ReportedStatus(devices[deviceId], ws), ws, if deviceId in deviceTasks then |deviceTasks[deviceId]| else 0))
    }
  }
}
