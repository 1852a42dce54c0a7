/** Device health checks and recovery: is the device listed, does it
    answer a shell echo, and the reconnect / ADB-restart recovery used
    before a command is sent to a device. */
module DeviceHealth {
  import opened Util
  import AutoReconnect

  /** Seconds during which a checker returns its last health unchanged. */
  const CheckInterval := 60

  /** Attempts `try_reconnect` makes when called without an argument. */
  const DefaultReconnectAttempts := 3

  /** `DeviceHealth`: the two verdicts, the reason when not healthy and
      the (integer) time of the check. */
  datatype Health = Health(isConnected: bool, isResponsive: bool, errorMessage: Option<string>, lastCheck: Option<int>)

  predicate Healthy(h: Health) {
    h.isConnected && h.isResponsive
  }

  /** The state of the first listed entry for `deviceId`. */
  function FirstStatus(entries: seq<(string, string)>, deviceId: string): (r: Option<string>)
    ensures r.Some? <==> exists i :: 0 <= i < |entries| && entries[i].0 == deviceId
    ensures r.Some? ==> exists i :: (0 <= i < |entries| && entries[i] == (deviceId, r.value)
      && forall j :: 0 <= j < i ==> entries[j].0 != deviceId)
  {
    if |entries| == 0 then None
    else if entries[0].0 == deviceId then Some(entries[0].1)
    else
      var r := FirstStatus(entries[1..], deviceId);
      assert forall i :: 1 <= i < |entries| ==> entries[i] == entries[1..][i - 1];
      assert r.Some? ==> exists i :: (1 <= i < |entries| && entries[i] == (deviceId, r.value)
        && forall j :: 0 <= j < i ==> entries[j].0 != deviceId) by {
        if r.Some? {
          var i :| 0 <= i < |entries[1..]| && entries[1..][i] == (deviceId, r.value)
            && forall j :: 0 <= j < i ==> entries[1..][j].0 != deviceId;
          assert forall j :: 0 <= j < i + 1 ==> entries[j].0 != deviceId by {
            forall j | 0 <= j < i + 1 ensures entries[j].0 != deviceId {
              if j > 0 { assert entries[j] == entries[1..][j - 1]; }
            }
          }
        }
      }
      r
  }

  /** `check_device_connected`: the verdict and message for one run of
      `adb devices`, decided by the first entry naming the device. */
  function ConnectionStatus(deviceId: string, devices: Run): (r: (bool, string))
    ensures r.0 <==> (devices.Exited? && devices.code == 0
      && FirstStatus(AutoReconnect.DeviceEntries(devices.stdout), deviceId) == Some("device"))
    ensures r.1 != []
  {
    match devices
    case TimeoutExpired => (false, "ADB devices command timeout")
    case Errored(e) => (false, "Check failed: " + e)
    case Exited(code, out, err) =>
      if code != 0 then (false, "ADB command failed: " + err)
      else
        match FirstStatus(AutoReconnect.DeviceEntries(out), deviceId)
        case None => (false, "Device '" + deviceId + "' not found in device list")
        case Some(status) =>
          if status == "device" then (true, "Connected")
          else if status == "offline" then (false, "Device offline")
          else if status == "unauthorized" then (false, "Device unauthorized (check USB debugging)")
          else (false, "Device status: " + status)
  }

  /** The message of a failed check names its cause: an offline or
      unauthorized device is reported as such and never as another state. */
  lemma ConnectionMessages(deviceId: string, devices: Run)
    ensures ConnectionStatus(deviceId, devices).1 == "Device offline" <==>
      devices.Exited? && devices.code == 0
      && FirstStatus(AutoReconnect.DeviceEntries(devices.stdout), deviceId) == Some("offline")
    ensures ConnectionStatus(deviceId, devices).1 == "Device unauthorized (check USB debugging)" <==>
      devices.Exited? && devices.code == 0
      && FirstStatus(AutoReconnect.DeviceEntries(devices.stdout), deviceId) == Some("unauthorized")
  {
    var m := ConnectionStatus(deviceId, devices).1;
    match devices
    case TimeoutExpired =>
      assert m[0] == 'A';
    case Errored(e) =>
      assert m[0] == 'C';
    case Exited(code, out, err) =>
      if code != 0 {
        assert m[0] == 'A';
      } else {
        match FirstStatus(AutoReconnect.DeviceEntries(out), deviceId)
        case None =>
          assert m[7] == '\'';
        case Some(status) =>
          if status != "device" && status != "offline" && status != "unauthorized" {
            assert m[7] == 's';
          }
      }
  }

  /** `check_device_responsive` with its default timeout of 3.0 seconds:
      `echo ping` ran, exited with status 0 and printed "ping". */
  function ResponsiveStatus(ping: Run): (r: (bool, string))
    ensures r.0 <==> ping.Exited? && ping.code == 0 && Contains(ping.stdout, "ping")
    ensures r.1 != []
  {
    match ping
    case TimeoutExpired => (false, "Response timeout after 3.0s")
    case Errored(e) => (false, "Check failed: " + e)
    case Exited(code, out, _) =>
      if code == 0 && Contains(out, "ping") then (true, "Responsive")
      else (false, "No response (returncode=" + IntToString(code) + ")")
  }

  /** The health a fresh check at time `now` records: a device that is
      not listed is not asked to respond. */
  function Probe(deviceId: string, now: int, devices: Run, ping: Run): (h: Health)
    ensures h.lastCheck == Some(now)
    ensures h.isConnected <==> ConnectionStatus(deviceId, devices).0
    ensures h.isResponsive <==> h.isConnected && ResponsiveStatus(ping).0
    ensures h.errorMessage.None? <==> Healthy(h)
    ensures h.errorMessage.Some? ==> h.errorMessage.value != []
  {
    var (connected, connMsg) := ConnectionStatus(deviceId, devices);
    if !connected then Health(false, false, Some(connMsg), Some(now))
    else
      var (responsive, respMsg) := ResponsiveStatus(ping);
      Health(true, responsive, if responsive then None else Some(respMsg), Some(now))
  }

  /** A device that is not listed gets the same health whatever the echo
      would have answered: the echo is never consulted. */
  lemma DisconnectedNotPinged(deviceId: string, now: int, devices: Run, ping1: Run, ping2: Run)
    requires !ConnectionStatus(deviceId, devices).0
    ensures Probe(deviceId, now, devices, ping1) == Probe(deviceId, now, devices, ping2)
    ensures Probe(deviceId, now, devices, ping1).errorMessage == Some(ConnectionStatus(deviceId, devices).1)
  {
  }

  /** A device whose first entry is in state `device` is online in the
      sense of the reconnection module, which accepts any such entry. */
  lemma ConnectedIsOnline(deviceId: string, devices: Run)
    ensures ConnectionStatus(deviceId, devices).0 ==> AutoReconnect.IsDeviceOnline(deviceId, devices)
  {
    if ConnectionStatus(deviceId, devices).0 {
      var entries := AutoReconnect.DeviceEntries(devices.stdout);
      var i :| 0 <= i < |entries| && entries[i] == (deviceId, "device")
        && forall j :: 0 <= j < i ==> entries[j].0 != deviceId;
      assert (deviceId, "device") in entries;
    }
  }

  /** The commands of one network reconnection attempt. */
  datatype Attempt = Attempt(disconnect: Run, connect: Run, devices: Run)

  /** The commands of the USB recovery: restart the ADB server, then list. */
  datatype Restart = Restart(kill: Run, start: Run, devices: Run)

  /** A network attempt succeeds when disconnect ran, connect exited with
      status 0 and reported a connection, and the device is then listed. */
  predicate AttemptSucceeds(deviceId: string, a: Attempt) {
    !a.disconnect.Errored? && !a.disconnect.TimeoutExpired?
    && a.connect.Exited? && a.connect.code == 0
    && AutoReconnect.ConnectSaid(a.connect.stdout)
    && ConnectionStatus(deviceId, a.devices).0
  }

  /** Python's text for a `subprocess.TimeoutExpired` of `cmd`. */
  function TimeoutText(cmd: string, seconds: string): string {
    "Command '['adb', '" + cmd + "']' timed out after " + seconds + " seconds"
  }

  /** The USB path of `try_reconnect`: an exception from either server
      command aborts with its text; otherwise the listing decides. */
  function RestartOutcome(deviceId: string, u: Restart): (r: (bool, string))
    ensures r.0 <==> u.kill.Exited? && u.start.Exited? && ConnectionStatus(deviceId, u.devices).0
  {
    match u.kill
    case TimeoutExpired => (false, "Failed to restart ADB: " + TimeoutText("kill-server", "5"))
    case Errored(e) => (false, "Failed to restart ADB: " + e)
    case Exited(_, _, _) =>
      match u.start
      case TimeoutExpired => (false, "Failed to restart ADB: " + TimeoutText("start-server", "10"))
      case Errored(e) => (false, "Failed to restart ADB: " + e)
      case Exited(_, _, _) =>
        var (connected, msg) := ConnectionStatus(deviceId, u.devices);
        if connected then (true, "ADB restarted, device reconnected")
        else (false, "ADB restarted but device not found: " + msg)
  }

  /** What `try_reconnect(maxAttempts)` reports: network serials retry
      disconnect/connect, USB serials restart the server once. */
  function ReconnectOutcome(deviceId: string, maxAttempts: int, attempts: int -> Attempt, u: Restart): (r: (bool, string))
    ensures ':' in deviceId ==>
      (r.0 <==> exists k :: 1 <= k <= maxAttempts && AttemptSucceeds(deviceId, attempts(k)))
    ensures ':' !in deviceId ==> r == RestartOutcome(deviceId, u)
  {
    if ':' in deviceId then
      if exists k :: 1 <= k <= maxAttempts && AttemptSucceeds(deviceId, attempts(k)) then
        (true, "Reconnected successfully")
      else (false, "Failed to reconnect after " + IntToString(maxAttempts) + " attempts")
    else RestartOutcome(deviceId, u)
  }

  /** Everything the recovery of one device observes: the first check,
      the reconnection commands and the check after reconnecting. */
  datatype RecoveryRuns = RecoveryRuns(
    now: int, devices: Run, ping: Run,
    attempts: int -> Attempt, restart: Restart,
    nowAfter: int, devicesAfter: Run, pingAfter: Run)

  /** `error_message or "Unknown error"`. */
  function ErrorText(h: Health): string {
    if h.errorMessage.Some? && h.errorMessage.value != [] then h.errorMessage.value else "Unknown error"
  }

  /** What `check_and_recover_device` reports. */
  function Recovery(deviceId: string, autoReconnect: bool, runs: RecoveryRuns): (r: (bool, string))
    ensures r.0 <==> (Healthy(Probe(deviceId, runs.now, runs.devices, runs.ping))
      || (autoReconnect
          && ReconnectOutcome(deviceId, DefaultReconnectAttempts, runs.attempts, runs.restart).0
          && Healthy(Probe(deviceId, runs.nowAfter, runs.devicesAfter, runs.pingAfter))))
  {
    var h := Probe(deviceId, runs.now, runs.devices, runs.ping);
    if Healthy(h) then (true, "Device healthy")
    else if autoReconnect then
      var (ok, msg) := ReconnectOutcome(deviceId, DefaultReconnectAttempts, runs.attempts, runs.restart);
      if ok then
        var h2 := Probe(deviceId, runs.nowAfter, runs.devicesAfter, runs.pingAfter);
        if Healthy(h2) then (true, "Device recovered")
        else (false, "Reconnected but still unhealthy: " + h2.errorMessage.GetOr("None"))
      else (false, "Device unhealthy and reconnect failed: " + msg)
    else (false, "Device unhealthy: " + ErrorText(h))
  }

  /** The fallbacks of the recovery messages never show: an unhealthy
      check always carries a non-empty reason, so neither "Unknown error"
      nor "None" is substituted for it. */
  lemma RecoveryReasonKnown(deviceId: string, runs: RecoveryRuns)
    ensures var h := Probe(deviceId, runs.now, runs.devices, runs.ping);
      !Healthy(h) ==> ErrorText(h) == h.errorMessage.value
    ensures var h := Probe(deviceId, runs.nowAfter, runs.devicesAfter, runs.pingAfter);
      !Healthy(h) ==> h.errorMessage.GetOr("None") == h.errorMessage.value
  {
  }

  /** `DeviceHealthChecker`: the device it watches and its last result. */
  class DeviceHealthChecker {
    const deviceId: string
    var lastHealth: Option<Health>

    constructor(deviceId: string)
      ensures this.deviceId == deviceId && lastHealth == None
    {
      this.deviceId := deviceId;
      lastHealth := None;
    }

    /** The last result is still fresh at time `now`. */
    predicate Fresh(now: int)
      reads this
    {
      lastHealth.Some? && lastHealth.value.lastCheck.Some?
      && now - lastHealth.value.lastCheck.value < CheckInterval
    }

    /** `get_health`: the cached result unless forced or stale, otherwise
        a fresh check, which is remembered. */
    method GetHealth(forceCheck: bool, now: int, devices: Run, ping: Run) returns (h: Health)
      modifies this
      ensures !forceCheck && old(Fresh(now)) ==> h == old(lastHealth).value && lastHealth == old(lastHealth)
      ensures forceCheck || !old(Fresh(now)) ==>
        h == Probe(deviceId, now, devices, ping) && lastHealth == Some(h)
    {
      if !forceCheck && Fresh(now) {
        return lastHealth.value;
      }
      h := Probe(deviceId, now, devices, ping);
      lastHealth := Some(h);
    }

    /** `try_reconnect`: network attempt `k` (from 1) runs `attempts(k)`
        and the loop stops at the first success; a USB device restarts the
        server instead. */
    method TryReconnect(maxAttempts: int, attempts: int -> Attempt, u: Restart)
      returns (ok: bool, msg: string, made: nat)
      ensures (ok, msg) == ReconnectOutcome(deviceId, maxAttempts, attempts, u)
      ensures made <= Max(maxAttempts, 0)
      ensures ':' in deviceId && ok ==> (1 <= made && AttemptSucceeds(deviceId, attempts(made))
        && forall k :: 1 <= k < made ==> !AttemptSucceeds(deviceId, attempts(k)))
      ensures ':' !in deviceId ==> made == 0
    {
      made := 0;
      if ':' !in deviceId {
        ok, msg := RestartOutcome(deviceId, u).0, RestartOutcome(deviceId, u).1;
        return;
      }
      var attempt := 1;
      while attempt <= maxAttempts
        invariant 1 <= attempt <= Max(maxAttempts, 0) + 1
        invariant made == attempt - 1
        invariant forall k :: 1 <= k < attempt ==> !AttemptSucceeds(deviceId, attempts(k))
        decreases maxAttempts - attempt
      {
        made := attempt;
        if AttemptSucceeds(deviceId, attempts(attempt)) {
          return true, "Reconnected successfully", made;
        }
        attempt := attempt + 1;
      }
      ok, msg := false, "Failed to reconnect after " + IntToString(maxAttempts) + " attempts";
    }
  }

  /** `check_and_recover_device`: a fresh checker, a forced check, and
      when unhealthy and allowed, a reconnection and a second check. */
  method CheckAndRecoverDevice(deviceId: string, autoReconnect: bool, runs: RecoveryRuns)
    returns (healthy: bool, msg: string)
    ensures (healthy, msg) == Recovery(deviceId, autoReconnect, runs)
  {
    var checker := new DeviceHealthChecker(deviceId);
    var h := checker.GetHealth(true, runs.now, runs.devices, runs.ping);
    if Healthy(h) {
      return true, "Device healthy";
    }
    if autoReconnect {
      var ok, reconnectMsg, _ := checker.TryReconnect(DefaultReconnectAttempts, runs.attempts, runs.restart);
      if ok {
        h := checker.GetHealth(true, runs.nowAfter, runs.devicesAfter, runs.pingAfter);
        if Healthy(h) {
          return true, "Device recovered";
        }
        return false, "Reconnected but still unhealthy: " + h.errorMessage.GetOr("None");
      }
      return false, "Device unhealthy and reconnect failed: " + reconnectMsg;
    }
    return false, "Device unhealthy: " + ErrorText(h);
  }

  /** `validate_device_before_command`: no device named means the default
      device and nothing is checked; otherwise an unrecoverable device is
      an error naming it and the reason. */
  method ValidateDeviceBeforeCommand(deviceId: Option<string>, runs: RecoveryRuns) returns (r: Result<()>)
    ensures deviceId.None? || deviceId.value == [] ==> r.Ok?
    ensures deviceId.Some? && deviceId.value != [] ==>
      (r.Ok? <==> Recovery(deviceId.value, true, runs).0)
      && (r.Err? ==> r.msg == "Device '" + deviceId.value + "' is not available: " + Recovery(deviceId.value, true, runs).1)
  {
    if deviceId.None? || deviceId.value == [] {
      return Ok(());
    }
    var healthy, msg := CheckAndRecoverDevice(deviceId.value, true, runs);
    if !healthy {
      return Err("Device '" + deviceId.value + "' is not available: " + msg);
    }
    r := Ok(());
  }
}
