/** Automatic reconnection of network ADB devices (`host:port` serials):
    a short-lived cache of the last time each device was seen online, the
    `adb devices` check and the disconnect/connect retry loop. */
module AutoReconnect {
  import opened Util

  /** Seconds during which a device seen online is not checked again. */
  const CacheTtl := 5

  /** Attempts `_reconnect_device` makes when called without an argument. */
  const DefaultReconnectAttempts := 2

  /** The (serial, state) pairs of the lines of a device listing, header
      excluded: the first two words of every line that has at least two.
      A blank line has no words, so it is skipped like the source skips it. */
  function Entries(lines: seq<string>): (r: seq<(string, string)>)
    ensures forall e :: e in r ==>
      exists i :: 0 <= i < |lines| && |Words(lines[i])| >= 2 && e == (Words(lines[i])[0], Words(lines[i])[1])
    ensures forall i :: 0 <= i < |lines| && |Words(lines[i])| >= 2 ==>
      (Words(lines[i])[0], Words(lines[i])[1]) in r
  {
    if |lines| == 0 then []
    else
      var w := Words(lines[0]);
      var rest := Entries(lines[1..]);
      assert forall i :: 1 <= i < |lines| ==> lines[i] == lines[1..][i - 1];
      (if |w| >= 2 then [(w[0], w[1])] else []) + rest
  }

  /** The entries of `adb devices` output: strip, split into lines and
      drop the first (the "List of devices attached" header). */
  function DeviceEntries(stdout: string): (r: seq<(string, string)>)
    ensures var lines := Split(Strip(stdout), '\n');
      forall i :: 1 <= i < |lines| && |Words(lines[i])| >= 2 ==>
        (Words(lines[i])[0], Words(lines[i])[1]) in r
    ensures var lines := Split(Strip(stdout), '\n');
      forall e :: e in r ==>
        exists i :: 1 <= i < |lines| && |Words(lines[i])| >= 2 && e == (Words(lines[i])[0], Words(lines[i])[1])
  {
    var lines := Split(Strip(stdout), '\n');
    assert forall i :: 1 <= i < |lines| ==> lines[i] == lines[1..][i - 1];
    Entries(lines[1..])
  }

  /** `_is_device_online`: the listing command exited with status 0 and
      lists the device in state `device`; a failure to run it counts as
      offline. */
  predicate IsDeviceOnline(deviceId: string, devices: Run) {
    devices.Exited? && devices.code == 0 && (deviceId, "device") in DeviceEntries(devices.stdout)
  }

  /** Only a listing that ran and exited with status 0 can show a device
      online, and the header line never counts as an entry. */
  lemma OnlineNeedsListing(deviceId: string, devices: Run)
    ensures IsDeviceOnline(deviceId, devices) ==> devices.Exited? && devices.code == 0
    ensures devices.Exited? && devices.code == 0 && Strip(devices.stdout) != [] && '\n' !in Strip(devices.stdout)
      ==> !IsDeviceOnline(deviceId, devices)
  {
    if devices.Exited? && devices.code == 0 && '\n' !in Strip(devices.stdout) {
      assert Split(Strip(devices.stdout), '\n') == [Strip(devices.stdout)];
      assert DeviceEntries(devices.stdout) == Entries([]);
    }
  }

  /** What `adb connect` printed counts as a connection. */
  predicate ConnectSaid(stdout: string) {
    var output := Lower(stdout);
    Contains(output, "connected") || Contains(output, "already connected")
  }

  /** The "already connected" test adds nothing: any text containing it
      contains "connected". */
  lemma AlreadyConnectedRedundant(stdout: string)
    ensures ConnectSaid(stdout) <==> Contains(Lower(stdout), "connected")
  {
    var output := Lower(stdout);
    if Contains(output, "already connected") {
      var i :| 0 <= i <= |output| && OccursAt(output, "already connected", i);
      assert output[i + 8..i + 17] == "already connected"[8..];
      assert OccursAt(output, "connected", i + 8);
    }
  }

  /** The three commands of one reconnection attempt. */
  datatype ReconnectAttempt = ReconnectAttempt(disconnect: Run, connect: Run, devices: Run)

  /** One attempt succeeds when disconnect and connect both ran (an
      exception from either abandons the attempt), connect reported a
      connection, whatever its exit status, and the device is then online. */
  predicate AttemptSucceeds(deviceId: string, a: ReconnectAttempt) {
    !a.disconnect.Errored? && !a.disconnect.TimeoutExpired?
    && a.connect.Exited? && ConnectSaid(a.connect.stdout)
    && IsDeviceOnline(deviceId, a.devices)
  }

  /** Some attempt among the first `maxAttempts` succeeds. */
  predicate ReconnectSucceeds(deviceId: string, maxAttempts: int, attempts: int -> ReconnectAttempt) {
    exists k :: 1 <= k <= maxAttempts && AttemptSucceeds(deviceId, attempts(k))
  }

  /** `_reconnect_device`: attempt `k` (numbered from 1) runs the commands
      `attempts(k)`; the loop stops at the first success. */
  method ReconnectDevice(deviceId: string, maxAttempts: int, attempts: int -> ReconnectAttempt)
    returns (ok: bool, made: nat)
    ensures ok <==> ReconnectSucceeds(deviceId, maxAttempts, attempts)
    ensures made <= Max(maxAttempts, 0)
    ensures ok ==> 1 <= made && AttemptSucceeds(deviceId, attempts(made))
    ensures ok ==> forall k :: 1 <= k < made ==> !AttemptSucceeds(deviceId, attempts(k))
    ensures !ok ==> made == Max(maxAttempts, 0)
  {
    made := 0;
    var attempt := 1;
    while attempt <= maxAttempts
      invariant 1 <= attempt <= Max(maxAttempts, 0) + 1
      invariant made == attempt - 1
      invariant forall k :: 1 <= k < attempt ==> !AttemptSucceeds(deviceId, attempts(k))
      decreases maxAttempts - attempt
    {
      made := attempt;
      if AttemptSucceeds(deviceId, attempts(attempt)) {
        return true, made;
      }
      attempt := attempt + 1;
    }
    ok := false;
  }

  /** A serial the reconnection logic looks after: present, non-empty and
      of the network form `host:port`. */
  predicate NetworkSerial(deviceId: Option<string>) {
    deviceId.Some? && ':' in deviceId.value
  }

  /** The cache of `ensure_device_connected`: for every network device,
      the time it was last confirmed online. */
  class ConnectionCache {
    var lastOnline: map<string, int>

    constructor()
      ensures lastOnline == map[]
    {
      lastOnline := map[];
    }

    /** The device was confirmed within the last `CacheTtl` seconds. */
    predicate Recent(deviceId: string, now: int)
      reads this
    {
      deviceId in lastOnline && now - lastOnline[deviceId] < CacheTtl
    }

    /** `clear_connection_cache`. */
    method Clear()
      modifies this
      ensures lastOnline == map[]
    {
      lastOnline := map[];
    }

    /** `ensure_device_connected`: USB serials and recently confirmed
        devices are left alone; otherwise an online device is recorded,
        and an offline one is reconnected (two attempts) and recorded, or
        forgotten with an error when reconnection fails. `probe` is the
        first `adb devices` run. */
    method EnsureDeviceConnected(deviceId: Option<string>, forceCheck: bool, now: int,
                                 probe: Run, attempts: int -> ReconnectAttempt)
      returns (r: Result<()>)
      modifies this
      ensures !NetworkSerial(deviceId) ==> r.Ok? && lastOnline == old(lastOnline)
      ensures NetworkSerial(deviceId) && !forceCheck && old(Recent(deviceId.value, now))
        ==> r.Ok? && lastOnline == old(lastOnline)
      ensures NetworkSerial(deviceId) && (forceCheck || !old(Recent(deviceId.value, now))) ==>
        var id := deviceId.value;
        (r.Ok? <==> IsDeviceOnline(id, probe) || ReconnectSucceeds(id, DefaultReconnectAttempts, attempts))
        && (r.Ok? ==> lastOnline == old(lastOnline)[id := now])
        && (r.Err? ==> lastOnline == old(lastOnline) - {id} && r.msg == "Failed to reconnect device: " + id)
    {
      if !NetworkSerial(deviceId) {
        return Ok(());
      }
      var id := deviceId.value;
      if !forceCheck && Recent(id, now) {
        return Ok(());
      }
      if IsDeviceOnline(id, probe) {
        lastOnline := lastOnline[id := now];
        return Ok(());
      }
      var ok, _ := ReconnectDevice(id, DefaultReconnectAttempts, attempts);
      if ok {
        lastOnline := lastOnline[id := now];
        r := Ok(());
      } else {
        lastOnline := lastOnline - {id};
        r := Err("Failed to reconnect device: " + id);
      }
    }
  }
}
