/** The device scanner: every scan probes the FRP port range, classifies
    what listens there as a phone or a PC, registers new devices (after
    reserving their port with the port manager), refreshes known ones and
    takes the ones that disappeared offline. The outcome of `netstat`, of
    `adb connect`, of the HTTP probe and of the `getprop` queries are inputs
    (one `PortProbe` per port). */
module DeviceScanner {
  import opened Util
  import PM = PortManager
  import DeviceServer

  const MobilePortStart := 6100
  const MobilePortEnd := 6199
  const PcPortStart := 6200
  const PcPortEnd := 6299

  function GenerateDeviceId(frpPort: int): (r: string)
    ensures r == "device_" + IntToString(frpPort)
  {
    "device_" + IntToString(frpPort)
  }

  /** The scanner and the WebSocket endpoint name a device on a port alike. */
  lemma ScannerAgreesWithServer(frpPort: int)
    ensures GenerateDeviceId(frpPort) == DeviceServer.DeviceIdForPort(frpPort)
  {
  }

  lemma GenerateDeviceIdInjective(p: int, q: int)
    requires GenerateDeviceId(p) == GenerateDeviceId(q)
    ensures p == q
  {
    DeviceServer.DeviceIdForPortInjective(p, q);
  }

  function ReplaceChar(s: string, from: char, to: char): (r: string)
    ensures |r| == |s|
    ensures forall i :: 0 <= i < |s| ==> r[i] == if s[i] == from then to else s[i]
  {
    if s == [] then [] else [if s[0] == from then to else s[0]] + ReplaceChar(s[1..], from, to)
  }

  /** "<model with spaces as dashes>-<port>", or "device-<port>" without a model. */
  function DefaultDeviceName(model: Option<string>, port: int): (r: string)
    ensures model.Some? && model.value != "" ==>
      r == ReplaceChar(model.value, ' ', '-') + "-" + IntToString(port) && ' ' !in r[..|model.value|]
    ensures !(model.Some? && model.value != "") ==> r == "device-" + IntToString(port)
  {
    if model.Some? && model.value != "" then
      var clean := ReplaceChar(model.value, ' ', '-');
      assert (clean + "-" + IntToString(port))[..|model.value|] == clean;
      clean + "-" + IntToString(port)
    else "device-" + IntToString(port)
  }

  /** `detect_device_type`: the type a registered WebSocket device reported
      (when non-empty), else the port range, else the HTTP health probe
      (`device_type` of a 200 reply, "pc" when absent), else mobile.
      `httpReply` is None when the probe failed or did not answer 200. */
  function DetectDeviceType(port: int, wsType: Option<string>, httpReply: Option<Option<string>>): (r: string)
    ensures wsType.Some? && wsType.value != "" ==> r == wsType.value
    ensures !(wsType.Some? && wsType.value != "") && MobilePortStart <= port <= MobilePortEnd ==> r == "mobile"
    ensures !(wsType.Some? && wsType.value != "") && PcPortStart <= port <= PcPortEnd ==> r == "pc"
    ensures !(wsType.Some? && wsType.value != "") && !(MobilePortStart <= port <= PcPortEnd) && httpReply.None? ==> r == "mobile"
    ensures !(wsType.Some? && wsType.value != "") && !(MobilePortStart <= port <= PcPortEnd) && httpReply.Some? ==>
      r == (if httpReply.value.Some? then httpReply.value.value else "pc")
  {
    if wsType.Some? && wsType.value != "" then wsType.value
    else if MobilePortStart <= port <= MobilePortEnd then "mobile"
    else if PcPortStart <= port <= PcPortEnd then "pc"
    else if httpReply.Some? then httpReply.value.GetOr("pc")
    else if PcPortStart <= port <= PcPortEnd then "pc"
    else "mobile"
  }

  /** Without a WebSocket record or HTTP reply, ports classify by range and
      default to mobile. */
  lemma PortRangeClassification(port: int)
    ensures MobilePortStart <= port <= MobilePortEnd ==> DetectDeviceType(port, None, None) == "mobile"
    ensures PcPortStart <= port <= PcPortEnd ==> DetectDeviceType(port, None, None) == "pc"
    ensures !(MobilePortStart <= port <= PcPortEnd) ==> DetectDeviceType(port, None, None) == "mobile"
  {
  }

  datatype Specs = Specs(model: Option<string>, androidVersion: Option<string>, screenResolution: Option<string>, battery: Option<int>)

  /** What the probes of one port observed. */
  datatype PortProbe = PortProbe(
    listening: bool,
    wsType: Option<string>,
    httpReply: Option<Option<string>>,
    adbSerial: Option<string>,
    specs: Specs)

  datatype Found = Found(port: int, deviceId: string, adbSerial: Option<string>, deviceType: string)

  /** `scan_port`: nothing unless the port listens; a phone needs a working
      ADB connection; a port classified mobile but at or above the PC range
      start is reported as a PC without ADB serial. */
  function ScanPort(port: int, probe: PortProbe): (r: Option<Found>)
    ensures r.Some? ==> probe.listening && r.value.port == port && r.value.deviceId == GenerateDeviceId(port)
    ensures r.Some? && r.value.deviceType == "mobile" ==> r.value.adbSerial.Some? && port < PcPortStart
    ensures r.Some? && port >= PcPortStart && DetectDeviceType(port, probe.wsType, probe.httpReply) == "mobile" ==>
      r.value.deviceType == "pc" && r.value.adbSerial.None?
  {
    if !probe.listening then None
    else
      var deviceType := DetectDeviceType(port, probe.wsType, probe.httpReply);
      if deviceType == "mobile" then
        if port >= PcPortStart then Some(Found(port, GenerateDeviceId(port), None, "pc"))
        else if probe.adbSerial.None? || probe.adbSerial.value == "" then None
        else Some(Found(port, GenerateDeviceId(port), probe.adbSerial, deviceType))
      else Some(Found(port, GenerateDeviceId(port), None, deviceType))
  }

  datatype ScannedDevice = ScannedDevice(
    deviceId: string,
    deviceName: string,
    frpPort: int,
    adbSerial: Option<string>,
    deviceType: string,
    lastSeen: int,
    isOnline: bool,
    specs: Specs)

  /** The record a scan creates for a new device: PCs get fixed specs and the
      name "PC_<port>", phones their ADB specs and the default name. */
  function NewScannedDevice(f: Found, probe: PortProbe, now: int): (d: ScannedDevice)
    ensures d.deviceId == f.deviceId && d.frpPort == f.port && d.isOnline
    ensures f.deviceType == "pc" ==> d.deviceName == "PC_" + IntToString(f.port) && d.adbSerial.None?
  {
    if f.deviceType == "pc" then
      ScannedDevice(f.deviceId, "PC_" + IntToString(f.port), f.port, None, f.deviceType, now, true,
        Specs(Some("PC"), Some("N/A"), Some("unknown"), Some(100)))
    else
      ScannedDevice(f.deviceId, DefaultDeviceName(probe.specs.model, f.port), f.port,
        if f.deviceType == "mobile" then f.adbSerial else None, f.deviceType, now, true, probe.specs)
  }

  /** The ids a scan of `probes` (one per port from `start`) finds. */
  function FoundIds(start: int, probes: seq<PortProbe>): (r: set<string>)
  {
    if probes == [] then {}
    else
      var k := |probes| - 1;
      FoundIds(start, probes[..k]) + (if ScanPort(start + k, probes[k]).Some? then {GenerateDeviceId(start + k)} else {})
  }

  /** A scan finds exactly the ids of the ports where `ScanPort` reports something. */
  lemma FoundIdsMembers(start: int, probes: seq<PortProbe>, id: string)
    ensures id in FoundIds(start, probes) <==>
      exists i :: 0 <= i < |probes| && ScanPort(start + i, probes[i]).Some? && id == GenerateDeviceId(start + i)
  {
    FoundIdsSound(start, probes, id);
    if exists i :: 0 <= i < |probes| && ScanPort(start + i, probes[i]).Some? && id == GenerateDeviceId(start + i) {
      var i :| 0 <= i < |probes| && ScanPort(start + i, probes[i]).Some? && id == GenerateDeviceId(start + i);
      FoundIdsComplete(start, probes, i);
    }
  }

  lemma {:induction false} FoundIdsSound(start: int, probes: seq<PortProbe>, id: string)
    ensures id in FoundIds(start, probes) ==>
      exists i :: 0 <= i < |probes| && ScanPort(start + i, probes[i]).Some? && id == GenerateDeviceId(start + i)
  {
    if probes != [] && id in FoundIds(start, probes) {
      var k := |probes| - 1;
      if id in FoundIds(start, probes[..k]) {
        FoundIdsSound(start, probes[..k], id);
        var i :| 0 <= i < k && ScanPort(start + i, probes[..k][i]).Some? && id == GenerateDeviceId(start + i);
        assert probes[..k][i] == probes[i];
      } else {
        assert ScanPort(start + k, probes[k]).Some? && id == GenerateDeviceId(start + k);
      }
    }
  }

  lemma {:induction false} FoundIdsComplete(start: int, probes: seq<PortProbe>, i: int)
    requires 0 <= i < |probes| && ScanPort(start + i, probes[i]).Some?
    ensures GenerateDeviceId(start + i) in FoundIds(start, probes)
  {
    var k := |probes| - 1;
    if i < k {
      assert probes[..k][i] == probes[i];
      FoundIdsComplete(start, probes[..k], i);
    }
  }

  /** The devices after the offline pass has visited every id not in `rest`. */
  ghost function Offlined(devices: map<string, ScannedDevice>, rest: set<string>, found: set<string>): map<string, ScannedDevice> {
    map id | id in devices ::
      if id !in rest && id !in found && devices[id].isOnline then devices[id].(isOnline := false) else devices[id]
  }

  /** The port entries left after the offline pass has visited every id not in `rest`. */
  ghost function PortsKept(ports: map<int, string>, rest: set<string>, found: set<string>): map<int, string> {
    map p | p in ports && (ports[p] in found || ports[p] in rest) :: ports[p]
  }

  /** The scanner's invariant, on plain maps: records are keyed by the id
      their port gives them, and a port entry names an online device on
      that port. */
  ghost predicate Consistent(devices: map<string, ScannedDevice>, ports: map<int, string>) {
    && (forall id :: id in devices ==> devices[id].deviceId == id && id == GenerateDeviceId(devices[id].frpPort))
    && (forall p :: p in ports ==> ports[p] in devices && devices[ports[p]].frpPort == p && devices[ports[p]].isOnline)
  }

  /** One id visited by the offline pass: it is taken offline when it was
      online and not found, and no other record changes. */
  lemma OfflinedStep(devices0: map<string, ScannedDevice>, rest: set<string>, found: set<string>, id: string)
    requires id in rest && id in devices0
    ensures id !in found && devices0[id].isOnline ==>
      Offlined(devices0, rest - {id}, found) == Offlined(devices0, rest, found)[id := devices0[id].(isOnline := false)]
    ensures !(id !in found && devices0[id].isOnline) ==>
      Offlined(devices0, rest - {id}, found) == Offlined(devices0, rest, found)
  {
  }

  /** Under the invariant a device's only possible port entry is its own port. */
  lemma PortEntryOf(devices0: map<string, ScannedDevice>, ports0: map<int, string>, id: string)
    requires Consistent(devices0, ports0) && id in devices0
    ensures forall p :: p in ports0 ==> (ports0[p] == id <==> p == devices0[id].frpPort)
    ensures forall p :: p in ports0 && ports0[p] == id ==> devices0[id].isOnline
  {
    var d := devices0[id];
    forall p | p in ports0 && ports0[p] == id ensures p == d.frpPort {
      GenerateDeviceIdInjective(p, d.frpPort);
    }
    forall p | p in ports0 && p == d.frpPort ensures ports0[p] == id {
      GenerateDeviceIdInjective(p, devices0[ports0[p]].frpPort);
    }
  }

  /** One id visited by the offline pass: taking it offline drops exactly
      its own port entry, and otherwise no entry changes. */
  lemma PortsKeptStep(devices0: map<string, ScannedDevice>, ports0: map<int, string>, rest: set<string>, found: set<string>, id: string)
    requires Consistent(devices0, ports0)
    requires id in rest && id in devices0
    ensures id !in found && devices0[id].isOnline ==>
      PortsKept(ports0, rest - {id}, found) == PortsKept(ports0, rest, found) - {devices0[id].frpPort}
    ensures !(id !in found && devices0[id].isOnline) ==>
      PortsKept(ports0, rest - {id}, found) == PortsKept(ports0, rest, found)
  {
    PortEntryOf(devices0, ports0, id);
    if id !in found && devices0[id].isOnline {
      PortsDropped(ports0, rest, found, id, devices0[id].frpPort);
    } else {
      PortsUnchanged(ports0, rest, found, id);
    }
  }

  lemma PortsDropped(ports0: map<int, string>, rest: set<string>, found: set<string>, id: string, port: int)
    requires id !in found
    requires forall p :: p in ports0 ==> (ports0[p] == id <==> p == port)
    ensures PortsKept(ports0, rest - {id}, found) == PortsKept(ports0, rest, found) - {port}
  {
    var a, b := PortsKept(ports0, rest - {id}, found), PortsKept(ports0, rest, found) - {port};
    forall p ensures p in a <==> p in b {
    }
    assert a.Keys == b.Keys;
  }

  lemma PortsUnchanged(ports0: map<int, string>, rest: set<string>, found: set<string>, id: string)
    requires id in found || forall p :: p in ports0 ==> ports0[p] != id
    ensures PortsKept(ports0, rest - {id}, found) == PortsKept(ports0, rest, found)
  {
    var a, b := PortsKept(ports0, rest - {id}, found), PortsKept(ports0, rest, found);
    forall p ensures p in a <==> p in b {
    }
    assert a.Keys == b.Keys;
  }

  /** Before the offline pass nothing has changed. */
  lemma OfflinePassStart(devices0: map<string, ScannedDevice>, ports0: map<int, string>, found: set<string>)
    requires Consistent(devices0, ports0)
    ensures Offlined(devices0, devices0.Keys, found) == devices0
    ensures PortsKept(ports0, devices0.Keys, found) == ports0
  {
    var d := Offlined(devices0, devices0.Keys, found);
    assert d.Keys == devices0.Keys;
    forall id | id in d ensures d[id] == devices0[id] {
    }
    var p := PortsKept(ports0, devices0.Keys, found);
    forall q | q in ports0 ensures q in p && p[q] == ports0[q] {
      assert ports0[q] in devices0.Keys;
    }
  }

  /** Every intermediate state of the offline pass is consistent. */
  lemma OfflinedConsistent(devices0: map<string, ScannedDevice>, ports0: map<int, string>, rest: set<string>, found: set<string>)
    requires Consistent(devices0, ports0)
    ensures Consistent(Offlined(devices0, rest, found), PortsKept(ports0, rest, found))
  {
    var d := Offlined(devices0, rest, found);
    var ports := PortsKept(ports0, rest, found);
    forall p | p in ports ensures ports[p] in d && d[ports[p]].frpPort == p && d[ports[p]].isOnline {
      assert ports[p] == ports0[p];
    }
  }

  /** What the absorbing pass keeps true about the devices, relative to
      the devices before the scan. */
  ghost predicate Grown(d0: map<string, ScannedDevice>, d: map<string, ScannedDevice>, found: set<string>) {
    && d0.Keys <= d.Keys <= d0.Keys + found
    && (forall id :: id in d && id in found ==> d[id].isOnline)
    && (forall id :: id in d && id !in found ==> d[id] == d0[id])
    && (forall id :: id in d0 ==> d[id].deviceName == d0[id].deviceName)
  }

  lemma GrownStep(d0: map<string, ScannedDevice>, d1: map<string, ScannedDevice>, d2: map<string, ScannedDevice>,
                  found: set<string>, f: Found, probe: PortProbe, now: int)
    requires Grown(d0, d1, found)
    requires f.deviceId in d1 ==> d2 == d1[f.deviceId := d1[f.deviceId].(lastSeen := now, isOnline := true)]
    requires f.deviceId !in d1 ==> d2 == d1 || d2 == d1[f.deviceId := NewScannedDevice(f, probe, now)]
    ensures Grown(d0, d2, found + {f.deviceId})
  {
  }

  lemma FoundIdsStep(start: int, probes: seq<PortProbe>, i: nat)
    requires i < |probes|
    ensures FoundIds(start, probes[..i + 1]) ==
      FoundIds(start, probes[..i]) + (if ScanPort(start + i, probes[i]).Some? then {GenerateDeviceId(start + i)} else {})
  {
    assert probes[..i + 1][..i] == probes[..i];
  }

  /** Whether `allocate_port(id, port, force=False)` succeeds: the device
      already holds this port, or nobody else holds it once the device's
      own previous port has been given back. */
  predicate Granted(allocations: map<int, PM.Allocation>, devicePorts: map<string, int>, id: string, port: int) {
    || (id in devicePorts && devicePorts[id] == port)
    || port !in (if id in devicePorts then allocations - {devicePorts[id]} else allocations)
  }

  /** The devices the offline pass takes offline: online and not found. */
  function Vanished(devices: map<string, ScannedDevice>, found: set<string>): (r: set<string>)
    ensures forall id :: id in r <==> id in devices && id !in found && devices[id].isOnline
  {
    set id | id in devices && id !in found && devices[id].isOnline
  }

  /** The allocations left once every device of `gone` has given back its port. */
  ghost function AllocationsKept(allocations: map<int, PM.Allocation>, gone: set<string>): map<int, PM.Allocation> {
    map p | p in allocations && allocations[p].deviceId !in gone :: allocations[p]
  }

  /** One more device gives back its port, by id. */
  lemma ReleaseStep(allocations: map<int, PM.Allocation>, ports: map<string, int>,
                    allocations0: map<int, PM.Allocation>, ports0: map<string, int>, gone: set<string>, id: string)
    requires PM.Inverse(allocations, ports)
    requires allocations == AllocationsKept(allocations0, gone) && ports == ports0 - gone
    ensures id in ports ==>
      allocations - {ports[id]} == AllocationsKept(allocations0, gone + {id}) && ports - {id} == ports0 - (gone + {id})
    ensures id !in ports ==>
      allocations == AllocationsKept(allocations0, gone + {id}) && ports == ports0 - (gone + {id})
  {
    var a := AllocationsKept(allocations0, gone + {id});
    if id in ports {
      forall p ensures p in allocations - {ports[id]} <==> p in a {
        if p in allocations && allocations[p].deviceId == id {
          assert ports[id] == p;
        }
      }
      assert (allocations - {ports[id]}).Keys == a.Keys;
    } else {
      forall p ensures p in allocations <==> p in a {
      }
      assert allocations.Keys == a.Keys;
    }
  }

  /** A device registered under its port both with the port manager and in
      the scanner's port table. */
  predicate Registered(devices: map<string, ScannedDevice>, ports: map<int, string>, devicePorts: map<string, int>, id: string)
    requires id in devices
  {
    && id in devicePorts && devicePorts[id] == devices[id].frpPort
    && devices[id].frpPort in ports && ports[devices[id].frpPort] == id
  }

  /** Absorbing one port keeps every device added by the scan so far
      registered, and registers the one it adds. */
  lemma RegisteredStep(d0: map<string, ScannedDevice>,
                       d1: map<string, ScannedDevice>, p1: map<int, string>, dp1: map<string, int>,
                       d2: map<string, ScannedDevice>, p2: map<int, string>, dp2: map<string, int>,
                       f: Found, probe: PortProbe, now: int)
    requires Consistent(d1, p1) && f.deviceId == GenerateDeviceId(f.port)
    requires forall id :: id in d1 && id !in d0 ==> Registered(d1, p1, dp1, id)
    requires f.deviceId in d1 ==>
      d2 == d1[f.deviceId := d1[f.deviceId].(lastSeen := now, isOnline := true)] && p2 == p1 && dp2 == dp1
    requires f.deviceId !in d1 ==>
      || (d2 == d1 && p2 == p1)
      || (d2 == d1[f.deviceId := NewScannedDevice(f, probe, now)] && p2 == p1[f.port := f.deviceId]
          && f.deviceId in dp2 && dp2[f.deviceId] == f.port)
    requires forall id :: id != f.deviceId ==> (id in dp2 <==> id in dp1) && (id in dp2 ==> dp2[id] == dp1[id])
    ensures forall id :: id in d2 && id !in d0 ==> Registered(d2, p2, dp2, id)
  {
    forall id | id in d2 && id !in d0 ensures Registered(d2, p2, dp2, id) {
      if id != f.deviceId {
        assert id in d1 && d2[id] == d1[id];
        assert f.deviceId !in d1 ==> d1[id].frpPort != f.port;
      }
    }
  }

  /** The offline pass leaves the devices the scan added registered, and
      the devices that vanished without a port. */
  lemma OfflinePassRegistration(d0: map<string, ScannedDevice>,
                                d1: map<string, ScannedDevice>, p1: map<int, string>, dp1: map<string, int>,
                                d2: map<string, ScannedDevice>, p2: map<int, string>, dp2: map<string, int>,
                                found: set<string>)
    requires Grown(d0, d1, found) && Consistent(d2, p2)
    requires forall id :: id in d1 && id !in d0 ==> Registered(d1, p1, dp1, id)
    requires d2.Keys == d1.Keys
    requires forall id :: id in d2 ==>
      d2[id] == if id !in found && d1[id].isOnline then d1[id].(isOnline := false) else d1[id]
    requires forall p :: p in p2 <==> p in p1 && p1[p] in found
    requires dp2 == dp1 - Vanished(d1, found)
    ensures d0.Keys <= d2.Keys <= d0.Keys + found
    ensures forall id :: id in d2 ==> (d2[id].isOnline <==> id in found)
    ensures forall id :: id in d2 && !d2[id].isOnline ==> d2[id].frpPort !in p2
    ensures forall id :: id in d0 ==> d2[id].deviceName == d0[id].deviceName
    ensures forall id :: id in d2 && id !in d0 ==> Registered(d2, p2, dp2, id)
    ensures forall id :: id in d0 && d0[id].isOnline && id !in found ==> id !in dp2
  {
    forall id | id in d2 && id !in d0 ensures Registered(d2, p2, dp2, id) {
      assert id in found && d2[id] == d1[id];
      var p := d1[id].frpPort;
      assert p in p2;
      assert d2[p2[p]].frpPort == p;
    }
  }

  /** The port-manager side of one id visited by the offline pass. */
  lemma ReleasePassStep(allocations: map<int, PM.Allocation>, ports: map<string, int>,
                        allocations0: map<int, PM.Allocation>, ports0: map<string, int>,
                        devices0: map<string, ScannedDevice>, found: set<string>, rest: set<string>, id: string)
    requires PM.Inverse(allocations, ports) && id in rest
    requires allocations == AllocationsKept(allocations0, Vanished(devices0, found) - rest)
    requires ports == ports0 - (Vanished(devices0, found) - rest)
    ensures var gone := Vanished(devices0, found) - (rest - {id});
      id in Vanished(devices0, found) && id in ports ==>
        allocations - {ports[id]} == AllocationsKept(allocations0, gone) && ports - {id} == ports0 - gone
    ensures var gone := Vanished(devices0, found) - (rest - {id});
      id in Vanished(devices0, found) && id !in ports ==>
        allocations == AllocationsKept(allocations0, gone) && ports == ports0 - gone
    ensures var gone := Vanished(devices0, found) - (rest - {id});
      id !in Vanished(devices0, found) ==>
        allocations == AllocationsKept(allocations0, gone) && ports == ports0 - gone
  {
    var before := Vanished(devices0, found) - rest;
    if id in Vanished(devices0, found) {
      assert Vanished(devices0, found) - (rest - {id}) == before + {id};
      ReleaseStep(allocations, ports, allocations0, ports0, before, id);
    } else {
      assert Vanished(devices0, found) - (rest - {id}) == before;
    }
  }

  class DeviceScanner {
    const portRangeStart: int
    const portRangeEnd: int
    var devices: map<string, ScannedDevice>
    var portToDevice: map<int, string>

    ghost predicate Valid()
      reads this
    {
      Consistent(devices, portToDevice)
    }

    constructor (portRangeStart: int, portRangeEnd: int)
      ensures Valid()
      ensures this.portRangeStart == portRangeStart && this.portRangeEnd == portRangeEnd
      ensures devices == map[] && portToDevice == map[]
    {
      this.portRangeStart := portRangeStart;
      this.portRangeEnd := portRangeEnd;
      devices := map[];
      portToDevice := map[];
    }

    /** Handles the result of one port: a new device is added only if the
        port manager grants it the port; a known one is seen again and online. */
    method Absorb(f: Found, probe: PortProbe, pm: PM.PortManager, now: int)
      requires Valid() && pm.Valid()
      requires f.deviceId == GenerateDeviceId(f.port)
      modifies this, pm
      ensures Valid() && pm.Valid()
      ensures f.deviceId in old(devices) ==>
        && devices == old(devices)[f.deviceId := old(devices)[f.deviceId].(lastSeen := now, isOnline := true)]
        && portToDevice == old(portToDevice)
        && pm.portAllocations == old(pm.portAllocations) && pm.devicePorts == old(pm.devicePorts)
      ensures f.deviceId !in old(devices) && Granted(old(pm.portAllocations), old(pm.devicePorts), f.deviceId, f.port) ==>
        && devices == old(devices)[f.deviceId := NewScannedDevice(f, probe, now)]
        && portToDevice == old(portToDevice)[f.port := f.deviceId]
        && f.deviceId in pm.devicePorts && pm.devicePorts[f.deviceId] == f.port
      ensures f.deviceId !in old(devices) && !Granted(old(pm.portAllocations), old(pm.devicePorts), f.deviceId, f.port) ==>
        devices == old(devices) && portToDevice == old(portToDevice)
      // no other device's port registration changes
      ensures forall id :: id != f.deviceId ==>
        (id in pm.devicePorts <==> id in old(pm.devicePorts)) && (id in pm.devicePorts ==> pm.devicePorts[id] == old(pm.devicePorts)[id])
    {
      if f.deviceId !in devices {
        var success, message := pm.AllocatePort(f.deviceId, f.port, Some(f.deviceId), false, now);
        if !success {
          return;
        }
        devices := devices[f.deviceId := NewScannedDevice(f, probe, now)];
        portToDevice := portToDevice[f.port := f.deviceId];
      } else {
        var d := devices[f.deviceId];
        devices := devices[f.deviceId := d.(lastSeen := now, isOnline := true)];
      }
    }

    /** Takes offline every online device that the scan did not find: its
        port is released with the port manager and its port entry dropped. */
    method MarkOffline(found: set<string>, pm: PM.PortManager)
      requires Valid() && pm.Valid()
      modifies this, pm
      ensures Valid() && pm.Valid()
      ensures devices.Keys == old(devices).Keys
      ensures forall id :: id in devices ==>
        devices[id] == if id !in found && old(devices)[id].isOnline then old(devices)[id].(isOnline := false) else old(devices)[id]
      ensures forall p :: p in portToDevice <==> p in old(portToDevice) && old(portToDevice)[p] in found
      // exactly the vanished devices give back their ports
      ensures pm.devicePorts == old(pm.devicePorts) - Vanished(old(devices), found)
      ensures pm.portAllocations == AllocationsKept(old(pm.portAllocations), Vanished(old(devices), found))
    {
      var rest := devices.Keys;
      ghost var devices0 := devices;
      ghost var ports0 := portToDevice;
      ghost var allocations0, devicePorts0 := pm.portAllocations, pm.devicePorts;
      OfflinePassStart(devices0, ports0, found);
      assert pm.portAllocations == AllocationsKept(allocations0, {});
      assert pm.devicePorts == devicePorts0 - {};
      while rest != {}
        invariant Valid() && pm.Valid()
        invariant rest <= devices0.Keys
        invariant devices == Offlined(devices0, rest, found)
        invariant portToDevice == PortsKept(ports0, rest, found)
        invariant pm.devicePorts == devicePorts0 - (Vanished(devices0, found) - rest)
        invariant pm.portAllocations == AllocationsKept(allocations0, Vanished(devices0, found) - rest)
        decreases rest
      {
        var id := Pick(rest);
        var d := devices[id];
        OfflinedStep(devices0, rest, found, id);
        PortsKeptStep(devices0, ports0, rest, found, id);
        OfflinedConsistent(devices0, ports0, rest - {id}, found);
        ReleasePassStep(pm.portAllocations, pm.devicePorts, allocations0, devicePorts0, devices0, found, rest, id);
        if id !in found && d.isOnline {
          assert id != "" by {
            assert id == GenerateDeviceId(devices0[id].frpPort);
          }
          var _ := pm.ReleasePort(Some(id), None);
          portToDevice := portToDevice - {d.frpPort};
          devices := devices[id := d.(isOnline := false)];
        }
        rest := rest - {id};
      }
      assert Vanished(devices0, found) - {} == Vanished(devices0, found);
    }

    /** The first half of a scan: every port of the range is probed in
        ascending order and what is found is absorbed. */
    method AbsorbAll(probes: seq<PortProbe>, pm: PM.PortManager, now: int) returns (found: set<string>)
      requires Valid() && pm.Valid()
      modifies this, pm
      ensures Valid() && pm.Valid()
      ensures found == FoundIds(portRangeStart, probes)
      ensures old(devices).Keys <= devices.Keys <= old(devices).Keys + found
      ensures forall id :: id in devices && id in found ==> devices[id].isOnline
      ensures forall id :: id in devices && id !in found ==> devices[id] == old(devices)[id]
      ensures forall id :: id in old(devices) ==> devices[id].deviceName == old(devices)[id].deviceName
      ensures forall id :: id in devices && id !in old(devices) ==> Registered(devices, portToDevice, pm.devicePorts, id)
    {
      var i := 0;
      found := {};
      while i < |probes|
        invariant 0 <= i <= |probes|
        invariant Valid() && pm.Valid()
        invariant found == FoundIds(portRangeStart, probes[..i])
        invariant Grown(old(devices), devices, found)
        invariant forall id :: id in devices && id !in old(devices) ==> Registered(devices, portToDevice, pm.devicePorts, id)
      {
        FoundIdsStep(portRangeStart, probes, i);
        var r := ScanPort(portRangeStart + i, probes[i]);
        if r.Some? {
          ghost var before, ports1, dp1 := devices, portToDevice, pm.devicePorts;
          Absorb(r.value, probes[i], pm, now);
          GrownStep(old(devices), before, devices, found, r.value, probes[i], now);
          RegisteredStep(old(devices), before, ports1, dp1, devices, portToDevice, pm.devicePorts, r.value, probes[i], now);
          found := found + {r.value.deviceId};
        }
        i := i + 1;
      }
      assert probes[..i] == probes;
    }

    /** One full scan of [portRangeStart, portRangeEnd], `probes[i]` being
        what was observed on port `portRangeStart + i`. */
    method ScanOnce(probes: seq<PortProbe>, pm: PM.PortManager, now: int)
      requires Valid() && pm.Valid()
      requires |probes| == if portRangeEnd < portRangeStart then 0 else portRangeEnd - portRangeStart + 1
      modifies this, pm
      ensures Valid() && pm.Valid()
      ensures old(devices).Keys <= devices.Keys <= old(devices).Keys + FoundIds(portRangeStart, probes)
      // found devices are online, all others offline, and an offline device has no port entry
      ensures forall id :: id in devices ==> (devices[id].isOnline <==> id in FoundIds(portRangeStart, probes))
      ensures forall id :: id in devices && !devices[id].isOnline ==> devices[id].frpPort !in portToDevice
      // names of known devices are kept
      ensures forall id :: id in old(devices) ==> devices[id].deviceName == old(devices)[id].deviceName
      // a new device holds its port, with the port manager and in the port table
      ensures forall id :: id in devices && id !in old(devices) ==> Registered(devices, portToDevice, pm.devicePorts, id)
      // a device that was online and was not found has given back its port
      ensures forall id :: id in old(devices) && old(devices)[id].isOnline && id !in FoundIds(portRangeStart, probes) ==>
        id !in pm.devicePorts
    {
      var found := AbsorbAll(probes, pm, now);
      ghost var d1, p1, dp1 := devices, portToDevice, pm.devicePorts;
      MarkOffline(found, pm);
      OfflinePassRegistration(old(devices), d1, p1, dp1, devices, portToDevice, pm.devicePorts, found);
    }

    /** The online devices, with their records. */
    function GetOnlineDevices(): (r: map<string, ScannedDevice>)
      reads this
      ensures r.Keys <= devices.Keys
      ensures forall id :: id in r <==> id in devices && devices[id].isOnline
      ensures forall id :: id in r ==> r[id] == devices[id]
    {
      map id | id in devices && devices[id].isOnline :: devices[id]
    }

    /** Renames a known device and changes nothing else. */
    method UpdateDeviceName(deviceId: string, newName: string) returns (ok: bool)
      requires Valid()
      modifies this
      ensures Valid() && portToDevice == old(portToDevice)
      ensures ok == (deviceId in old(devices))
      ensures ok ==> devices == old(devices)[deviceId := old(devices)[deviceId].(deviceName := newName)]
      ensures !ok ==> devices == old(devices)
    {
      if deviceId !in devices {
        return false;
      }
      devices := devices[deviceId := devices[deviceId].(deviceName := newName)];
      return true;
    }
  }
}
