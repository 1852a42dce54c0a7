/** The zombie-port cleaner: a port of the FRP range that is listening but
    belongs to no active device, and has stayed so for longer than the
    zombie timeout, has its process killed, its timestamp record dropped and
    its allocation released. The `ss -tlnp` output is an input (its lines),
    and so are the device lists the WebSocket manager and the scanner report
    and the outcome of killing a port's process. */
module PortCleanup {
  import opened Util
  import PM = PortManager

  /** The pid of `pid=<digits>`: the first "pid=" followed by a digit. */
  function PidFrom(line: string, k: nat): (r: Option<nat>)
    decreases |line| - k
  {
    if k + 4 >= |line| then None
    else if OccursAt(line, "pid=", k) && IsDigit(line[k + 4]) then Some(DigitsValue(LeadingDigits(line[k + 4..])))
    else PidFrom(line, k + 1)
  }

  function Pid(line: string): (r: Option<nat>)
    ensures r.Some? ==> exists k :: 0 <= k && k + 4 < |line| && OccursAt(line, "pid=", k) && IsDigit(line[k + 4])
    ensures r.None? ==> forall k :: 0 <= k && k + 4 < |line| && OccursAt(line, "pid=", k) ==> !IsDigit(line[k + 4])
  {
    PidFromSpec(line, 0);
    PidFrom(line, 0)
  }

  lemma {:induction false} PidFromSpec(line: string, k: nat)
    ensures PidFrom(line, k).Some? ==> exists j :: k <= j && j + 4 < |line| && OccursAt(line, "pid=", j) && IsDigit(line[j + 4])
    ensures PidFrom(line, k).None? ==> forall j :: k <= j && j + 4 < |line| && OccursAt(line, "pid=", j) ==> !IsDigit(line[j + 4])
    decreases |line| - k
  {
    if k + 4 < |line| && !(OccursAt(line, "pid=", k) && IsDigit(line[k + 4])) {
      PidFromSpec(line, k + 1);
    }
  }

  /** The pid is read from the first "pid=" followed by a digit, as the
      longest run of digits there. */
  lemma {:induction false} PidIsFirst(line: string, k: nat) returns (at: nat)
    requires PidFrom(line, k).Some?
    ensures k <= at && at + 4 < |line| && OccursAt(line, "pid=", at) && IsDigit(line[at + 4])
    ensures forall j :: k <= j < at ==> !(OccursAt(line, "pid=", j) && IsDigit(line[j + 4]))
    ensures PidFrom(line, k).value == DigitsValue(LeadingDigits(line[at + 4..]))
    decreases |line| - k
  {
    if OccursAt(line, "pid=", k) && IsDigit(line[k + 4]) {
      at := k;
    } else {
      at := PidIsFirst(line, k + 1);
    }
  }

  /** The first port p of [start, end] such that the line holds ":p" and "LISTEN". */
  function ListenPortFrom(line: string, p: int, end: int): (r: Option<int>)
    ensures r.Some? ==> p <= r.value <= end && Contains(line, ":" + IntToString(r.value)) && Contains(line, "LISTEN")
    ensures r.Some? ==> forall q :: p <= q < r.value ==> !Contains(line, ":" + IntToString(q))
    ensures r.None? ==> !Contains(line, "LISTEN") || forall q :: p <= q <= end ==> !Contains(line, ":" + IntToString(q))
    decreases end - p + 1
  {
    if p > end then None
    else if Contains(line, ":" + IntToString(p)) && Contains(line, "LISTEN") then Some(p)
    else ListenPortFrom(line, p + 1, end)
  }

  /** One line of `ss -tlnp` output: the port it listens on and its pid. */
  function ParseSsLine(line: string, start: int, end: int): (r: Option<(int, Option<nat>)>)
    ensures r.Some? ==> r.value.1 == Pid(line) && ListenPortFrom(line, start, end) == Some(r.value.0)
    ensures r.None? <==> ListenPortFrom(line, start, end).None?
  {
    match ListenPortFrom(line, start, end)
    case None => None
    case Some(p) => Some((p, Pid(line)))
  }

  /** The device list of the WebSocket manager as the cleaner sees it. */
  datatype WsDevice = WsDevice(deviceId: string, frpPort: Option<int>)

  predicate HasPort(frpPort: Option<int>) { frpPort.Some? && frpPort.value != 0 }

  /** The ports of active devices: connected WebSocket devices with a port,
      and the online scanner devices with a port. */
  ghost function ActivePorts(ws: seq<WsDevice>, connections: set<string>, scanned: seq<Option<int>>): set<int> {
    (set i | 0 <= i < |ws| && HasPort(ws[i].frpPort) && ws[i].deviceId in connections :: ws[i].frpPort.value)
    + (set i | 0 <= i < |scanned| && HasPort(scanned[i]) :: scanned[i].value)
  }

  /** The zombies among `listening`, in order: not active and recorded more
      than `timeout` seconds ago. */
  function Zombies(listening: seq<int>, active: set<int>, lastActive: map<int, int>, now: int, timeout: int): (r: seq<int>)
    ensures forall p :: p in r ==> p in listening && p !in active && p in lastActive && now - lastActive[p] > timeout
    ensures forall p :: p in listening && p !in active && p in lastActive && now - lastActive[p] > timeout ==> p in r
  {
    if listening == [] then []
    else
      var k := |listening| - 1;
      var p := listening[k];
      Zombies(listening[..k], active, lastActive, now, timeout)
        + (if p !in active && p in lastActive && now - lastActive[p] > timeout then [p] else [])
  }

  /** The ports and pids collected from `lines`: the ports in order of first
      appearance, each with the pid of the last line naming it. */
  function Listening(lines: seq<string>, start: int, end: int): (seq<int>, map<int, Option<nat>>) {
    if lines == [] then ([], map[])
    else
      var k := |lines| - 1;
      var (ports, pids) := Listening(lines[..k], start, end);
      match ParseSsLine(lines[k], start, end)
      case None => (ports, pids)
      case Some((p, pid)) => (if p in pids then ports else ports + [p], pids[p := pid])
  }

  /** The collected ports are distinct, in the range, and exactly the keys of the pid map. */
  lemma {:induction false} ListeningPorts(lines: seq<string>, start: int, end: int)
    ensures Distinct(Listening(lines, start, end).0)
    ensures forall p :: p in Listening(lines, start, end).0 <==> p in Listening(lines, start, end).1
    ensures forall p :: p in Listening(lines, start, end).0 ==> start <= p <= end
  {
    if lines != [] {
      var k := |lines| - 1;
      ListeningPorts(lines[..k], start, end);
      var (ports, pids) := Listening(lines[..k], start, end);
      match ParseSsLine(lines[k], start, end)
      case None =>
      case Some((p, pid)) =>
        assert start <= p <= end;
        if p !in pids {
          assert forall i :: 0 <= i < |ports| ==> ports[i] in ports;
        }
    }
  }

  /** Every collected port and pid come from one line of the output. */
  lemma {:induction false} ListeningSound(lines: seq<string>, start: int, end: int)
    ensures forall p :: p in Listening(lines, start, end).1 ==>
      exists i :: 0 <= i < |lines| && ParseSsLine(lines[i], start, end) == Some((p, Listening(lines, start, end).1[p]))
  {
    if lines != [] {
      var k := |lines| - 1;
      var prefix := lines[..k];
      ListeningSound(prefix, start, end);
      var pids0 := Listening(prefix, start, end).1;
      var pids := Listening(lines, start, end).1;
      forall p | p in pids ensures exists i :: 0 <= i < |lines| && ParseSsLine(lines[i], start, end) == Some((p, pids[p])) {
        if ParseSsLine(lines[k], start, end) == Some((p, pids[p])) {
        } else {
          assert p in pids0 && pids[p] == pids0[p];
          var i :| 0 <= i < |prefix| && ParseSsLine(prefix[i], start, end) == Some((p, pids0[p]));
          assert prefix[i] == lines[i];
        }
      }
    }
  }

  /** Every line that names a listening port of the range has its port collected. */
  lemma {:induction false} ListeningComplete(lines: seq<string>, start: int, end: int)
    ensures forall i :: 0 <= i < |lines| && ParseSsLine(lines[i], start, end).Some? ==>
      ParseSsLine(lines[i], start, end).value.0 in Listening(lines, start, end).1
  {
    if lines != [] {
      var k := |lines| - 1;
      ListeningComplete(lines[..k], start, end);
      var pids0 := Listening(lines[..k], start, end).1;
      var pids := Listening(lines, start, end).1;
      assert pids0.Keys <= pids.Keys;
      forall i | 0 <= i < |lines| && ParseSsLine(lines[i], start, end).Some?
        ensures ParseSsLine(lines[i], start, end).value.0 in pids
      {
        if i < k {
          assert lines[..k][i] == lines[i];
        }
      }
    }
  }

  /** The classification of `listening` against the stamps `last`: the
      zombies in order, and the stamps afterwards. An inactive port without a
      stamp is stamped `now`; one stamped more than `timeout` ago is a zombie. */
  function Classify(listening: seq<int>, active: set<int>, last: map<int, int>, now: int, timeout: int): (seq<int>, map<int, int>) {
    if listening == [] then ([], last)
    else
      var k := |listening| - 1;
      var (zombies, stamps) := Classify(listening[..k], active, last, now, timeout);
      var p := listening[k];
      if p in active then (zombies, stamps)
      else if p !in stamps then (zombies, stamps[p := now])
      else if now - stamps[p] > timeout then (zombies + [p], stamps)
      else (zombies, stamps)
  }

  /** The stamps afterwards: the old ones, plus `now` for every inactive port
      that had none. */
  lemma {:induction false} ClassifyStamps(listening: seq<int>, active: set<int>, last: map<int, int>, now: int, timeout: int)
    ensures forall p :: p in Classify(listening, active, last, now, timeout).1 <==> p in last || (p in listening && p !in active)
    ensures forall p :: p in Classify(listening, active, last, now, timeout).1 ==>
      Classify(listening, active, last, now, timeout).1[p] == if p in last then last[p] else now
  {
    if listening != [] {
      var k := |listening| - 1;
      ClassifyStamps(listening[..k], active, last, now, timeout);
      assert listening == listening[..k] + [listening[k]];
    }
  }

  /** On distinct ports, the zombies are exactly the inactive ports stamped
      more than `timeout` before `now`, in listening order. */
  lemma {:induction false} ClassifyZombies(listening: seq<int>, active: set<int>, last: map<int, int>, now: int, timeout: int)
    requires Distinct(listening)
    ensures Classify(listening, active, last, now, timeout).0 == Zombies(listening, active, last, now, timeout)
  {
    if listening != [] {
      var k := |listening| - 1;
      var p := listening[k];
      assert Distinct(listening[..k]);
      ClassifyZombies(listening[..k], active, last, now, timeout);
      ClassifyStamps(listening[..k], active, last, now, timeout);
      assert p !in listening[..k];
    }
  }

  /** The zombies whose process could be killed. */
  function Killed(zombies: seq<int>, killable: set<int>): (r: set<int>)
    ensures forall p :: p in r <==> p in zombies && p in killable
  {
    if zombies == [] then {}
    else
      var k := |zombies| - 1;
      assert zombies == zombies[..k] + [zombies[k]];
      Killed(zombies[..k], killable) + (if zombies[k] in killable then {zombies[k]} else {})
  }

  lemma KilledStep(zombies: seq<int>, killable: set<int>, i: int)
    requires 0 <= i < |zombies|
    ensures Killed(zombies[..i + 1], killable) == Killed(zombies[..i], killable) + (if zombies[i] in killable then {zombies[i]} else {})
    ensures KilledCount(zombies[..i + 1], killable) == KilledCount(zombies[..i], killable) + (if zombies[i] in killable then 1 else 0)
  {
    assert zombies[..i + 1][..i] == zombies[..i];
  }

  lemma MinusStep<V>(m: map<int, V>, a: set<int>, p: int)
    ensures (m - a) - {p} == m - (a + {p})
  {
  }

  /** How many entries of `zombies` could be killed. */
  function KilledCount(zombies: seq<int>, killable: set<int>): (r: nat)
    ensures r <= |zombies|
  {
    if zombies == [] then 0
    else
      var k := |zombies| - 1;
      KilledCount(zombies[..k], killable) + (if zombies[k] in killable then 1 else 0)
  }

  /** The count is the number of positions holding a killable port. */
  lemma {:induction false} KilledCountPositions(zombies: seq<int>, killable: set<int>)
    ensures KilledCount(zombies, killable) == |set i | 0 <= i < |zombies| && zombies[i] in killable|
  {
    if zombies != [] {
      var k := |zombies| - 1;
      KilledCountPositions(zombies[..k], killable);
      var before := set i | 0 <= i < k && zombies[..k][i] in killable;
      var after := set i | 0 <= i < |zombies| && zombies[i] in killable;
      assert before == set i | 0 <= i < k && zombies[i] in killable;
      if zombies[k] in killable {
        assert after == before + {k};
      } else {
        assert after == before;
      }
    }
  }

  class PortCleanupService {
    const portRangeStart: int
    const portRangeEnd: int
    const zombieTimeout: int
    var portLastActive: map<int, int>

    constructor (portRangeStart: int, portRangeEnd: int, zombieTimeout: int)
      ensures this.portRangeStart == portRangeStart && this.portRangeEnd == portRangeEnd
      ensures this.zombieTimeout == zombieTimeout && portLastActive == map[]
    {
      this.portRangeStart := portRangeStart;
      this.portRangeEnd := portRangeEnd;
      this.zombieTimeout := zombieTimeout;
      portLastActive := map[];
    }

    /** `get_listening_ports` over the lines of `ss -tlnp`. */
    method GetListeningPorts(lines: seq<string>) returns (ports: seq<int>, pids: map<int, Option<nat>>)
      ensures (ports, pids) == Listening(lines, portRangeStart, portRangeEnd)
    {
      ports := [];
      pids := map[];
      for i := 0 to |lines|
        invariant (ports, pids) == Listening(lines[..i], portRangeStart, portRangeEnd)
      {
        assert lines[..i + 1][..i] == lines[..i];
        var r := ParseSsLine(lines[i], portRangeStart, portRangeEnd);
        if r.Some? {
          var (p, pid) := r.value;
          if p !in pids {
            ports := ports + [p];
          }
          pids := pids[p := pid];
        }
      }
      assert lines[..|lines|] == lines;
    }

    /** Collects the ports of active devices and stamps each with `now`. */
    method GetActiveDevices(ws: seq<WsDevice>, connections: set<string>, scanned: seq<Option<int>>, now: int)
      returns (active: set<int>)
      modifies this
      ensures active == ActivePorts(ws, connections, scanned)
      ensures portLastActive.Keys == old(portLastActive).Keys + active
      ensures forall p :: p in portLastActive ==> portLastActive[p] == if p in active then now else old(portLastActive)[p]
    {
      active := {};
      var i := 0;
      while i < |ws|
        invariant 0 <= i <= |ws|
        invariant active == set j | 0 <= j < i && HasPort(ws[j].frpPort) && ws[j].deviceId in connections :: ws[j].frpPort.value
        invariant portLastActive.Keys == old(portLastActive).Keys + active
        invariant forall p :: p in portLastActive ==> portLastActive[p] == if p in active then now else old(portLastActive)[p]
      {
        if HasPort(ws[i].frpPort) && ws[i].deviceId in connections {
          active := active + {ws[i].frpPort.value};
          portLastActive := portLastActive[ws[i].frpPort.value := now];
        }
        i := i + 1;
      }
      ghost var wsActive := active;
      i := 0;
      while i < |scanned|
        invariant 0 <= i <= |scanned|
        invariant active == wsActive + set j | 0 <= j < i && HasPort(scanned[j]) :: scanned[j].value
        invariant portLastActive.Keys == old(portLastActive).Keys + active
        invariant forall p :: p in portLastActive ==> portLastActive[p] == if p in active then now else old(portLastActive)[p]
      {
        if HasPort(scanned[i]) {
          active := active + {scanned[i].value};
          portLastActive := portLastActive[scanned[i].value := now];
        }
        i := i + 1;
      }
    }

    /** Goes through the listening ports: an inactive port seen for the first
        time is stamped with `now` and not reported; one stamped more than
        `zombieTimeout` seconds ago is reported. */
    method ClassifyListening(listening: seq<int>, active: set<int>, now: int) returns (zombies: seq<int>)
      modifies this
      ensures (zombies, portLastActive) == Classify(listening, active, old(portLastActive), now, zombieTimeout)
    {
      zombies := [];
      for i := 0 to |listening|
        invariant (zombies, portLastActive) == Classify(listening[..i], active, old(portLastActive), now, zombieTimeout)
      {
        assert listening[..i + 1][..i] == listening[..i];
        var p := listening[i];
        if p !in active {
          if p !in portLastActive {
            portLastActive := portLastActive[p := now];
          } else if now - portLastActive[p] > zombieTimeout {
            zombies := zombies + [p];
          }
        }
      }
      assert listening[..|listening|] == listening;
    }

    /** `identify_zombie_ports`: listening ports, then active ports (whose
        stamps are refreshed), then the classification. */
    method IdentifyZombiePorts(lines: seq<string>, ws: seq<WsDevice>, connections: set<string>, scanned: seq<Option<int>>, now: int)
      returns (zombies: seq<int>)
      modifies this
      ensures forall p :: p in zombies ==> p !in ActivePorts(ws, connections, scanned)
      ensures forall p :: p in zombies ==> p in old(portLastActive) && now - old(portLastActive)[p] > zombieTimeout
      ensures forall p :: p in zombies ==> portRangeStart <= p <= portRangeEnd
      ensures forall p :: p in portLastActive && p !in old(portLastActive) ==> portLastActive[p] == now
      // every inactive listening port of the range stamped more than the timeout ago is reported
      ensures forall i :: 0 <= i < |lines| && ParseSsLine(lines[i], portRangeStart, portRangeEnd).Some? ==>
        var p := ParseSsLine(lines[i], portRangeStart, portRangeEnd).value.0;
        p !in ActivePorts(ws, connections, scanned) && p in old(portLastActive) && now - old(portLastActive)[p] > zombieTimeout
        ==> p in zombies
      // active ports are stamped now, every listening port carries a stamp, other stamps are kept
      ensures forall p :: p in ActivePorts(ws, connections, scanned) ==> p in portLastActive && portLastActive[p] == now
      ensures forall i :: 0 <= i < |lines| && ParseSsLine(lines[i], portRangeStart, portRangeEnd).Some? ==>
        ParseSsLine(lines[i], portRangeStart, portRangeEnd).value.0 in portLastActive
      ensures forall p :: p in old(portLastActive) && p !in ActivePorts(ws, connections, scanned) ==>
        p in portLastActive && portLastActive[p] == old(portLastActive)[p]
    {
      var listening, pids := GetListeningPorts(lines);
      ListeningPorts(lines, portRangeStart, portRangeEnd);
      ListeningComplete(lines, portRangeStart, portRangeEnd);
      var active := GetActiveDevices(ws, connections, scanned, now);
      ghost var stamped := portLastActive;
      zombies := ClassifyListening(listening, active, now);
      ClassifyZombies(listening, active, stamped, now, zombieTimeout);
      ClassifyStamps(listening, active, stamped, now, zombieTimeout);
    }

    /** `cleanup_zombie_ports` after identification: each zombie whose
        process could be killed (`killable`) loses its record and its
        allocation with the port manager. */
    method CleanupZombies(zombies: seq<int>, killable: set<int>, pm: PM.PortManager) returns (cleaned: nat)
      requires pm.Valid()
      modifies this, pm
      ensures pm.Valid()
      ensures portLastActive == old(portLastActive) - Killed(zombies, killable)
      ensures pm.portAllocations == old(pm.portAllocations) - (Killed(zombies, killable) - {0})
      ensures cleaned == KilledCount(zombies, killable)
    {
      cleaned := 0;
      for i := 0 to |zombies|
        invariant pm.Valid()
        invariant portLastActive == old(portLastActive) - Killed(zombies[..i], killable)
        invariant pm.portAllocations == old(pm.portAllocations) - (Killed(zombies[..i], killable) - {0})
        invariant cleaned == KilledCount(zombies[..i], killable)
      {
        var p := zombies[i];
        KilledStep(zombies, killable, i);
        if p in killable {
          cleaned := cleaned + 1;
          MinusStep(old(portLastActive), Killed(zombies[..i], killable), p);
          portLastActive := portLastActive - {p};
          if p != 0 {
            MinusStep(old(pm.portAllocations), Killed(zombies[..i], killable) - {0}, p);
            var _ := pm.ReleasePort(None, Some(p));
          }
          assert Killed(zombies[..i + 1], killable) - {0} == (Killed(zombies[..i], killable) - {0}) + (if p != 0 then {p} else {});
        }
      }
      assert zombies[..|zombies|] == zombies;
    }
  }
}
