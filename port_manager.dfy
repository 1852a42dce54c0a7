/** The server's port manager: at any time one FRP port belongs to at most
    one device and one device holds at most one port. The manager keeps two
    dictionaries, port -> allocation and device -> port, which must stay
    mutual inverses. Wall-clock time is an integer number of seconds passed
    in by the caller. */
module PortManager {
  import opened Util

  datatype Allocation = Allocation(deviceId: string, deviceName: string, allocatedAt: int)

  /** The two dictionaries describe the same relation, in both directions. */
  ghost predicate Inverse(allocations: map<int, Allocation>, ports: map<string, int>) {
    && (forall p :: p in allocations ==> allocations[p].deviceId in ports && ports[allocations[p].deviceId] == p)
    && (forall d :: d in ports ==> ports[d] in allocations && allocations[ports[d]].deviceId == d)
  }

  /** Under the invariant no device owns two ports. */
  lemma InverseIsInjective(allocations: map<int, Allocation>, ports: map<string, int>, p: int, q: int)
    requires Inverse(allocations, ports)
    requires p in allocations && q in allocations
    requires allocations[p].deviceId == allocations[q].deviceId
    ensures p == q
  {
    assert ports[allocations[p].deviceId] == p;
  }

  /** Adding a pair whose port and device are both unused keeps the invariant. */
  lemma InverseInsert(allocations: map<int, Allocation>, ports: map<string, int>, p: int, a: Allocation)
    requires Inverse(allocations, ports)
    requires p !in allocations && a.deviceId !in ports
    ensures Inverse(allocations[p := a], ports[a.deviceId := p])
  {
  }

  /** `device_name or device_id`: an absent or empty name falls back to the id. */
  function NameOrId(deviceName: Option<string>, deviceId: string): (r: string)
    ensures deviceName.Some? && deviceName.value != "" ==> r == deviceName.value
    ensures deviceName.None? || deviceName.value == "" ==> r == deviceId
  {
    if deviceName.Some? && deviceName.value != "" then deviceName.value else deviceId
  }

  /** Whether an allocation made at `allocatedAt` is older than `maxAge` at `now`. */
  predicate IsStale(a: Allocation, now: int, maxAge: int) {
    now - a.allocatedAt > maxAge
  }

  class PortManager {
    var portAllocations: map<int, Allocation>
    var devicePorts: map<string, int>

    ghost predicate Valid()
      reads this
    {
      Inverse(portAllocations, devicePorts)
    }

    constructor ()
      ensures Valid()
      ensures portAllocations == map[] && devicePorts == map[]
    {
      portAllocations := map[];
      devicePorts := map[];
    }

    /** Drops the allocation of `port` and its owner's reverse entry. */
    method ReleasePortInternal(port: int) returns (released: bool)
      requires Valid()
      modifies this
      ensures Valid()
      ensures released == (port in old(portAllocations))
      ensures portAllocations == old(portAllocations) - {port}
      ensures released ==> devicePorts == old(devicePorts) - {old(portAllocations)[port].deviceId}
      ensures !released ==> devicePorts == old(devicePorts)
    {
      if port in portAllocations {
        var deviceId := portAllocations[port].deviceId;
        portAllocations := portAllocations - {port};
        if deviceId in devicePorts {
          devicePorts := devicePorts - {deviceId};
        }
        released := true;
      } else {
        released := false;
      }
    }

    /** Gives `requestedPort` to `deviceId`. A device that owns another port
        loses it first; a port owned by a different device is taken from it
        only with `force`, otherwise the request is refused. */
    method AllocatePort(deviceId: string, requestedPort: int, deviceName: Option<string>, force: bool, now: int)
      returns (success: bool, message: string)
      requires Valid()
      modifies this
      ensures Valid()
      // the device already owns exactly this port: nothing changes
      ensures deviceId in old(devicePorts) && old(devicePorts)[deviceId] == requestedPort ==>
        success && portAllocations == old(portAllocations) && devicePorts == old(devicePorts)
      // otherwise its previous port (if any) is released before anything else
      ensures !(deviceId in old(devicePorts) && old(devicePorts)[deviceId] == requestedPort) ==>
        var allocs1 := if deviceId in old(devicePorts) then old(portAllocations) - {old(devicePorts)[deviceId]} else old(portAllocations);
        var ports1 := old(devicePorts) - {deviceId};
        if requestedPort in allocs1 && !force then
          !success && portAllocations == allocs1 && devicePorts == ports1
        else
          var ports2 := if requestedPort in allocs1 then ports1 - {allocs1[requestedPort].deviceId} else ports1;
          && success
          && portAllocations == allocs1[requestedPort := Allocation(deviceId, NameOrId(deviceName, deviceId), now)]
          && devicePorts == ports2[deviceId := requestedPort]
      ensures success ==> requestedPort in portAllocations && portAllocations[requestedPort].deviceId == deviceId
      ensures success ==> deviceId in devicePorts && devicePorts[deviceId] == requestedPort
    {
      ghost var ports0 := devicePorts;
      if deviceId in devicePorts {
        var oldPort := devicePorts[deviceId];
        if oldPort == requestedPort {
          return true, "Port " + IntToString(requestedPort) + " already allocated to this device";
        }
        var _ := ReleasePortInternal(oldPort);
      }
      assert devicePorts == ports0 - {deviceId};
      if requestedPort in portAllocations {
        var existingDevice := portAllocations[requestedPort].deviceId;
        if force {
          var _ := ReleasePortInternal(requestedPort);
        } else {
          return false, "Port " + IntToString(requestedPort) + " is already occupied by device " + existingDevice
            + ". Use force=True to kick out the existing device.";
        }
      }
      InverseInsert(portAllocations, devicePorts, requestedPort, Allocation(deviceId, NameOrId(deviceName, deviceId), now));
      portAllocations := portAllocations[requestedPort := Allocation(deviceId, NameOrId(deviceName, deviceId), now)];
      devicePorts := devicePorts[deviceId := requestedPort];
      return true, "Port " + IntToString(requestedPort) + " successfully allocated";
    }

    /** Releases by device id when one is given (a non-empty string), else by
        port when one is given (a non-zero number); with neither it fails. */
    method ReleasePort(deviceId: Option<string>, port: Option<int>) returns (released: bool)
      requires Valid()
      modifies this
      ensures Valid()
      ensures deviceId.Some? && deviceId.value != "" ==>
        if deviceId.value in old(devicePorts) then
          && released
          && portAllocations == old(portAllocations) - {old(devicePorts)[deviceId.value]}
          && devicePorts == old(devicePorts) - {deviceId.value}
        else
          !released && portAllocations == old(portAllocations) && devicePorts == old(devicePorts)
      ensures !(deviceId.Some? && deviceId.value != "") && port.Some? && port.value != 0 ==>
        && released == (port.value in old(portAllocations))
        && portAllocations == old(portAllocations) - {port.value}
        && devicePorts == (if released then old(devicePorts) - {old(portAllocations)[port.value].deviceId} else old(devicePorts))
      ensures !(deviceId.Some? && deviceId.value != "") && !(port.Some? && port.value != 0) ==>
        !released && portAllocations == old(portAllocations) && devicePorts == old(devicePorts)
    {
      if deviceId.Some? && deviceId.value != "" {
        if deviceId.value !in devicePorts {
          return false;
        }
        released := ReleasePortInternal(devicePorts[deviceId.value]);
      } else if port.Some? && port.value != 0 {
        released := ReleasePortInternal(port.value);
      } else {
        released := false;
      }
    }

    /** The smallest port of [start, end] that nobody holds, or None. */
    method FindAvailablePort(start: int, end: int) returns (r: Option<int>)
      ensures r.Some? ==> start <= r.value <= end && r.value !in portAllocations
      ensures r.Some? ==> forall q :: start <= q < r.value ==> q in portAllocations
      ensures r.None? ==> forall q :: start <= q <= end ==> q in portAllocations
    {
      var port := start;
      while port <= end
        invariant start <= port || end < start
        invariant forall q :: start <= q < port ==> q in portAllocations
        decreases end - port
      {
        if port !in portAllocations {
          return Some(port);
        }
        port := port + 1;
      }
      return None;
    }

    /** Releases exactly the allocations older than `maxAge` seconds. */
    method CleanupStaleAllocations(now: int, maxAge: int)
      requires Valid()
      modifies this
      ensures Valid()
      ensures portAllocations == map p | p in old(portAllocations) && !IsStale(old(portAllocations)[p], now, maxAge) :: old(portAllocations)[p]
      ensures devicePorts == map d | d in old(devicePorts) && !IsStale(old(portAllocations)[old(devicePorts)[d]], now, maxAge) :: old(devicePorts)[d]
    {
      var stale: set<int> := set p | p in portAllocations && IsStale(portAllocations[p], now, maxAge);
      ghost var allocs0 := portAllocations;
      ghost var ports0 := devicePorts;
      var rest := stale;
      while rest != {}
        invariant Valid()
        invariant rest <= stale
        invariant portAllocations == map p | p in allocs0 && (p !in stale || p in rest) :: allocs0[p]
        invariant devicePorts == map d | d in ports0 && (ports0[d] !in stale || ports0[d] in rest) :: ports0[d]
        decreases rest
      {
        var port := Pick(rest);
        var _ := ReleasePortInternal(port);
        rest := rest - {port};
      }
    }
  }
}
