/** The server's device pool: devices with an FRP (ADB) channel and a
    WebSocket channel, availability, task assignment and per-device counters.
    The pool's dictionary keeps insertion order, which decides ties when a
    device is selected; `order` is that key order. Times are integer seconds. */
module DevicePool {
  import opened Util

  datatype DeviceStatus = Offline | Online | Busy | Error

  datatype Device = Device(
    deviceId: string,
    deviceName: string,
    frpPort: int,
    frpConnected: bool,
    wsConnected: bool,
    wsLastHeartbeat: Option<int>,
    battery: int,
    status: DeviceStatus,
    currentTask: Option<string>,
    totalTasks: nat,
    successTasks: nat,
    failedTasks: nat,
    lastActive: int)

  /** A heartbeat older than two minutes is expired. */
  const HeartbeatTimeoutSeconds := 2 * 60

  /** Both channels up, status online and no task. */
  predicate IsAvailable(d: Device) {
    d.frpConnected && d.wsConnected && d.status == Online && d.currentTask.None?
  }

  /** The success rate `success / total * 100` as a fraction with a positive
      denominator; 0 when no task was ever assigned. */
  datatype Ratio = Ratio(num: nat, den: nat)

  function SuccessRate(d: Device): (r: Ratio)
    ensures r.den > 0
    ensures d.totalTasks == 0 ==> r.num == 0
    ensures d.totalTasks > 0 ==> r.num * d.totalTasks == d.successTasks * 100 * r.den
  {
    if d.totalTasks == 0 then Ratio(0, 1) else Ratio(d.successTasks * 100, d.totalTasks)
  }

  /** `a <= b` on fractions with positive denominators, by cross-multiplication. */
  predicate RatioLe(a: Ratio, b: Ratio) {
    a.num * b.den <= b.num * a.den
  }

  lemma {:induction false} RatioLeTransitive(a: Ratio, b: Ratio, c: Ratio)
    requires a.den > 0 && b.den > 0 && c.den > 0
    requires RatioLe(a, b) && RatioLe(b, c)
    ensures RatioLe(a, c)
  {
    calc {
      a.num * c.den * b.den;
      == a.num * b.den * c.den;
      <= { MulLeRight(a.num * b.den, b.num * a.den, c.den); }
      b.num * a.den * c.den;
      == b.num * c.den * a.den;
      <= { MulLeRight(b.num * c.den, c.num * b.den, a.den); }
      c.num * b.den * a.den;
      == c.num * a.den * b.den;
    }
    MulCancelRight(a.num * c.den, c.num * a.den, b.den);
  }

  lemma MulLeRight(x: int, y: int, k: nat)
    requires x <= y
    ensures x * k <= y * k
  {
  }

  lemma MulCancelRight(x: int, y: int, k: int)
    requires k > 0 && x * k <= y * k
    ensures x <= y
  {
  }

  /** RatioLe is total: of two fractions one is at most the other. */
  lemma RatioLeTotal(a: Ratio, b: Ratio)
    ensures RatioLe(a, b) || RatioLe(b, a)
  {
  }

  predicate HeartbeatExpired(d: Device, now: int) {
    d.wsLastHeartbeat.Some? && now - d.wsLastHeartbeat.value > HeartbeatTimeoutSeconds
  }

  /** What a selection may return: available and with a live heartbeat. */
  predicate Selectable(d: Device, now: int) {
    IsAvailable(d) && !HeartbeatExpired(d, now)
  }

  /** What a selection does to a device: an available one whose heartbeat has
      expired loses its WebSocket channel and goes offline. */
  function Expire(d: Device, now: int): (r: Device)
    ensures !IsAvailable(d) || !HeartbeatExpired(d, now) ==> r == d
    ensures IsAvailable(d) && HeartbeatExpired(d, now) ==> !r.wsConnected && r.status == Offline && !IsAvailable(r)
  {
    if IsAvailable(d) && HeartbeatExpired(d, now) then d.(wsConnected := false, status := Offline) else d
  }

  /** The status rule applied after every update: a channel down means
      offline; both up, no task and not in error means online. */
  function AutoStatus(d: Device): (r: DeviceStatus)
    ensures !(d.frpConnected && d.wsConnected) ==> r == Offline
    ensures d.frpConnected && d.wsConnected && d.currentTask.None? && d.status != Error ==> r == Online
    ensures d.frpConnected && d.wsConnected && !(d.currentTask.None? && d.status != Error) ==> r == d.status
  {
    if d.frpConnected && d.wsConnected then
      if d.currentTask.None? && d.status != Error then Online else d.status
    else Offline
  }

  /** The field writes of `update_device_status`: each given value replaces
      the stored one, absent values leave it, and the activity time is now. */
  function ApplyFields(
    d: Device,
    frpConnected: Option<bool>,
    wsConnected: Option<bool>,
    wsHeartbeat: Option<int>,
    battery: Option<int>,
    status: Option<DeviceStatus>,
    now: int): (r: Device)
    ensures r.frpConnected == frpConnected.GetOr(d.frpConnected)
    ensures r.wsConnected == wsConnected.GetOr(d.wsConnected)
    ensures r.wsLastHeartbeat == if wsHeartbeat.Some? then wsHeartbeat else d.wsLastHeartbeat
    ensures r.battery == battery.GetOr(d.battery)
    ensures r.status == status.GetOr(d.status)
    ensures r.lastActive == now
    ensures r.currentTask == d.currentTask && r.deviceId == d.deviceId
    ensures r.totalTasks == d.totalTasks && r.successTasks == d.successTasks && r.failedTasks == d.failedTasks
  {
    d.(frpConnected := frpConnected.GetOr(d.frpConnected),
       wsConnected := wsConnected.GetOr(d.wsConnected),
       wsLastHeartbeat := if wsHeartbeat.Some? then wsHeartbeat else d.wsLastHeartbeat,
       battery := battery.GetOr(d.battery),
       status := status.GetOr(d.status),
       lastActive := now)
  }

  /** The ids, in key order, of the devices a selection may return. */
  function SelectableIds(order: seq<string>, devices: map<string, Device>, now: int): (r: seq<string>)
    requires forall id :: id in order ==> id in devices
    ensures forall id :: id in r <==> id in order && Selectable(devices[id], now)
  {
    if order == [] then []
    else
      var last := order[|order| - 1];
      SelectableIds(order[..|order| - 1], devices, now) + (if Selectable(devices[last], now) then [last] else [])
  }

  /** The devices after the heartbeat pass has visited the ids in `done`. */
  function ExpireWithin(devices: map<string, Device>, done: set<string>, now: int): map<string, Device> {
    map id | id in devices :: if id in done then Expire(devices[id], now) else devices[id]
  }

  lemma ExpireWithinStep(devices: map<string, Device>, done: set<string>, id: string, now: int)
    requires id in devices && id !in done
    ensures id in ExpireWithin(devices, done, now) && ExpireWithin(devices, done, now)[id] == devices[id]
    ensures ExpireWithin(devices, done + {id}, now) == ExpireWithin(devices, done, now)[id := Expire(devices[id], now)]
  {
  }

  lemma PrefixSetStep(order: seq<string>, i: nat, done: set<string>)
    requires i < |order|
    requires forall id :: id in done <==> id in order[..i]
    ensures forall id :: id in done + {order[i]} <==> id in order[..i + 1]
  {
    assert order[..i + 1] == order[..i] + [order[i]];
  }

  lemma SelectableIdsStep(order: seq<string>, i: nat, devices: map<string, Device>, now: int)
    requires i < |order|
    requires forall id :: id in order ==> id in devices
    ensures SelectableIds(order[..i + 1], devices, now)
         == SelectableIds(order[..i], devices, now) + (if Selectable(devices[order[i]], now) then [order[i]] else [])
  {
    assert order[..i + 1][..i] == order[..i];
  }

  function RatesOf(ids: seq<string>, devices: map<string, Device>): (r: seq<Ratio>)
    requires forall id :: id in ids ==> id in devices
    ensures |r| == |ids| && forall i :: 0 <= i < |ids| ==> r[i] == SuccessRate(devices[ids[i]])
  {
    if ids == [] then [] else RatesOf(ids[..|ids| - 1], devices) + [SuccessRate(devices[ids[|ids| - 1]])]
  }

  /** Rates depend only on the listed devices' entries. */
  lemma RatesAgree(ids: seq<string>, d1: map<string, Device>, d2: map<string, Device>)
    requires forall id :: id in ids ==> id in d1 && id in d2 && d1[id] == d2[id]
    ensures RatesOf(ids, d1) == RatesOf(ids, d2)
  {
  }

  /** `k` is where a stable sort by decreasing rate puts its first element:
      no rate is higher, and every earlier rate is strictly lower. */
  predicate IsFirstBest(rates: seq<Ratio>, k: int) {
    && 0 <= k < |rates|
    && (forall j :: 0 <= j < |rates| ==> RatioLe(rates[j], rates[k]))
    && (forall j :: 0 <= j < k ==> !RatioLe(rates[k], rates[j]))
  }

  /** `sort(key=success_rate, reverse=True)[0]` on a non-empty list. */
  method FirstMaxIndex(rates: seq<Ratio>) returns (k: nat)
    requires rates != []
    requires forall i :: 0 <= i < |rates| ==> rates[i].den > 0
    ensures IsFirstBest(rates, k)
  {
    k := 0;
    var i := 1;
    while i < |rates|
      invariant 1 <= i <= |rates| && k < i
      invariant forall j :: 0 <= j < i ==> RatioLe(rates[j], rates[k])
      invariant forall j :: 0 <= j < k ==> !RatioLe(rates[k], rates[j])
    {
      if !RatioLe(rates[i], rates[k]) {
        forall j | 0 <= j < i ensures RatioLe(rates[j], rates[i]) {
          RatioLeTotal(rates[i], rates[k]);
          RatioLeTransitive(rates[j], rates[k], rates[i]);
        }
        forall j | 0 <= j < i ensures !RatioLe(rates[i], rates[j]) {
          if RatioLe(rates[i], rates[j]) {
            RatioLeTransitive(rates[i], rates[j], rates[k]);
          }
        }
        k := i;
      }
      i := i + 1;
    }
  }

  // ---------------------------------------------------------------- statistics

  function CountStatus(order: seq<string>, devices: map<string, Device>, st: DeviceStatus): (n: nat)
    requires forall id :: id in order ==> id in devices
    ensures n <= |order|
  {
    if order == [] then 0
    else (if devices[order[0]].status == st then 1 else 0) + CountStatus(order[1..], devices, st)
  }

  /** The tail of a duplicate-free listing is duplicate-free and lacks the head. */
  lemma DistinctTail(order: seq<string>)
    requires Distinct(order) && order != []
    ensures Distinct(order[1..]) && order[0] !in order[1..]
  {
    var rest := order[1..];
    forall i, j | 0 <= i < j < |rest| ensures rest[i] != rest[j] {
      assert rest[i] == order[i + 1] && rest[j] == order[j + 1];
    }
    forall j | 0 <= j < |rest| ensures rest[j] != order[0] {
      assert rest[j] == order[j + 1];
    }
  }

  /** The devices of a listing in status st: its head, if in st, and those of its tail. */
  lemma StatusSetStep(order: seq<string>, devices: map<string, Device>, st: DeviceStatus)
    requires Distinct(order) && order != [] && forall id :: id in order ==> id in devices
    ensures |set id | id in order && devices[id].status == st| ==
      (if devices[order[0]].status == st then 1 else 0) + |set id | id in order[1..] && devices[id].status == st|
  {
    var rest := order[1..];
    DistinctTail(order);
    var later := set id | id in rest && devices[id].status == st;
    var all := set id | id in order && devices[id].status == st;
    if devices[order[0]].status == st {
      assert all == later + {order[0]};
    } else {
      assert all == later;
    }
  }

  /** Counting along a duplicate-free listing counts the devices in that status. */
  lemma {:induction false} CountStatusIsCard(order: seq<string>, devices: map<string, Device>, st: DeviceStatus)
    requires Distinct(order) && forall id :: id in order ==> id in devices
    ensures CountStatus(order, devices, st) == |set id | id in order && devices[id].status == st|
  {
    if order == [] {
      assert (set id | id in order && devices[id].status == st) == {};
    } else {
      DistinctTail(order);
      CountStatusIsCard(order[1..], devices, st);
      StatusSetStep(order, devices, st);
    }
  }

  function SumTotal(order: seq<string>, devices: map<string, Device>): nat
    requires forall id :: id in order ==> id in devices
  {
    if order == [] then 0 else devices[order[0]].totalTasks + SumTotal(order[1..], devices)
  }

  function SumSuccess(order: seq<string>, devices: map<string, Device>): nat
    requires forall id :: id in order ==> id in devices
  {
    if order == [] then 0 else devices[order[0]].successTasks + SumSuccess(order[1..], devices)
  }

  function SumFailed(order: seq<string>, devices: map<string, Device>): nat
    requires forall id :: id in order ==> id in devices
  {
    if order == [] then 0 else devices[order[0]].failedTasks + SumFailed(order[1..], devices)
  }

  datatype Stats = Stats(
    maxDevices: int,
    totalDevices: nat,
    onlineDevices: nat,
    busyDevices: nat,
    offlineDevices: nat,
    totalTasks: nat,
    successTasks: nat,
    failedTasks: nat,
    successRate: Ratio)

  function ComputeStats(maxDevices: int, order: seq<string>, devices: map<string, Device>): Stats
    requires forall id :: id in order ==> id in devices
  {
    var total := SumTotal(order, devices);
    var success := SumSuccess(order, devices);
    Stats(maxDevices, |order|,
      CountStatus(order, devices, Online), CountStatus(order, devices, Busy), CountStatus(order, devices, Offline),
      total, success, SumFailed(order, devices),
      if total > 0 then Ratio(success * 100, total) else Ratio(0, 1))
  }

  /** Every device is counted under exactly one status: the online, busy and
      offline counts plus the devices in error make up the whole pool. */
  lemma {:induction false} StatusCountsPartition(order: seq<string>, devices: map<string, Device>)
    requires forall id :: id in order ==> id in devices
    ensures CountStatus(order, devices, Online) + CountStatus(order, devices, Busy)
          + CountStatus(order, devices, Offline) + CountStatus(order, devices, Error) == |order|
  {
    if order != [] {
      StatusCountsPartition(order[1..], devices);
    }
  }

  /** The pool-wide rate is 0 exactly when no task was ever assigned. */
  lemma StatsRateZeroWithoutTasks(maxDevices: int, order: seq<string>, devices: map<string, Device>)
    requires forall id :: id in order ==> id in devices
    ensures var s := ComputeStats(maxDevices, order, devices);
      s.totalTasks == 0 ==> s.successRate == Ratio(0, 1)
  {
  }

  // ---------------------------------------------------------------- the pool

  class DevicePool {
    const maxDevices: int
    var devices: map<string, Device>
    /** The dictionary's key order (insertion order). */
    var order: seq<string>

    ghost predicate Valid()
      reads this
    {
      && Distinct(order)
      && (forall id :: id in order <==> id in devices)
    }

    constructor (maxDevices: int)
      ensures Valid()
      ensures this.maxDevices == maxDevices && devices == map[] && order == []
    {
      this.maxDevices := maxDevices;
      devices := map[];
      order := [];
    }

    /** A full pool refuses every registration, even of a known id; otherwise
        the record is stored (replacing a previous one under the same id). */
    method RegisterDevice(device: Device) returns (ok: bool)
      requires Valid()
      modifies this
      ensures Valid()
      ensures ok == (|old(devices)| < maxDevices)
      ensures ok ==> devices == old(devices)[device.deviceId := device]
      ensures ok ==> order == if device.deviceId in old(devices) then old(order) else old(order) + [device.deviceId]
      ensures !ok ==> devices == old(devices) && order == old(order)
    {
      if |devices| >= maxDevices {
        return false;
      }
      if device.deviceId !in devices {
        order := order + [device.deviceId];
      }
      devices := devices[device.deviceId := device];
      return true;
    }

    method UnregisterDevice(deviceId: string) returns (ok: bool)
      requires Valid()
      modifies this
      ensures Valid()
      ensures ok == (deviceId in old(devices))
      ensures devices == old(devices) - {deviceId}
      ensures order == Without(old(order), deviceId)
    {
      if deviceId in devices {
        devices := devices - {deviceId};
        order := Without(order, deviceId);
        return true;
      }
      return false;
    }

    /** Picks, among available devices with a live heartbeat, the first one
        (in key order) with the highest success rate. Available devices whose
        heartbeat expired are marked offline on the way. */
    method GetAvailableDevice(now: int) returns (r: Option<string>)
      requires Valid()
      modifies this
      ensures Valid() && order == old(order)
      ensures devices == map id | id in old(devices) :: Expire(old(devices)[id], now)
      ensures var cands := SelectableIds(old(order), old(devices), now);
        && (r.None? <==> cands == [])
        && (r.Some? ==> exists k :: 0 <= k < |cands| && cands[k] == r.value && IsFirstBest(RatesOf(cands, old(devices)), k))
    {
      ghost var devices0 := devices;
      var valid := ExpireStale(now);
      if valid == [] {
        return None;
      }
      var rates := CollectRates(valid);
      RatesAgree(valid, devices, devices0);
      var k := FirstMaxIndex(rates);
      r := Some(valid[k]);
    }

    /** The success rates of the given devices, in order. */
    method CollectRates(ids: seq<string>) returns (rates: seq<Ratio>)
      requires forall id :: id in ids ==> id in devices
      ensures rates == RatesOf(ids, devices)
    {
      rates := [];
      var j := 0;
      while j < |ids|
        invariant 0 <= j <= |ids|
        invariant rates == RatesOf(ids[..j], devices)
      {
        assert ids[..j + 1] == ids[..j] + [ids[j]];
        rates := rates + [SuccessRate(devices[ids[j]])];
        j := j + 1;
      }
      assert ids[..j] == ids;
    }

    /** One step of the heartbeat pass, on a known device. */
    method CheckHeartbeat(id: string, now: int) returns (keep: bool)
      requires id in devices
      modifies this
      ensures order == old(order)
      ensures devices == old(devices)[id := Expire(old(devices)[id], now)]
      ensures keep == Selectable(old(devices)[id], now)
    {
      var d := devices[id];
      keep := false;
      if IsAvailable(d) {
        if HeartbeatExpired(d, now) {
          devices := devices[id := d.(wsConnected := false, status := Offline)];
        } else {
          keep := true;
        }
      }
    }

    /** The heartbeat pass of a selection: returns the selectable ids in key
        order and marks available devices with an expired heartbeat offline. */
    method ExpireStale(now: int) returns (valid: seq<string>)
      requires Valid()
      modifies this
      ensures Valid() && order == old(order)
      ensures devices == map id | id in old(devices) :: Expire(old(devices)[id], now)
      ensures valid == SelectableIds(order, old(devices), now)
      ensures forall id :: id in valid ==> id in devices && devices[id] == old(devices)[id]
    {
      ghost var devices0 := devices;
      ghost var done: set<string> := {};
      var ord := order;
      valid := [];
      var i := 0;
      while i < |ord|
        invariant 0 <= i <= |ord| && order == ord
        invariant forall id :: id in done <==> id in ord[..i]
        invariant done <= devices0.Keys
        invariant devices == ExpireWithin(devices0, done, now)
        invariant valid == SelectableIds(ord[..i], devices0, now)
      {
        var id := ord[i];
        assert id !in done;
        SelectableIdsStep(ord, i, devices0, now);
        ExpireWithinStep(devices0, done, id, now);
        PrefixSetStep(ord, i, done);
        var keep := CheckHeartbeat(id, now);
        if keep {
          valid := valid + [id];
        }
        done := done + {id};
        i := i + 1;
      }
      assert ord[..i] == ord;
      assert done == devices0.Keys;
    }

    method UpdateDeviceStatus(
      deviceId: string,
      frpConnected: Option<bool>,
      wsConnected: Option<bool>,
      wsHeartbeat: Option<int>,
      battery: Option<int>,
      status: Option<DeviceStatus>,
      now: int)
      returns (ok: bool)
      requires Valid()
      modifies this
      ensures Valid() && order == old(order)
      ensures ok == (deviceId in old(devices))
      ensures !ok ==> devices == old(devices)
      ensures ok ==>
        var d1 := ApplyFields(old(devices)[deviceId], frpConnected, wsConnected, wsHeartbeat, battery, status, now);
        devices == old(devices)[deviceId := d1.(status := AutoStatus(d1))]
      ensures ok && !(devices[deviceId].frpConnected && devices[deviceId].wsConnected) ==> devices[deviceId].status == Offline
    {
      if deviceId !in devices {
        return false;
      }
      var d := ApplyFields(devices[deviceId], frpConnected, wsConnected, wsHeartbeat, battery, status, now);
      if d.frpConnected && d.wsConnected {
        if d.currentTask.None? && d.status != Error {
          d := d.(status := Online);
        }
      } else {
        d := d.(status := Offline);
      }
      devices := devices[deviceId := d];
      return true;
    }

    /** Succeeds only on an available device, which becomes busy with the task. */
    method AssignTask(deviceId: string, taskId: string) returns (ok: bool)
      requires Valid()
      modifies this
      ensures Valid() && order == old(order)
      ensures ok == (deviceId in old(devices) && IsAvailable(old(devices)[deviceId]))
      ensures !ok ==> devices == old(devices)
      ensures ok ==> devices == old(devices)[deviceId := old(devices)[deviceId].(
        currentTask := Some(taskId), status := Busy, totalTasks := old(devices)[deviceId].totalTasks + 1)]
      ensures ok ==> !IsAvailable(devices[deviceId])
    {
      if deviceId !in devices {
        return false;
      }
      var d := devices[deviceId];
      if !IsAvailable(d) {
        return false;
      }
      devices := devices[deviceId := d.(currentTask := Some(taskId), status := Busy, totalTasks := d.totalTasks + 1)];
      return true;
    }

    /** Frees a known device and counts exactly one success or one failure. */
    method CompleteTask(deviceId: string, success: bool) returns (ok: bool)
      requires Valid()
      modifies this
      ensures Valid() && order == old(order)
      ensures ok == (deviceId in old(devices))
      ensures !ok ==> devices == old(devices)
      ensures ok ==>
        var d0 := old(devices)[deviceId];
        devices == old(devices)[deviceId := d0.(
          currentTask := None, status := Online,
          successTasks := if success then d0.successTasks + 1 else d0.successTasks,
          failedTasks := if success then d0.failedTasks else d0.failedTasks + 1)]
      ensures ok ==> devices[deviceId].successTasks + devices[deviceId].failedTasks
                     == old(devices)[deviceId].successTasks + old(devices)[deviceId].failedTasks + 1
    {
      if deviceId !in devices {
        return false;
      }
      var d := devices[deviceId];
      d := d.(currentTask := None, status := Online);
      if success {
        d := d.(successTasks := d.successTasks + 1);
      } else {
        d := d.(failedTasks := d.failedTasks + 1);
      }
      devices := devices[deviceId := d];
      return true;
    }

    function GetStats(): (s: Stats)
      requires Valid()
      reads this
      ensures s.maxDevices == maxDevices && s.totalDevices == |devices|
      ensures s.onlineDevices == |set id | id in devices && devices[id].status == Online|
      ensures s.busyDevices == |set id | id in devices && devices[id].status == Busy|
      ensures s.offlineDevices == |set id | id in devices && devices[id].status == Offline|
      ensures s.onlineDevices + s.busyDevices + s.offlineDevices <= s.totalDevices
      ensures s.totalTasks == SumTotal(order, devices) && s.successTasks == SumSuccess(order, devices)
        && s.failedTasks == SumFailed(order, devices)
      ensures s.successRate == (if s.totalTasks > 0 then Ratio(s.successTasks * 100, s.totalTasks) else Ratio(0, 1))
    {
      DistinctCard(order);
      assert (set x | x in order) == devices.Keys;
      StatusCountsPartition(order, devices);
      CountStatusIsCard(order, devices, Online);
      CountStatusIsCard(order, devices, Busy);
      CountStatusIsCard(order, devices, Offline);
      assert (set id | id in order && devices[id].status == Online) == (set id | id in devices && devices[id].status == Online);
      assert (set id | id in order && devices[id].status == Busy) == (set id | id in devices && devices[id].status == Busy);
      assert (set id | id in order && devices[id].status == Offline) == (set id | id in devices && devices[id].status == Offline);
      ComputeStats(maxDevices, order, devices)
    }
  }
}
