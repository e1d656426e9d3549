/** The address pool: allocation, statistics, and the dashboard's matrix of cells. */
module IpPool {
  import opened Wrappers
  import opened Addresses
  import opened Devices

  const START_HOST: nat := 2
  const END_HOST: nat := 254

  /** Lowest free host from `host` on. */
  function FirstFree(subnet: string, used: set<string>, host: nat): (r: Option<nat>)
    ensures r.Some? ==> host <= r.value <= END_HOST && HostIp(subnet, r.value) !in used
    ensures forall h :: host <= h <= (if r.Some? then r.value - 1 else END_HOST) ==> HostIp(subnet, h) in used
    decreases END_HOST + 1 - host
  {
    if host > END_HOST then None
    else if HostIp(subnet, host) !in used then Some(host)
    else FirstFree(subnet, used, host + 1)
  }

  /** The address `allocateIp` returns; `None` where it throws because the pool is full. */
  function Allocated(subnet: string, rows: map<nat, Row>): Option<string> {
    var free := FirstFree(subnet, ActiveOrPendingIps(rows), START_HOST);
    if free.Some? then Some(HostIp(subnet, free.value)) else None
  }

  datatype CellStatus = Gateway | Active | Available

  datatype Cell = Cell(ip: string, hostNumber: nat, status: CellStatus, deviceId: string, hardwareModel: string)

  /** Addresses of hosts 2 to `last`. */
  function PoolIps(subnet: string, last: nat): set<string> {
    if last < START_HOST then {} else PoolIps(subnet, last - 1) + {HostIp(subnet, last)}
  }

  function CountAvailable(cells: seq<Cell>): nat {
    if cells == [] then 0
    else CountAvailable(cells[..|cells| - 1]) + if cells[|cells| - 1].status == Available then 1 else 0
  }

  /** What the matrix shows: 254 cells in host order, active ones with the device that holds them. */
  ghost predicate IsMatrix(subnet: string, rows: map<nat, Row>, cells: seq<Cell>) {
    && |cells| == END_HOST
    && cells[0] == Cell(HostIp(subnet, 1), 1, Gateway, "VPN Gateway Server", "Linux WireGuard Host")
    && forall k :: 1 <= k < |cells| ==> IsCell(subnet, rows, k + 1, cells[k])
  }

  predicate Shows(cell: Cell, row: Row) {
    cell.deviceId == row.deviceId && cell.hardwareModel == row.hardwareModel
  }

  ghost predicate IsCell(subnet: string, rows: map<nat, Row>, host: nat, cell: Cell) {
    && cell.ip == HostIp(subnet, host) && cell.hostNumber == host
    && cell.status == (if HostIp(subnet, host) in ActiveOrPendingIps(rows) then Active else Available)
    && (cell.status == Active ==> exists i :: i in rows && HoldsInUse(rows[i], cell.ip) && Shows(cell, rows[i]))
  }

  datatype PoolStats = PoolStats(subnetPrefix: string, gatewayIp: string, startIp: nat, endIp: nat,
                                 totalCapacity: nat, usedCount: nat, availableCount: nat,
                                 utilizationTenths: nat)

  class IpPoolService {
    const subnet: string
    const devices: DeviceService

    constructor (subnet: string, devices: DeviceService)
      ensures this.subnet == subnet && this.devices == devices
    {
      this.subnet, this.devices := subnet, devices;
    }

    method AllocateIp() returns (ip: Option<string>)
      requires devices.State().Valid()
      ensures ip == Allocated(subnet, devices.rows)
    {
      var activeIps := devices.FindActiveOrPendingIps();
      var usedIps := set ip | ip in activeIps;
      assert usedIps == ActiveOrPendingIps(devices.rows);
      var i := START_HOST;
      while i <= END_HOST
        invariant START_HOST <= i <= END_HOST + 1
        invariant FirstFree(subnet, usedIps, START_HOST) == FirstFree(subnet, usedIps, i)
      {
        var candidate := HostIp(subnet, i);
        if candidate !in usedIps {
          return Some(candidate);
        }
        i := i + 1;
      }
      ip := None;
    }

    /** Utilization is in tenths of a percent, rounded to the nearest one. */
    method GetPoolStats() returns (stats: PoolStats)
      requires devices.State().Valid()
      ensures stats.subnetPrefix == subnet && stats.gatewayIp == HostIp(subnet, 1)
      ensures stats.totalCapacity == |PoolIps(subnet, END_HOST)|
      ensures stats.usedCount == |ActiveOrPendingIps(devices.rows)|
      ensures stats.availableCount + stats.usedCount == stats.totalCapacity
        || (stats.availableCount == 0 && stats.usedCount > stats.totalCapacity)
      ensures -253 < 2 * (253 * stats.utilizationTenths - 1000 * stats.usedCount) < 253
    {
      var activeIps := devices.FindActiveOrPendingIps();
      var totalCapacity := END_HOST - START_HOST + 1;
      var usedCount := |activeIps|;
      var availableCount := if totalCapacity - usedCount > 0 then totalCapacity - usedCount else 0;
      var utilizationTenths := (2000 * usedCount + totalCapacity) / (2 * totalCapacity);
      ListingLength(activeIps, ActiveOrPendingIps(devices.rows));
      PoolCapacity(subnet, {}, END_HOST);
      stats := PoolStats(subnet, HostIp(subnet, 1), START_HOST, END_HOST, totalCapacity, usedCount, availableCount, utilizationTenths);
    }

    method GetIpPoolMatrix() returns (matrix: seq<Cell>)
      requires devices.State().Valid()
      ensures IsMatrix(subnet, devices.rows, matrix)
    {
      var rows := devices.rows;
      var ipDeviceMap: map<string, nat> := map[];
      var rest := rows.Keys;
      while rest != {}
        invariant rest <= rows.Keys
        invariant forall ip :: ip in ipDeviceMap ==> ipDeviceMap[ip] in rows && HoldsInUse(rows[ipDeviceMap[ip]], ip)
        invariant forall i :: i in rows && i !in rest && rows[i].status != REVOKED && rows[i].vpnIp.Some? ==> rows[i].vpnIp.value in ipDeviceMap
        decreases rest
      {
        var i :| i in rest;
        if rows[i].vpnIp.Some? && rows[i].status != REVOKED {
          ipDeviceMap := ipDeviceMap[rows[i].vpnIp.value := i];
        }
        rest := rest - {i};
      }
      matrix := [Cell(HostIp(subnet, 1), 1, Gateway, "VPN Gateway Server", "Linux WireGuard Host")];
      for host := START_HOST to END_HOST + 1
        invariant |matrix| == host - 1
        invariant matrix[0] == Cell(HostIp(subnet, 1), 1, Gateway, "VPN Gateway Server", "Linux WireGuard Host")
        invariant forall k :: 1 <= k < |matrix| ==> IsCell(subnet, rows, k + 1, matrix[k])
      {
        var ip := HostIp(subnet, host);
        var cell := Cell(ip, host, Available, "", "");
        if ip in ipDeviceMap {
          var device := rows[ipDeviceMap[ip]];
          cell := Cell(ip, host, Active, device.deviceId, device.hardwareModel);
        }
        assert IsCell(subnet, rows, host, cell) by {
          assert ip in ipDeviceMap <==> ip in ActiveOrPendingIps(rows);
        }
        matrix := matrix + [cell];
      }
    }
  }

  lemma OneMore(used: set<string>, pool: set<string>, ip: string)
    requires ip !in pool
    ensures |pool + {ip}| == |pool| + 1
    ensures |(pool + {ip}) - used| == |pool - used| + if ip in used then 0 else 1
    ensures |used * (pool + {ip})| == |used * pool| + if ip in used then 1 else 0
  {
    if ip in used {
      assert used * (pool + {ip}) == used * pool + {ip};
      assert (pool + {ip}) - used == pool - used;
    } else {
      assert used * (pool + {ip}) == used * pool;
      assert (pool + {ip}) - used == (pool - used) + {ip};
    }
  }

  lemma {:induction false} HostIsNew(subnet: string, last: nat, host: nat)
    requires host > last
    ensures HostIp(subnet, host) !in PoolIps(subnet, last)
  {
    if last >= START_HOST {
      HostIsNew(subnet, last - 1, host);
      if HostIp(subnet, last) == HostIp(subnet, host) {
        HostIpInjective(subnet, last, host);
      }
    }
  }

  /** Free and used hosts add up, host by host, because different hosts have different addresses. */
  lemma {:induction false} PoolCapacity(subnet: string, used: set<string>, last: nat)
    requires last >= 1
    ensures |PoolIps(subnet, last)| == last - 1
    ensures |used * PoolIps(subnet, last)| + |PoolIps(subnet, last) - used| == last - 1
  {
    if last == 1 {
      assert PoolIps(subnet, last) == {};
    } else {
      PoolCapacity(subnet, used, last - 1);
      HostIsNew(subnet, last - 1, last);
      OneMore(used, PoolIps(subnet, last - 1), HostIp(subnet, last));
    }
  }

  ghost predicate ShowsUsed(subnet: string, used: set<string>, host: nat, cell: Cell) {
    cell.status == Available <==> HostIp(subnet, host) !in used
  }

  lemma {:induction false} AvailableCells(subnet: string, used: set<string>, cells: seq<Cell>)
    requires |cells| >= 1 && cells[0].status == Gateway
    requires forall k :: 1 <= k < |cells| ==> ShowsUsed(subnet, used, k + 1, cells[k])
    ensures CountAvailable(cells) == |PoolIps(subnet, |cells|) - used|
  {
    var n := |cells| - 1;
    if n == 0 {
      assert PoolIps(subnet, |cells|) == {};
      assert CountAvailable(cells) == CountAvailable(cells[..0]);
    } else {
      AvailableCells(subnet, used, cells[..n]);
      HostIsNew(subnet, n, n + 1);
      OneMore(used, PoolIps(subnet, n), HostIp(subnet, n + 1));
      assert ShowsUsed(subnet, used, n + 1, cells[n]);
    }
  }

  /**
   * The statistics agree with the number of available cells exactly when every used
   * address lies in hosts 2 to 254, or the pool is exhausted.
   */
  lemma StatsAgreeWithMatrix(subnet: string, rows: map<nat, Row>, cells: seq<Cell>, availableCount: nat)
    requires IsMatrix(subnet, rows, cells)
    requires var capacity, used := |PoolIps(subnet, END_HOST)|, |ActiveOrPendingIps(rows)|;
      availableCount + used == capacity || (availableCount == 0 && used > capacity)
    ensures availableCount == CountAvailable(cells)
      <==> (ActiveOrPendingIps(rows) <= PoolIps(subnet, END_HOST) || PoolIps(subnet, END_HOST) <= ActiveOrPendingIps(rows))
  {
    var used := ActiveOrPendingIps(rows);
    var pool := PoolIps(subnet, END_HOST);
    forall k | 1 <= k < |cells|
      ensures ShowsUsed(subnet, used, k + 1, cells[k])
    {
      assert IsCell(subnet, rows, k + 1, cells[k]);
    }
    AvailableCells(subnet, used, cells);
    PoolCapacity(subnet, used, END_HOST);
    assert used == used * pool + (used - pool);
    assert |used| == |used * pool| + |used - pool|;
    if used <= pool {
      assert used - pool == {};
    } else if pool <= used {
      assert pool - used == {};
    } else {
      var a :| a in used && a !in pool;
      assert a in used - pool;
      var b :| b in pool && b !in used;
      assert b in pool - used;
    }
  }

  /** The allocator hands out the first available cell, and fails exactly when there is none. */
  lemma AllocatorMatchesMatrix(subnet: string, rows: map<nat, Row>, cells: seq<Cell>)
    requires IsMatrix(subnet, rows, cells)
    ensures match Allocated(subnet, rows)
      case Some(ip) =>
        exists k :: 0 <= k < |cells| && cells[k].ip == ip && cells[k].status == Available
          && forall j :: 0 <= j < k ==> cells[j].status != Available
      case None => forall k :: 0 <= k < |cells| ==> cells[k].status != Available
  {
    var free := FirstFree(subnet, ActiveOrPendingIps(rows), START_HOST);
    if free.Some? {
      var k := free.value - 1;
      assert IsCell(subnet, rows, free.value, cells[k]);
      forall j | 0 <= j < k
        ensures cells[j].status != Available
      {
        assert j > 0 ==> IsCell(subnet, rows, j + 1, cells[j]);
      }
    } else {
      forall k | 0 <= k < |cells|
        ensures cells[k].status != Available
      {
        assert k > 0 ==> IsCell(subnet, rows, k + 1, cells[k]);
      }
    }
  }

  /** An allocated address is a pool host that no waiting or active row holds. */
  lemma AllocatedIsFree(subnet: string, rows: map<nat, Row>, ip: string)
    requires IsSubnetPrefix(subnet) && Allocated(subnet, rows) == Some(ip)
    ensures InPool(subnet, ip) && ip != ""
    ensures forall i :: i in rows && rows[i].vpnIp == Some(ip) ==> rows[i].status == REVOKED
  {
    var free := FirstFree(subnet, ActiveOrPendingIps(rows), START_HOST);
    HostIpInPool(subnet, free.value);
    forall i | i in rows && rows[i].vpnIp == Some(ip)
      ensures rows[i].status == REVOKED
    {
      assert rows[i].status != REVOKED ==> ip in ActiveOrPendingIps(rows);
    }
  }

  /**
   * A new device can be stored at the allocated address exactly when no revoked row
   * still holds it: the allocator overlooks revoked rows, the unique index does not.
   */
  lemma AllocationStorable(subnet: string, s: Store, ip: string, deviceId: string, model: string, key: string)
    requires s.Valid() && IsSubnetPrefix(subnet) && Allocated(subnet, s.rows) == Some(ip)
    requires ByDeviceId(s.rows, deviceId) == None
    ensures Created(s, Row(deviceId, model, Some(ip), key, ACTIVE), NO_FAULTS).1.Some?
      <==> forall i :: i in s.rows && s.rows[i].status == REVOKED ==> s.rows[i].vpnIp != Some(ip)
  {
    AllocatedIsFree(subnet, s.rows, ip);
    var row := Row(deviceId, model, Some(ip), key, ACTIVE);
    forall i | i in s.rows
      ensures Clash(s.rows[i], row) <==> s.rows[i].vpnIp == Some(ip)
    {
      assert !HasDeviceId(s.rows, i, deviceId);
    }
    assert s.nextId !in s.rows;
  }
}
