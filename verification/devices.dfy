/**
 * The device table with its unique columns, the Redis hash `drone:ip_map`, and
 * the service that changes both. Database calls and Redis writes may fail.
 */
module Devices {
  import opened Wrappers
  import opened Addresses

  datatype Status = PENDING | ACTIVE | REVOKED

  datatype Row = Row(deviceId: string, hardwareModel: string, vpnIp: Option<string>, vpnPublicKey: string, status: Status)

  /** The three collections the service changes; row ids are never reused. */
  datatype Store = Store(rows: map<nat, Row>, nextId: nat, ipMap: map<string, string>) {
    /** Unique columns, unused future ids, and no empty identifiers. */
    ghost predicate Valid() {
      && UniqueColumns(rows)
      && (forall i :: i in rows ==> i < nextId && rows[i].deviceId != "" && rows[i].vpnIp != Some(""))
    }
  }

  ghost predicate UniqueColumns(rows: map<nat, Row>) {
    forall i, j :: i in rows && j in rows && i != j ==> !Clash(rows[i], rows[j])
  }

  /** Two rows the unique indexes do not admit together. */
  predicate Clash(a: Row, b: Row) {
    a.deviceId == b.deviceId || (a.vpnIp.Some? && a.vpnIp == b.vpnIp)
  }

  /** Which of the calls that one operation makes succeed. */
  datatype Faults = Faults(readOk: bool, deleteOk: bool, writeOk: bool, redisOk: bool)

  const NO_FAULTS := Faults(true, true, true, true)

  /** Fields of an update; the empty string and `None` leave a field as it is. */
  datatype Update = Update(hardwareModel: string, vpnIp: Option<Option<string>>, vpnPublicKey: string, status: Option<Status>)

  function Merged(row: Row, input: Update): Row {
    row.(
      hardwareModel := if input.hardwareModel != "" then input.hardwareModel else row.hardwareModel,
      vpnIp := if input.vpnIp.Some? then input.vpnIp.value else row.vpnIp,
      vpnPublicKey := if input.vpnPublicKey != "" then input.vpnPublicKey else row.vpnPublicKey,
      status := if input.status.Some? then input.status.value else row.status)
  }

  // ---------------------------------------------------------------- lookups

  ghost predicate HasDeviceId(rows: map<nat, Row>, i: nat, deviceId: string) {
    i in rows && rows[i].deviceId == deviceId
  }

  ghost predicate HasVpnIp(rows: map<nat, Row>, i: nat, ip: string) {
    i in rows && rows[i].vpnIp == Some(ip)
  }

  ghost function ByDeviceId(rows: map<nat, Row>, deviceId: string): (r: Option<nat>)
    ensures r.Some? ==> HasDeviceId(rows, r.value, deviceId)
    ensures r.None? ==> forall i :: !HasDeviceId(rows, i, deviceId)
  {
    if i :| HasDeviceId(rows, i, deviceId) then Some(i) else None
  }

  ghost function ByVpnIp(rows: map<nat, Row>, ip: string): (r: Option<nat>)
    ensures r.Some? ==> HasVpnIp(rows, r.value, ip)
    ensures r.None? ==> forall i :: !HasVpnIp(rows, i, ip)
  {
    if i :| HasVpnIp(rows, i, ip) then Some(i) else None
  }

  predicate HoldsInUse(row: Row, ip: string) {
    row.status != REVOKED && row.vpnIp == Some(ip)
  }

  /** Addresses of rows that are waiting or active: what the allocator must avoid. */
  function ActiveOrPendingIps(rows: map<nat, Row>): set<string> {
    set i | i in rows && rows[i].status != REVOKED && rows[i].vpnIp.Some? :: rows[i].vpnIp.value
  }

  // ------------------------------------------------------- specification

  /** `mapIpToDevice`: skips empty arguments and never throws. */
  function Mapped(s: Store, ip: Option<string>, deviceId: string, ok: bool): Store {
    if ok && ip.Some? && ip.value != "" && deviceId != "" then s.(ipMap := s.ipMap[ip.value := deviceId]) else s
  }

  ghost predicate Admissible(rows: map<nat, Row>, id: nat, row: Row) {
    forall i :: i in rows && i != id ==> !Clash(rows[i], row)
  }

  /** Writes one row under its id when the unique indexes allow it. */
  ghost function Written(s: Store, id: nat, row: Row, f: Faults): (r: (Store, Option<nat>)) {
    if f.writeOk && Admissible(s.rows, id, row) then
      (Mapped(s.(rows := s.rows[id := row], nextId := if id < s.nextId then s.nextId else id + 1),
              row.vpnIp, row.deviceId, f.redisOk), Some(id))
    else (s, None)
  }

  ghost function Created(s: Store, row: Row, f: Faults): (r: (Store, Option<nat>)) {
    Written(s, s.nextId, row, f)
  }

  ghost function Updated(s: Store, id: nat, input: Update, f: Faults): (r: (Store, Option<nat>)) {
    if id in s.rows then Written(s, id, Merged(s.rows[id], input), f) else (s, None)
  }

  /** What a kernel peer owning `ip` does to the table at startup. */
  ghost function Synced(s: Store, ip: string, key: string, f: Faults): (Store, Option<nat>) {
    var holder := ByVpnIp(s.rows, ip);
    var named := ByDeviceId(s.rows, TempDeviceId(ip));
    if !f.readOk then (s, None)
    else if holder.Some? && (key == "" || s.rows[holder.value].vpnPublicKey == key) then (s, holder)
    else if holder.Some? then Updated(s, holder.value, Update("", None, key, Some(ACTIVE)), f)
    else if named.Some? then Updated(s, named.value, Update("", Some(Some(ip)), key, Some(ACTIVE)), f)
    else Created(s, Row(TempDeviceId(ip), "Manual WireGuard Peer", Some(ip), key, ACTIVE), f)
  }

  predicate IsBlank(c: char) {
    c == ' ' || c == '\t' || c == '\n' || c == '\r'
  }

  function Trim(s: string): (t: string)
    ensures t != "" ==> !IsBlank(t[0]) && !IsBlank(t[|t| - 1])
    decreases |s|
  {
    if s == "" then s
    else if IsBlank(s[0]) then Trim(s[1..])
    else if IsBlank(s[|s| - 1]) then Trim(s[..|s| - 1])
    else s
  }

  /** What telemetry from device `realId` at address `ip` does to the table. */
  ghost function Bound(s: Store, realId: string, ip: string, model: string, f: Faults): (Store, Option<nat>) {
    var clean := Trim(realId);
    var known := ByDeviceId(s.rows, clean);
    var holder := if ip == "" then None else ByVpnIp(s.rows, ip);
    if clean == "" || !f.readOk then (s, None)
    else if known.Some? && (ip == "" || s.rows[known.value].vpnIp == Some(ip)) then (s, known)
    else if known.Some? && holder.Some? && !f.deleteOk then (s, None)
    else if known.Some? then
      Updated(if holder.Some? then s.(rows := s.rows - {holder.value}) else s,
              known.value, Update("", Some(Some(ip)), "", Some(ACTIVE)), f)
    else if holder.Some? then
      var row := s.rows[holder.value];
      Written(s, holder.value,
              row.(deviceId := clean, hardwareModel := if model != "" then model else row.hardwareModel, status := ACTIVE), f)
    else
      Created(s, Row(clean, model, if ip == "" then None else Some(ip), "MANUAL_TELEMETRY", ACTIVE), f)
  }

  /** Start of the service: every active row with an address is mapped, in any order. */
  function Loaded(s: Store, order: seq<nat>, ok: bool): Store
    requires forall i :: i in order ==> i in s.rows
  {
    if order == [] then s
    else
      var t := Loaded(s, order[..|order| - 1], ok);
      var row := s.rows[order[|order| - 1]];
      Mapped(t, row.vpnIp, row.deviceId, ok)
  }

  ghost predicate ListsActive(rows: map<nat, Row>, order: seq<nat>) {
    forall i :: i in order <==> i in rows && rows[i].status == ACTIVE && rows[i].vpnIp.Some?
  }

  // -------------------------------------------------------------- service

  class DeviceService {
    var rows: map<nat, Row>
    var nextId: nat
    var ipMap: map<string, string>

    constructor (initial: Store)
      ensures State() == initial
    {
      rows, nextId, ipMap := initial.rows, initial.nextId, initial.ipMap;
    }

    function State(): Store
      reads this
    {
      Store(rows, nextId, ipMap)
    }

    method FindByDeviceId(deviceId: string) returns (found: Option<nat>)
      requires State().Valid()
      ensures found == ByDeviceId(rows, deviceId)
    {
      if i: nat :| i in rows && rows[i].deviceId == deviceId {
        assert HasDeviceId(rows, i, deviceId);
        found := Some(i);
      } else {
        found := None;
      }
    }

    method FindByVpnIp(vpnIp: string) returns (found: Option<nat>)
      requires State().Valid()
      ensures found == ByVpnIp(rows, vpnIp)
    {
      if i: nat :| i in rows && rows[i].vpnIp == Some(vpnIp) {
        assert HasVpnIp(rows, i, vpnIp);
        found := Some(i);
      } else {
        found := None;
      }
    }

    /** Insert or update of one row; the unique indexes and the connection may refuse it. */
    method Write(id: nat, row: Row, f: Faults) returns (stored: Option<nat>)
      modifies this
      ensures (State(), stored) == Written(old(State()), id, row, f)
    {
      if !f.writeOk {
        return None;
      }
      if i: nat :| i in rows && i != id && Clash(rows[i], row) {
        return None;
      }
      rows := rows[id := row];
      nextId := if id < nextId then nextId else id + 1;
      stored := Some(id);
      if row.vpnIp.Some? {
        MapIpToDevice(row.vpnIp.value, row.deviceId, f.redisOk);
      }
    }

    method MapIpToDevice(vpnIp: string, deviceId: string, ok: bool)
      modifies this`ipMap
      ensures State() == Mapped(old(State()), Some(vpnIp), deviceId, ok)
    {
      if vpnIp == "" || deviceId == "" {
        return;
      }
      if ok {
        ipMap := ipMap[vpnIp := deviceId];
      }
    }

    method CreateDevice(row: Row, f: Faults) returns (stored: Option<nat>)
      modifies this
      ensures (State(), stored) == Created(old(State()), row, f)
    {
      stored := Write(nextId, row, f);
    }

    method UpdateDevice(id: nat, input: Update, f: Faults) returns (stored: Option<nat>)
      modifies this
      ensures (State(), stored) == Updated(old(State()), id, input, f)
    {
      if id !in rows {
        return None;
      }
      stored := Write(id, Merged(rows[id], input), f);
    }

    method SyncManualKernelPeer(vpnIp: string, vpnPublicKey: string, f: Faults) returns (stored: Option<nat>)
      requires State().Valid()
      modifies this
      ensures (State(), stored) == Synced(old(State()), vpnIp, vpnPublicKey, f)
    {
      if !f.readOk {
        return None;
      }
      var existingByIp := FindByVpnIp(vpnIp);
      if existingByIp.Some? {
        if vpnPublicKey != "" && rows[existingByIp.value].vpnPublicKey != vpnPublicKey {
          stored := UpdateDevice(existingByIp.value, Update("", None, vpnPublicKey, Some(ACTIVE)), f);
          return;
        }
        return existingByIp;
      }
      var tempDeviceId := TempDeviceId(vpnIp);
      var existingById := FindByDeviceId(tempDeviceId);
      if existingById.Some? {
        stored := UpdateDevice(existingById.value, Update("", Some(Some(vpnIp)), vpnPublicKey, Some(ACTIVE)), f);
        return;
      }
      stored := CreateDevice(Row(tempDeviceId, "Manual WireGuard Peer", Some(vpnIp), vpnPublicKey, ACTIVE), f);
    }

    method BindOrUpdateDeviceIdentity(realDeviceId: string, vpnIp: string, hardwareModel: string, f: Faults)
      returns (stored: Option<nat>)
      requires State().Valid()
      modifies this
      ensures (State(), stored) == Bound(old(State()), realDeviceId, vpnIp, hardwareModel, f)
    {
      var cleanId := Trim(realDeviceId);
      if cleanId == "" || !f.readOk {
        return None;
      }
      var existingById := FindByDeviceId(cleanId);
      if existingById.Some? {
        if vpnIp != "" && rows[existingById.value].vpnIp != Some(vpnIp) {
          var conflict := FindByVpnIp(vpnIp);
          if conflict.Some? && conflict != existingById {
            if !f.deleteOk {
              return None;
            }
            rows := rows - {conflict.value};
          }
          stored := UpdateDevice(existingById.value, Update("", Some(Some(vpnIp)), "", Some(ACTIVE)), f);
          return;
        }
        return existingById;
      }
      if vpnIp != "" {
        var existingByIp := FindByVpnIp(vpnIp);
        if existingByIp.Some? {
          var row := rows[existingByIp.value];
          stored := Write(existingByIp.value,
            row.(deviceId := cleanId,
                 hardwareModel := if hardwareModel != "" then hardwareModel else row.hardwareModel,
                 status := ACTIVE), f);
          return;
        }
      }
      stored := CreateDevice(
        Row(cleanId, hardwareModel, if vpnIp == "" then None else Some(vpnIp), "MANUAL_TELEMETRY", ACTIVE), f);
    }

    /** Addresses in use, one per row; uniqueness of the column makes them distinct. */
    method FindActiveOrPendingIps() returns (ips: seq<string>)
      requires State().Valid()
      ensures NoDuplicates(ips)
      ensures forall ip :: ip in ips <==> ip in ActiveOrPendingIps(rows)
    {
      ips := [];
      var rest := rows.Keys;
      ghost var done: set<nat> := {};
      while rest != {}
        invariant rest !! done && rest + done == rows.Keys
        invariant NoDuplicates(ips)
        invariant forall ip :: ip in ips <==> exists i :: i in done && HoldsInUse(rows[i], ip)
        decreases rest
      {
        var i :| i in rest;
        ghost var before := ips;
        if rows[i].status != REVOKED && rows[i].vpnIp.Some? {
          var ip := rows[i].vpnIp.value;
          assert ip !in ips by {
            if ip in ips {
              var j :| j in done && HoldsInUse(rows[j], ip);
              assert Clash(rows[i], rows[j]);
            }
          }
          ips := ips + [ip];
        }
        rest, done := rest - {i}, done + {i};
        forall ip
          ensures ip in ips <==> exists j :: j in done && HoldsInUse(rows[j], ip)
        {
          assert ip in ips <==> ip in before || HoldsInUse(rows[i], ip);
        }
      }
      forall ip
        ensures ip in ips <==> ip in ActiveOrPendingIps(rows)
      {
        assert ip in ips <==> exists i :: i in done && HoldsInUse(rows[i], ip);
      }
    }

    /** Each active row with an address, once. */
    method FindActiveDevices() returns (order: seq<nat>)
      ensures ListsActive(rows, order) && NoDuplicates(order)
    {
      order := [];
      var rest := rows.Keys;
      while rest != {}
        invariant rest <= rows.Keys && NoDuplicates(order)
        invariant forall i :: i in order <==> i in rows && i !in rest && rows[i].status == ACTIVE && rows[i].vpnIp.Some?
        decreases rest
      {
        var i :| i in rest;
        if rows[i].status == ACTIVE && rows[i].vpnIp.Some? {
          assert i !in order;
          order := order + [i];
        }
        rest := rest - {i};
      }
    }

    /** Loads every active address into the map, in the order the query returned; a failed query loads none. */
    method OnModuleInit(readOk: bool, ok: bool) returns (order: seq<nat>)
      modifies this`ipMap
      ensures if readOk then ListsActive(rows, order) && NoDuplicates(order) else order == []
      ensures State() == Loaded(old(State()), order, ok)
    {
      order := [];
      if !readOk {
        return;
      }
      order := FindActiveDevices();
      for k := 0 to |order|
        invariant State() == Loaded(old(State()), order[..k], ok)
      {
        var dev := rows[order[k]];
        if dev.vpnIp.Some? {
          MapIpToDevice(dev.vpnIp.value, dev.deviceId, ok);
        }
        assert order[..k + 1][..k] == order[..k];
      }
      assert order[..|order|] == order;
    }
  }
}
