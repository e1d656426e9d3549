/**
 * Registration as a saga over the kernel, the device table and the address map:
 * every step may fail, and the service undoes what it did.
 */
module Provisioning {
  import opened Wrappers
  import opened WireGuard
  import opened Devices
  import opened IpPool

  datatype World = World(kernel: Kernel, store: Store)

  datatype Request = Request(deviceId: string, provisionToken: string, hardwareModel: string)

  datatype Reason = ServerConfiguration | Unauthorized | Revoked | ReadFailed | PoolFull | KeygenFailed | VpnFailed | DatabaseFailed

  datatype Outcome = Success(deviceId: string, assignedIp: string, publicKey: string) | Thrown(reason: Reason)

  /** Which calls of one registration succeed. */
  datatype CallFaults = CallFaults(
    findOk: bool, allocateOk: bool, keygenOk: bool,
    removeOldOk: bool, addNewOk: bool, db: Faults, removeNewOk: bool, restoreOk: bool)

  /** The commands that undo a failed registration take effect. */
  predicate RollbackWorks(f: CallFaults) {
    f.removeNewOk && f.restoreOk
  }

  /** Configuration the service reads: the factory token and the pool's prefix. */
  datatype Settings = Settings(token: Option<string>, subnet: string)

  // ---------------------------------------------------------- specification

  ghost function NewProvisioning(w: World, c: Settings, dto: Request, key: string, f: CallFaults): (World, Outcome) {
    var ip := Allocated(c.subnet, w.store.rows);
    if !f.allocateOk then (w, Thrown(ReadFailed))
    else if ip.None? then (w, Thrown(PoolFull))
    else if !f.keygenOk then (w, Thrown(KeygenFailed))
    else if !(f.addNewOk && IsRealKey(key)) then (w, Thrown(VpnFailed))
    else
      var added := w.kernel.Allow(key, ip.value);
      var (store, stored) := Created(w.store, Row(dto.deviceId, dto.hardwareModel, ip, key, ACTIVE), f.db);
      if stored.Some? then (World(added, store), Success(dto.deviceId, ip.value, key))
      else (World(Removed(added, key, f.removeNewOk), store), Thrown(DatabaseFailed))
  }

  /** The address a rotation uses: the device's own, or a new one if it has none. */
  function RotationIp(w: World, c: Settings, row: Row): Option<string> {
    if row.vpnIp.Some? then row.vpnIp else Allocated(c.subnet, w.store.rows)
  }

  /** The kernel after a failed rotation: the new peer was `added` or not, then both are rolled back. */
  function RolledBack(k: Kernel, prior: string, key: string, ip: string, f: CallFaults, added: bool): Kernel {
    var cleared := Removed(k, prior, f.removeOldOk);
    if added then Added(Removed(cleared.Allow(key, ip), key, f.removeNewOk), prior, ip, f.restoreOk)
    else Added(cleared, prior, ip, f.restoreOk)
  }

  ghost function Rotation(w: World, c: Settings, id: nat, dto: Request, key: string, f: CallFaults): (World, Outcome)
    requires id in w.store.rows
  {
    var row := w.store.rows[id];
    var ip := RotationIp(w, c, row);
    if row.vpnIp.None? && !f.allocateOk then (w, Thrown(ReadFailed))
    else if ip.None? then (w, Thrown(PoolFull))
    else if !f.keygenOk then (w, Thrown(KeygenFailed))
    else Rotated(w, id, dto, ip.value, key, f)
  }

  /** A rotation that has its address and its key. */
  ghost function Rotated(w: World, id: nat, dto: Request, ip: string, key: string, f: CallFaults): (World, Outcome)
    requires id in w.store.rows
  {
    var prior := w.store.rows[id].vpnPublicKey;
    if !(f.addNewOk && IsRealKey(key)) then
      (World(RolledBack(w.kernel, prior, key, ip, f, false), w.store), Thrown(VpnFailed))
    else
      var (store, stored) := Updated(w.store, id, Update(dto.hardwareModel, Some(Some(ip)), key, Some(ACTIVE)), f.db);
      if stored.Some? then
        (World(Removed(w.kernel, prior, f.removeOldOk).Allow(key, ip), store), Success(dto.deviceId, ip, key))
      else
        (World(RolledBack(w.kernel, prior, key, ip, f, true), store), Thrown(DatabaseFailed))
  }

  ghost function Registration(w: World, c: Settings, dto: Request, key: string, f: CallFaults): (World, Outcome) {
    var found := ByDeviceId(w.store.rows, dto.deviceId);
    if c.token.None? || c.token.value == "" then (w, Thrown(ServerConfiguration))
    else if dto.provisionToken != c.token.value then (w, Thrown(Unauthorized))
    else if !f.findOk then (w, Thrown(ReadFailed))
    else if found.None? then NewProvisioning(w, c, dto, key, f)
    else if w.store.rows[found.value].status == REVOKED then (w, Thrown(Revoked))
    else Rotation(w, c, found.value, dto, key, f)
  }

  // ---------------------------------------------------------------- service

  class ProvisioningService {
    const settings: Settings
    const wireguard: WireguardService
    const devices: DeviceService
    const ipPool: IpPoolService

    constructor (settings: Settings, wireguard: WireguardService, devices: DeviceService, ipPool: IpPoolService)
      requires ipPool.devices == devices && ipPool.subnet == settings.subnet
      ensures this.settings == settings && this.wireguard == wireguard
      ensures this.devices == devices && this.ipPool == ipPool
    {
      this.settings, this.wireguard, this.devices, this.ipPool := settings, wireguard, devices, ipPool;
    }

    ghost function State(): World
      reads wireguard, devices
    {
      World(wireguard.kernel, devices.State())
    }

    ghost predicate Wired()
      reads devices
    {
      ipPool.devices == devices && ipPool.subnet == settings.subnet && devices.State().Valid()
    }

    /** `key` is the pair `wg genkey` would produce; `f` says which calls succeed. */
    method RegisterDevice(dto: Request, key: string, f: CallFaults) returns (outcome: Outcome)
      requires Wired()
      modifies wireguard, devices
      ensures (State(), outcome) == Registration(old(State()), settings, dto, key, f)
    {
      if settings.token.None? || settings.token.value == "" {
        return Thrown(ServerConfiguration);
      }
      if dto.provisionToken != settings.token.value {
        return Thrown(Unauthorized);
      }
      if !f.findOk {
        return Thrown(ReadFailed);
      }
      var existing := devices.FindByDeviceId(dto.deviceId);
      if existing.Some? {
        if devices.rows[existing.value].status == REVOKED {
          return Thrown(Revoked);
        }
        outcome := HandleReProvisioning(existing.value, dto, key, f);
      } else {
        outcome := HandleNewProvisioning(dto, key, f);
      }
    }

    method HandleNewProvisioning(dto: Request, key: string, f: CallFaults) returns (outcome: Outcome)
      requires Wired()
      modifies wireguard, devices
      ensures (State(), outcome) == NewProvisioning(old(State()), settings, dto, key, f)
    {
      if !f.allocateOk {
        return Thrown(ReadFailed);
      }
      var vpnIp := ipPool.AllocateIp();
      if vpnIp.None? {
        return Thrown(PoolFull);
      }
      if !f.keygenOk {
        return Thrown(KeygenFailed);
      }
      var added := wireguard.AddPeer(key, vpnIp.value, f.addNewOk);
      if !added {
        return Thrown(VpnFailed);
      }
      var stored := devices.CreateDevice(Row(dto.deviceId, dto.hardwareModel, vpnIp, key, ACTIVE), f.db);
      if stored.None? {
        wireguard.RemovePeer(key, f.removeNewOk);
        return Thrown(DatabaseFailed);
      }
      outcome := Success(dto.deviceId, vpnIp.value, key);
    }

    method HandleReProvisioning(id: nat, dto: Request, key: string, f: CallFaults) returns (outcome: Outcome)
      requires Wired() && id in devices.rows
      modifies wireguard, devices
      ensures (State(), outcome) == Rotation(old(State()), settings, id, dto, key, f)
    {
      var vpnIp := devices.rows[id].vpnIp;
      if vpnIp.None? {
        if !f.allocateOk {
          return Thrown(ReadFailed);
        }
        vpnIp := ipPool.AllocateIp();
        if vpnIp.None? {
          return Thrown(PoolFull);
        }
      }
      var oldPublicKey := devices.rows[id].vpnPublicKey;
      if !f.keygenOk {
        return Thrown(KeygenFailed);
      }
      if oldPublicKey != "" {
        wireguard.RemovePeer(oldPublicKey, f.removeOldOk);
      }
      var added := wireguard.AddPeer(key, vpnIp.value, f.addNewOk);
      if !added {
        if oldPublicKey != "" {
          var _ := wireguard.AddPeer(oldPublicKey, vpnIp.value, f.restoreOk);
        }
        return Thrown(VpnFailed);
      }
      var stored := devices.UpdateDevice(id, Update(dto.hardwareModel, Some(vpnIp), key, Some(ACTIVE)), f.db);
      if stored.None? {
        wireguard.RemovePeer(key, f.removeNewOk);
        if oldPublicKey != "" {
          var _ := wireguard.AddPeer(oldPublicKey, vpnIp.value, f.restoreOk);
        }
        return Thrown(DatabaseFailed);
      }
      outcome := Success(dto.deviceId, vpnIp.value, key);
    }
  }
}
