/**
 * What registrations keep: agreement between kernel and table, complete rollback,
 * stable addresses, and no stray keys.
 */
module Saga {
  import opened Wrappers
  import opened Addresses
  import opened WireGuard
  import opened Devices
  import opened IpPool
  import opened Provisioning
  import opened Identity

  /** Kernel and table tell the same story about the pool. */
  ghost predicate Agreement(w: World, subnet: string) {
    && w.kernel.Valid() && w.store.Valid()
    && (forall i :: i in w.store.rows && w.store.rows[i].vpnIp.Some? ==> RowAgrees(w.kernel, subnet, w.store.rows[i]))
    && (forall a :: a in w.kernel.owner && InPool(subnet, a) ==> ByVpnIp(w.store.rows, a).Some?)
    && DistinctRealKeys(w.store.rows)
  }

  /** A row with an address is active; a real key owns that address, a placeholder's address is unowned. */
  ghost predicate RowAgrees(k: Kernel, subnet: string, row: Row)
    requires row.vpnIp.Some?
  {
    && row.status == ACTIVE
    && (IsRealKey(row.vpnPublicKey) ==> Owns(k, row.vpnIp.value, row.vpnPublicKey))
    && (!IsRealKey(row.vpnPublicKey) && InPool(subnet, row.vpnIp.value) ==> row.vpnIp.value !in k.owner)
  }

  /** The row has an address and a real key. */
  predicate KeyedAt(row: Row) {
    row.vpnIp.Some? && IsRealKey(row.vpnPublicKey)
  }

  ghost predicate DistinctRealKeys(rows: map<nat, Row>) {
    forall i, j :: i in rows && j in rows && i != j && KeyedAt(rows[i]) && KeyedAt(rows[j]) ==>
      rows[i].vpnPublicKey != rows[j].vpnPublicKey
  }

  /** A rotation of this row can be undone: its key owns its address and nothing else, or owns nothing at all. */
  ghost predicate Restorable(k: Kernel, row: Row) {
    if IsRealKey(row.vpnPublicKey) then row.vpnIp.Some? && k.Owned(row.vpnPublicKey) == {row.vpnIp.value}
    else row.vpnIp.Some? ==> row.vpnIp.value !in k.owner
  }

  /** Agreement, and every row in use with a real key has an address. */
  ghost predicate Steady(w: World, subnet: string) {
    Agreement(w, subnet) && KeysAddressed(w.store.rows)
  }

  /** A key `wg genkey` has not produced before. */
  ghost predicate Fresh(w: World, key: string) {
    && IsRealKey(key) && key !in w.kernel.peers
    && forall i :: i in w.store.rows ==> w.store.rows[i].vpnPublicKey != key
  }

  lemma AllocatedUnowned(w: World, c: Settings, ip: string)
    requires Agreement(w, c.subnet) && IsSubnetPrefix(c.subnet)
    requires Allocated(c.subnet, w.store.rows) == Some(ip)
    ensures ip !in w.kernel.owner && InPool(c.subnet, ip) && ip != ""
    ensures forall i :: i in w.store.rows ==> w.store.rows[i].vpnIp != Some(ip)
  {
    AllocatedIsFree(c.subnet, w.store.rows, ip);
    forall i | i in w.store.rows
      ensures w.store.rows[i].vpnIp != Some(ip)
    {
      assert w.store.rows[i].vpnIp.Some? ==> RowAgrees(w.kernel, c.subnet, w.store.rows[i]);
    }
    assert ByVpnIp(w.store.rows, ip).None?;
  }

  // ----------------------------------------------------------- the token

  /** The request carries the factory token that is configured, and one is. */
  predicate Authorized(c: Settings, dto: Request) {
    c.token == Some(dto.provisionToken) && dto.provisionToken != ""
  }

  /**
   * Who is let in: a request with another token than the configured one, or while none is
   * configured, is refused and changes nothing, whatever its device; so is a revoked device. A
   * success needs the right token and a device that is not revoked.
   */
  lemma RefusedWithoutToken(w: World, c: Settings, dto: Request, key: string, f: CallFaults)
    ensures var (after, outcome) := Registration(w, c, dto, key, f);
      var found := ByDeviceId(w.store.rows, dto.deviceId);
      && (!Authorized(c, dto) ==> after == w)
      && (!Authorized(c, dto) ==> outcome == Thrown(if c.token in {None, Some("")} then ServerConfiguration else Unauthorized))
      && (Authorized(c, dto) ==> outcome !in {Thrown(ServerConfiguration), Thrown(Unauthorized)})
      && (Authorized(c, dto) && f.findOk && found.Some? && w.store.rows[found.value].status == REVOKED ==>
           after == w && outcome == Thrown(Revoked))
      && (outcome.Success? ==> Authorized(c, dto) && (found.Some? ==> w.store.rows[found.value].status != REVOKED))
  {
  }

  // ------------------------------------------------------------ rollback

  /** A new registration that fails leaves no trace. */
  lemma NewProvisioningUndone(w: World, c: Settings, dto: Request, key: string, f: CallFaults)
    requires Agreement(w, c.subnet) && IsSubnetPrefix(c.subnet) && Fresh(w, key) && RollbackWorks(f)
    requires NewProvisioning(w, c, dto, key, f).1.Thrown?
    ensures NewProvisioning(w, c, dto, key, f).0 == w
  {
    var ip := Allocated(c.subnet, w.store.rows);
    if ip.Some? {
      AllocatedUnowned(w, c, ip.value);
      AllowThenDrop(w.kernel, key, ip.value);
    }
  }

  predicate ReachedKernel(o: Outcome) {
    o == Thrown(VpnFailed) || o == Thrown(DatabaseFailed)
  }

  /** Rolling back restores the kernel exactly when the old key owned that one address, or had nothing to lose. */
  lemma RolledBackRestores(k: Kernel, prior: string, key: string, ip: string, f: CallFaults, added: bool)
    requires k.Valid() && IsRealKey(key) && key !in k.peers && prior != key && RollbackWorks(f)
    ensures RolledBack(k, prior, key, ip, f, added) == k <==>
      if IsRealKey(prior) then k.Owned(prior) == {ip} else !added || ip !in k.owner
  {
    RealKeyIsRemovable(key);
    if IsRealKey(prior) {
      RealKeyIsRemovable(prior);
      RestoreForgets(k, prior, key, ip);
      AllowIsNoop(k, prior, ip);
    } else {
      DropUnknown(k, prior);
      AllowThenDrop(k, key, ip);
    }
  }

  lemma DropUnknown(k: Kernel, key: string)
    requires k.Valid() && key !in k.peers
    ensures k.Drop(key) == k
  {
    assert forall a :: a in k.owner ==> k.owner[a] != key;
    assert k.Drop(key).owner == k.owner;
  }

  /**
   * A rotation that fails after it touched the kernel, with working rollback commands,
   * never changes the table; it puts the kernel back exactly when the row was restorable
   * (or had a placeholder key and no new peer was ever added).
   */
  lemma RotationUndone(w: World, c: Settings, id: nat, dto: Request, key: string, f: CallFaults)
    requires Agreement(w, c.subnet) && IsSubnetPrefix(c.subnet) && Fresh(w, key) && RollbackWorks(f)
    requires id in w.store.rows && w.store.rows[id].status != REVOKED
    requires ReachedKernel(Rotation(w, c, id, dto, key, f).1)
    ensures Rotation(w, c, id, dto, key, f).0.store == w.store
    ensures Rotation(w, c, id, dto, key, f).0 == w <==>
      (Restorable(w.kernel, w.store.rows[id])
       || (!IsRealKey(w.store.rows[id].vpnPublicKey) && Rotation(w, c, id, dto, key, f).1 == Thrown(VpnFailed)))
  {
    var row := w.store.rows[id];
    var ip := RotationIp(w, c, row).value;
    if row.vpnIp.None? {
      AllocatedUnowned(w, c, ip);
      assert ip !in w.kernel.Owned(row.vpnPublicKey);
    }
    var added := Rotation(w, c, id, dto, key, f).1 == Thrown(DatabaseFailed);
    RolledBackRestores(w.kernel, row.vpnPublicKey, key, ip, f, added);
  }

  /** The failure came before the kernel was touched, or the rotated row was restorable, or its placeholder key had nothing to lose. */
  ghost predicate Recoverable(w: World, dto: Request, outcome: Outcome) {
    var found := ByDeviceId(w.store.rows, dto.deviceId);
    found.Some? && ReachedKernel(outcome) ==>
      var row := w.store.rows[found.value];
      Restorable(w.kernel, row) || (!IsRealKey(row.vpnPublicKey) && outcome == Thrown(VpnFailed))
  }

  /**
   * In agreement a failed registration with working rollback commands never changes the
   * table, and it changes nothing at all exactly when the one row it rotated was recoverable.
   */
  lemma FailureUndone(w: World, c: Settings, dto: Request, key: string, f: CallFaults)
    requires Agreement(w, c.subnet) && IsSubnetPrefix(c.subnet) && Fresh(w, key) && RollbackWorks(f)
    requires Registration(w, c, dto, key, f).1.Thrown?
    ensures Registration(w, c, dto, key, f).0.store == w.store
    ensures Registration(w, c, dto, key, f).0 == w <==> Recoverable(w, dto, Registration(w, c, dto, key, f).1)
  {
    var found := ByDeviceId(w.store.rows, dto.deviceId);
    if found.None? {
      if Registration(w, c, dto, key, f) == NewProvisioning(w, c, dto, key, f) {
        NewProvisioningUndone(w, c, dto, key, f);
      }
    } else if w.store.rows[found.value].status != REVOKED && ReachedKernel(Rotation(w, c, found.value, dto, key, f).1) {
      RotationUndone(w, c, found.value, dto, key, f);
    }
  }

  /** What a rolled back rotation leaves behind: the old key with that one address, or a placeholder's address unowned. */
  function AfterRollback(k: Kernel, prior: string, ip: string, added: bool): Kernel {
    if IsRealKey(prior) then k.Allow(prior, ip)
    else if added then Kernel(k.peers, map a | a in k.owner && a != ip :: k.owner[a])
    else k
  }

  lemma RollbackLeaves(k: Kernel, prior: string, key: string, ip: string, f: CallFaults, added: bool)
    requires k.Valid() && IsRealKey(key) && key !in k.peers && prior != key && RollbackWorks(f)
    ensures RolledBack(k, prior, key, ip, f, added) == AfterRollback(k, prior, ip, added)
  {
    RealKeyIsRemovable(key);
    if IsRealKey(prior) {
      RealKeyIsRemovable(prior);
      RestoreForgets(k, prior, key, ip);
    } else {
      DropUnknown(k, prior);
      assert k.Allow(key, ip).Drop(key).peers == k.peers;
      assert forall a :: a in k.owner ==> k.owner[a] != key;
    }
  }

  lemma RotationLeaves(w: World, c: Settings, id: nat, dto: Request, key: string, f: CallFaults)
    requires w.kernel.Valid() && Fresh(w, key) && RollbackWorks(f)
    requires id in w.store.rows && ReachedKernel(Rotation(w, c, id, dto, key, f).1)
    ensures var row, (after, outcome) := w.store.rows[id], Rotation(w, c, id, dto, key, f);
      && RotationIp(w, c, row).Some? && after.store == w.store
      && after.kernel == AfterRollback(w.kernel, row.vpnPublicKey, RotationIp(w, c, row).value, outcome == Thrown(DatabaseFailed))
  {
    var row := w.store.rows[id];
    var added := Rotation(w, c, id, dto, key, f).1 == Thrown(DatabaseFailed);
    RollbackLeaves(w.kernel, row.vpnPublicKey, key, RotationIp(w, c, row).value, f, added);
  }

  /** A rolled back rotation of an addressed row takes no row's address away and gives no pool address to anyone. */
  lemma RollbackKeepsAgreement(w: World, subnet: string, id: nat, ip: string, added: bool)
    requires Agreement(w, subnet) && id in w.store.rows && Addressed(w.store.rows[id]) && w.store.rows[id].status != REVOKED
    requires if w.store.rows[id].vpnIp.Some? then w.store.rows[id].vpnIp == Some(ip)
             else ip !in w.kernel.owner && ByVpnIp(w.store.rows, ip).None?
    ensures Agreement(World(AfterRollback(w.kernel, w.store.rows[id].vpnPublicKey, ip, added), w.store), subnet)
  {
    var rows, row := w.store.rows, w.store.rows[id];
    var k := AfterRollback(w.kernel, row.vpnPublicKey, ip, added);
    if IsRealKey(row.vpnPublicKey) {
      AllowOwnership(w.kernel, row.vpnPublicKey, ip);
    }
    forall j | j in rows && rows[j].vpnIp.Some?
      ensures RowAgrees(k, subnet, rows[j])
    {
      assert RowAgrees(w.kernel, subnet, rows[j]);
      assert row.vpnIp.Some? ==> RowAgrees(w.kernel, subnet, row);
      assert j != id ==> !Clash(rows[j], row) && !HasVpnIp(rows, j, ip);
    }
    forall a | a in k.owner && InPool(subnet, a)
      ensures ByVpnIp(rows, a).Some?
    {
      if a == ip {
        assert HasVpnIp(rows, id, a);
      }
    }
  }

  /**
   * A rotation that fails after it touched the kernel, with working rollback commands, keeps
   * agreement exactly when it is not the rotation of a real key without an address: the
   * rollback would give such a key an address that no row holds.
   */
  lemma FailedRotationAgreement(w: World, c: Settings, id: nat, dto: Request, key: string, f: CallFaults)
    requires Agreement(w, c.subnet) && IsSubnetPrefix(c.subnet) && Fresh(w, key) && RollbackWorks(f)
    requires id in w.store.rows && w.store.rows[id].status != REVOKED
    requires ReachedKernel(Rotation(w, c, id, dto, key, f).1)
    ensures Agreement(Rotation(w, c, id, dto, key, f).0, c.subnet) <==> Addressed(w.store.rows[id])
    ensures !Addressed(w.store.rows[id]) ==>
      var after := Rotation(w, c, id, dto, key, f).0;
      exists ip :: Owns(after.kernel, ip, w.store.rows[id].vpnPublicKey) && InPool(c.subnet, ip) && ByVpnIp(after.store.rows, ip).None?
  {
    var row := w.store.rows[id];
    var ip := RotationIp(w, c, row).value;
    RotationLeaves(w, c, id, dto, key, f);
    if row.vpnIp.None? {
      AllocatedUnowned(w, c, ip);
      assert ByVpnIp(w.store.rows, ip).None?;
    }
    if Addressed(row) {
      RollbackKeepsAgreement(w, c.subnet, id, ip, Rotation(w, c, id, dto, key, f).1 == Thrown(DatabaseFailed));
    } else {
      assert Owns(w.kernel.Allow(row.vpnPublicKey, ip), ip, row.vpnPublicKey);
    }
  }

  /**
   * A rolled back rotation leaves the row's key with exactly its one address, so any other
   * address the key owned before is no longer owned by anyone.
   */
  lemma RollbackLosesOthers(w: World, c: Settings, id: nat, dto: Request, key: string, f: CallFaults, other: string)
    requires Agreement(w, c.subnet) && Fresh(w, key) && RollbackWorks(f)
    requires id in w.store.rows && IsRealKey(w.store.rows[id].vpnPublicKey)
    requires ReachedKernel(Rotation(w, c, id, dto, key, f).1)
    requires Owns(w.kernel, other, w.store.rows[id].vpnPublicKey)
    ensures other in Rotation(w, c, id, dto, key, f).0.kernel.owner <==> RotationIp(w, c, w.store.rows[id]) == Some(other)
  {
    RotationLeaves(w, c, id, dto, key, f);
  }

  // ------------------------------------------------------------- success

  /** What a successful registration did, whatever its removals did. */
  ghost predicate Registered(w: World, after: World, dto: Request, ip: string, key: string) {
    && (exists i :: RegisteredAs(w.store.rows, after.store.rows, i, dto, ip, key))
    && after.kernel.Owned(key) == {ip}
  }

  /** Row `i` is the device's, with its old address if it had one; every other row is as it was. */
  ghost predicate RegisteredAs(rows: map<nat, Row>, after: map<nat, Row>, i: nat, dto: Request, ip: string, key: string) {
    && HasDeviceId(after, i, dto.deviceId)
    && after[i].vpnIp == Some(ip) && after[i].vpnPublicKey == key && after[i].status == ACTIVE
    && after == rows[i := after[i]]
    && after[i].hardwareModel == (if i in rows && dto.hardwareModel == "" then rows[i].hardwareModel else dto.hardwareModel)
    && (i in rows ==> rows[i].deviceId == dto.deviceId && rows[i].vpnIp in {None, Some(ip)})
  }

  lemma NewRegisters(w: World, c: Settings, dto: Request, key: string, f: CallFaults)
    requires w.store.Valid() && w.kernel.Valid() && Fresh(w, key)
    requires NewProvisioning(w, c, dto, key, f).1.Success?
    ensures var (after, outcome) := NewProvisioning(w, c, dto, key, f);
      Registered(w, after, dto, outcome.assignedIp, key)
  {
    var (after, outcome) := NewProvisioning(w, c, dto, key, f);
    AllowOwnership(w.kernel, key, outcome.assignedIp);
    assert RegisteredAs(w.store.rows, after.store.rows, w.store.nextId, dto, outcome.assignedIp, key);
  }

  lemma RotationRegisters(w: World, c: Settings, id: nat, dto: Request, key: string, f: CallFaults)
    requires w.store.Valid() && w.kernel.Valid() && Fresh(w, key) && HasDeviceId(w.store.rows, id, dto.deviceId)
    requires Rotation(w, c, id, dto, key, f).1.Success?
    ensures var (after, outcome) := Rotation(w, c, id, dto, key, f);
      Registered(w, after, dto, outcome.assignedIp, key)
  {
    var (after, outcome) := Rotation(w, c, id, dto, key, f);
    AllowOwnership(Removed(w.kernel, w.store.rows[id].vpnPublicKey, f.removeOldOk), key, outcome.assignedIp);
    assert RegisteredAs(w.store.rows, after.store.rows, id, dto, outcome.assignedIp, key);
  }

  /** A success response names the device's row, its address and its only key, and Redis learns the address. */
  lemma SuccessRegisters(w: World, c: Settings, dto: Request, key: string, f: CallFaults)
    requires w.store.Valid() && w.kernel.Valid() && Fresh(w, key)
    requires Registration(w, c, dto, key, f).1.Success?
    ensures var (after, outcome) := Registration(w, c, dto, key, f);
      && outcome.deviceId == dto.deviceId && outcome.publicKey == key
      && Registered(w, after, dto, outcome.assignedIp, key)
      && (f.db.redisOk && dto.deviceId != "" && outcome.assignedIp != "" ==>
        after.store.ipMap == w.store.ipMap[outcome.assignedIp := dto.deviceId])
  {
    var found := ByDeviceId(w.store.rows, dto.deviceId);
    if found.None? {
      NewRegisters(w, c, dto, key, f);
    } else {
      RotationRegisters(w, c, found.value, dto, key, f);
    }
  }

  /** `row` takes over under `id` with a fresh key, after the row's old key was or was not cleared. */
  ghost predicate Takeover(w: World, subnet: string, cleared: Kernel, id: nat, row: Row) {
    && Agreement(w, subnet)
    && row.status == ACTIVE && row.vpnIp.Some? && Fresh(w, row.vpnPublicKey)
    && (forall j :: j in w.store.rows && j != id ==> !Clash(w.store.rows[j], row))
    && (cleared == w.kernel || (id in w.store.rows && cleared == w.kernel.Drop(w.store.rows[id].vpnPublicKey)))
    && (id in w.store.rows ==>
         w.store.rows[id].status != REVOKED && w.store.rows[id].vpnIp in {None, row.vpnIp} && Addressed(w.store.rows[id]))
  }

  /** Nobody else's address moves in a takeover. */
  lemma TakeoverKeepsRow(w: World, subnet: string, cleared: Kernel, id: nat, row: Row, j: nat)
    requires Takeover(w, subnet, cleared, id, row) && j in w.store.rows && j != id
    ensures var k, other := cleared.Allow(row.vpnPublicKey, row.vpnIp.value), w.store.rows[j];
      && (other.vpnIp.Some? ==> RowAgrees(k, subnet, other))
      && (other.status != REVOKED && Restorable(w.kernel, other) ==> Restorable(k, other))
  {
    var other := w.store.rows[j];
    AllowOwnership(cleared, row.vpnPublicKey, row.vpnIp.value);
    assert other.vpnIp.Some? ==> RowAgrees(w.kernel, subnet, other);
    assert !Clash(other, row);
    if KeyedAt(other) && id in w.store.rows {
      assert other.vpnPublicKey != w.store.rows[id].vpnPublicKey;
      assert w.kernel.Drop(w.store.rows[id].vpnPublicKey).Owned(other.vpnPublicKey) == w.kernel.Owned(other.vpnPublicKey);
    }
  }

  /** One write of a row whose fresh key takes over its address keeps agreement. */
  lemma TakeoverKeepsAgreement(w: World, subnet: string, cleared: Kernel, id: nat, row: Row, after: Store)
    requires Takeover(w, subnet, cleared, id, row)
    requires after.Valid() && after.rows == w.store.rows[id := row]
    ensures Agreement(World(cleared.Allow(row.vpnPublicKey, row.vpnIp.value), after), subnet)
  {
    var key, ip := row.vpnPublicKey, row.vpnIp.value;
    var k := cleared.Allow(key, ip);
    var rows := after.rows;
    AllowOwnership(cleared, key, ip);
    forall j | j in rows && rows[j].vpnIp.Some?
      ensures RowAgrees(k, subnet, rows[j])
    {
      if j != id {
        TakeoverKeepsRow(w, subnet, cleared, id, row, j);
      }
    }
    forall a | a in k.owner && InPool(subnet, a)
      ensures ByVpnIp(rows, a).Some?
    {
      if a == ip {
        assert HasVpnIp(rows, id, a);
      } else {
        assert a in w.kernel.owner;
        assert HasVpnIp(rows, ByVpnIp(w.store.rows, a).value, a);
      }
    }
  }

  /** The takeover a successful registration amounts to: the row it writes and the kernel it writes it over. */
  lemma SuccessIsTakeover(w: World, c: Settings, dto: Request, key: string, f: CallFaults)
    returns (cleared: Kernel, id: nat, row: Row)
    requires Agreement(w, c.subnet) && IsSubnetPrefix(c.subnet) && Fresh(w, key) && dto.deviceId != ""
    requires RequestAddressed(w, dto) && Registration(w, c, dto, key, f).1.Success?
    ensures Takeover(w, c.subnet, cleared, id, row) && row.deviceId == dto.deviceId && row.vpnIp != Some("")
    ensures Registration(w, c, dto, key, f).0 ==
      World(cleared.Allow(row.vpnPublicKey, row.vpnIp.value), Written(w.store, id, row, f.db).0)
    ensures Written(w.store, id, row, f.db).1.Some?
  {
    var found := ByDeviceId(w.store.rows, dto.deviceId);
    if found.None? {
      var ip := Allocated(c.subnet, w.store.rows);
      AllocatedUnowned(w, c, ip.value);
      cleared, id, row := w.kernel, w.store.nextId, Row(dto.deviceId, dto.hardwareModel, ip, key, ACTIVE);
    } else {
      id := found.value;
      var ip := RotationIp(w, c, w.store.rows[id]);
      if w.store.rows[id].vpnIp.None? {
        AllocatedUnowned(w, c, ip.value);
      }
      cleared := Removed(w.kernel, w.store.rows[id].vpnPublicKey, f.removeOldOk);
      row := Merged(w.store.rows[id], Update(dto.hardwareModel, Some(ip), key, Some(ACTIVE)));
    }
  }

  /** The device's own row, if it has one and may be rotated, has an address for its real key. */
  ghost predicate RequestAddressed(w: World, dto: Request) {
    var found := ByDeviceId(w.store.rows, dto.deviceId);
    found.Some? ==> Addressed(w.store.rows[found.value])
  }

  /** A successful registration keeps agreement, whether or not removals and Redis writes took effect. */
  lemma SuccessKeepsAgreement(w: World, c: Settings, dto: Request, key: string, f: CallFaults)
    requires Agreement(w, c.subnet) && IsSubnetPrefix(c.subnet) && Fresh(w, key) && dto.deviceId != ""
    requires RequestAddressed(w, dto) && Registration(w, c, dto, key, f).1.Success?
    ensures Agreement(Registration(w, c, dto, key, f).0, c.subnet)
    ensures KeysAddressed(w.store.rows) ==> KeysAddressed(Registration(w, c, dto, key, f).0.store.rows)
  {
    var cleared, id, row := SuccessIsTakeover(w, c, dto, key, f);
    WrittenKeepsValid(w.store, id, row, f.db);
    TakeoverKeepsAgreement(w, c.subnet, cleared, id, row, Written(w.store, id, row, f.db).0);
  }

  /**
   * A registration with working rollback commands keeps agreement, whether it succeeds or
   * fails. Nothing is asked of any row but the device's own.
   */
  lemma RegistrationKeepsAgreement(w: World, c: Settings, dto: Request, key: string, f: CallFaults)
    requires Agreement(w, c.subnet) && IsSubnetPrefix(c.subnet) && Fresh(w, key) && dto.deviceId != "" && RollbackWorks(f)
    requires RequestAddressed(w, dto)
    ensures Agreement(Registration(w, c, dto, key, f).0, c.subnet)
    ensures KeysAddressed(w.store.rows) ==> KeysAddressed(Registration(w, c, dto, key, f).0.store.rows)
  {
    var outcome := Registration(w, c, dto, key, f).1;
    if outcome.Success? {
      SuccessKeepsAgreement(w, c, dto, key, f);
    } else {
      FailureUndone(w, c, dto, key, f);
      if !Recoverable(w, dto, outcome) {
        FailedRotationAgreement(w, c, ByDeviceId(w.store.rows, dto.deviceId).value, dto, key, f);
      }
    }
  }

  /** Every row in use could be rotated and rolled back without loss. */
  ghost predicate AllRestorable(w: World) {
    forall i :: i in w.store.rows && w.store.rows[i].status != REVOKED ==> Restorable(w.kernel, w.store.rows[i])
  }

  /** Once every row is restorable, a registration with working rollback commands keeps it so, and a failed one changes nothing. */
  lemma RegistrationKeepsRestorable(w: World, c: Settings, dto: Request, key: string, f: CallFaults)
    requires Agreement(w, c.subnet) && IsSubnetPrefix(c.subnet) && Fresh(w, key) && dto.deviceId != "" && RollbackWorks(f)
    requires AllRestorable(w)
    ensures AllRestorable(Registration(w, c, dto, key, f).0)
    ensures Registration(w, c, dto, key, f).1.Thrown? ==> Registration(w, c, dto, key, f).0 == w
  {
    var (after, outcome) := Registration(w, c, dto, key, f);
    if outcome.Success? {
      var cleared, id, row := SuccessIsTakeover(w, c, dto, key, f);
      AllowOwnership(cleared, row.vpnPublicKey, row.vpnIp.value);
      forall j | j in after.store.rows && after.store.rows[j].status != REVOKED
        ensures Restorable(after.kernel, after.store.rows[j])
      {
        if j != id {
          TakeoverKeepsRow(w, c.subnet, cleared, id, row, j);
        }
      }
    } else {
      FailureUndone(w, c, dto, key, f);
    }
  }

  // ------------------------------------------------------- runs of calls

  datatype Call = Call(dto: Request, key: string, faults: CallFaults)

  ghost function Calls(w: World, c: Settings, calls: seq<Call>): World {
    if calls == [] then w
    else
      var last := calls[|calls| - 1];
      Registration(Calls(w, c, calls[..|calls| - 1]), c, last.dto, last.key, last.faults).0
  }

  /** The calls that carry the configured token, in order. */
  function AuthorizedOnly(c: Settings, calls: seq<Call>): seq<Call> {
    if calls == [] then []
    else
      var last := calls[|calls| - 1];
      AuthorizedOnly(c, calls[..|calls| - 1]) + if Authorized(c, last.dto) then [last] else []
  }

  /** Calls with a wrong token leave no trace: leaving them out gives the same final state, whatever fails. */
  lemma {:induction false} WrongTokensLeaveNoTrace(w: World, c: Settings, calls: seq<Call>)
    ensures Calls(w, c, calls) == Calls(w, c, AuthorizedOnly(c, calls))
  {
    if calls != [] {
      var n := |calls| - 1;
      WrongTokensLeaveNoTrace(w, c, calls[..n]);
      var call, before := calls[n], AuthorizedOnly(c, calls[..n]);
      RefusedWithoutToken(Calls(w, c, calls[..n]), c, call.dto, call.key, call.faults);
      if Authorized(c, call.dto) {
        CallsSnoc(w, c, before, call);
      } else {
        assert before + [] == before;
      }
    }
  }

  lemma CallsSnoc(w: World, c: Settings, calls: seq<Call>, call: Call)
    ensures Calls(w, c, calls + [call]) == Registration(Calls(w, c, calls), c, call.dto, call.key, call.faults).0
  {
    assert (calls + [call])[..|calls|] == calls;
  }

  /** Every key is new when it is generated, and every request names a device. */
  ghost predicate WellKeyed(w: World, c: Settings, calls: seq<Call>) {
    forall n :: 0 <= n < |calls| ==> calls[n].dto.deviceId != "" && Fresh(Calls(w, c, calls[..n]), calls[n].key)
  }

  lemma CallKeepsAgreement(w: World, c: Settings, call: Call)
    requires Steady(w, c.subnet) && IsSubnetPrefix(c.subnet) && call.dto.deviceId != ""
    requires Fresh(w, call.key) && RollbackWorks(call.faults)
    ensures var after := Registration(w, c, call.dto, call.key, call.faults).0;
      Steady(after, c.subnet) && (AllRestorable(w) ==> AllRestorable(after))
  {
    RegistrationKeepsAgreement(w, c, call.dto, call.key, call.faults);
    if AllRestorable(w) {
      RegistrationKeepsRestorable(w, c, call.dto, call.key, call.faults);
    }
  }

  /** Agreement survives any sequence of registrations whose rollback commands work. */
  lemma {:induction false} CallsKeepAgreement(w: World, c: Settings, calls: seq<Call>)
    requires Steady(w, c.subnet) && IsSubnetPrefix(c.subnet) && WellKeyed(w, c, calls)
    requires forall call :: call in calls ==> RollbackWorks(call.faults)
    ensures Steady(Calls(w, c, calls), c.subnet)
    ensures AllRestorable(w) ==> AllRestorable(Calls(w, c, calls))
  {
    if calls != [] {
      var n := |calls| - 1;
      assert forall k :: 0 <= k < n ==> calls[..n][..k] == calls[..k];
      CallsKeepAgreement(w, c, calls[..n]);
      assert calls[n] in calls;
      CallKeepsAgreement(Calls(w, c, calls[..n]), c, calls[n]);
    }
  }

  /** Row `i` is still there, for the same device, at the same address if it had one. */
  ghost predicate AddressKept(rows: map<nat, Row>, after: map<nat, Row>, i: nat)
    requires i in rows
  {
    i in after && after[i].deviceId == rows[i].deviceId && (rows[i].vpnIp.Some? ==> after[i].vpnIp == rows[i].vpnIp)
  }

  /** A write of one named row that takes no address away. */
  ghost predicate Harmless(s: Store, id: nat, row: Row) {
    && row.deviceId != "" && row.vpnIp != Some("")
    && (id in s.rows ==> row.deviceId == s.rows[id].deviceId && (s.rows[id].vpnIp.Some? ==> row.vpnIp == s.rows[id].vpnIp))
    && (id !in s.rows ==> id == s.nextId)
  }

  lemma NewWrites(w: World, c: Settings, dto: Request, key: string, f: CallFaults) returns (row: Row)
    requires w.store.Valid() && dto.deviceId != "" && IsSubnetPrefix(c.subnet)
    ensures Harmless(w.store, w.store.nextId, row)
    ensures NewProvisioning(w, c, dto, key, f).0.store in {w.store, Written(w.store, w.store.nextId, row, f.db).0}
  {
    var ip := Allocated(c.subnet, w.store.rows);
    if ip.Some? {
      AllocatedIsFree(c.subnet, w.store.rows, ip.value);
    }
    row := Row(dto.deviceId, dto.hardwareModel, ip, key, ACTIVE);
  }

  lemma RotationWrites(w: World, c: Settings, id: nat, dto: Request, key: string, f: CallFaults) returns (row: Row)
    requires w.store.Valid() && IsSubnetPrefix(c.subnet) && id in w.store.rows
    ensures Harmless(w.store, id, row)
    ensures Rotation(w, c, id, dto, key, f).0.store in {w.store, Written(w.store, id, row, f.db).0}
  {
    var ip := RotationIp(w, c, w.store.rows[id]);
    if w.store.rows[id].vpnIp.None? && ip.Some? {
      AllocatedIsFree(c.subnet, w.store.rows, ip.value);
    }
    row := Merged(w.store.rows[id], Update(dto.hardwareModel, Some(ip), key, Some(ACTIVE)));
  }

  /** Every registration changes the table by at most one harmless write. */
  lemma RegistrationWrites(w: World, c: Settings, dto: Request, key: string, f: CallFaults) returns (id: nat, row: Row)
    requires w.store.Valid() && dto.deviceId != "" && IsSubnetPrefix(c.subnet)
    ensures Harmless(w.store, id, row)
    ensures Registration(w, c, dto, key, f).0.store in {w.store, Written(w.store, id, row, f.db).0}
  {
    var found := ByDeviceId(w.store.rows, dto.deviceId);
    if found.None? {
      id := w.store.nextId;
      row := NewWrites(w, c, dto, key, f);
    } else {
      id := found.value;
      row := RotationWrites(w, c, id, dto, key, f);
    }
  }

  /** Whatever fails, no sequence of registrations changes or takes away a device's address. */
  lemma {:induction false} CallsKeepAddresses(w: World, c: Settings, calls: seq<Call>)
    requires w.store.Valid() && IsSubnetPrefix(c.subnet)
    requires forall call :: call in calls ==> call.dto.deviceId != ""
    ensures Calls(w, c, calls).store.Valid()
    ensures forall i :: i in w.store.rows ==> AddressKept(w.store.rows, Calls(w, c, calls).store.rows, i)
  {
    if calls != [] {
      var last := calls[|calls| - 1];
      var before := Calls(w, c, calls[..|calls| - 1]);
      CallsKeepAddresses(w, c, calls[..|calls| - 1]);
      assert last in calls;
      var id, row := RegistrationWrites(before, c, last.dto, last.key, last.faults);
      WrittenKeepsValid(before.store, id, row, last.faults.db);
    }
  }

  /** Every peer is foreign (set up by hand) or has the current key of some row. */
  ghost predicate NoStrays(w: World, foreign: set<string>) {
    forall k :: k in w.kernel.peers && k !in foreign ==> exists i :: HasKey(w.store.rows, i, k)
  }

  ghost predicate HasKey(rows: map<nat, Row>, i: nat, key: string) {
    i in rows && rows[i].vpnPublicKey == key
  }

  lemma NewLeavesNoStray(w: World, c: Settings, dto: Request, key: string, f: CallFaults, foreign: set<string>)
    requires w.store.Valid() && Fresh(w, key) && NoStrays(w, foreign) && f.removeNewOk
    ensures NoStrays(NewProvisioning(w, c, dto, key, f).0, foreign)
  {
    var (after, outcome) := NewProvisioning(w, c, dto, key, f);
    forall k | k in after.kernel.peers && k !in foreign
      ensures exists i :: HasKey(after.store.rows, i, k)
    {
      if k == key {
        assert HasKey(after.store.rows, w.store.nextId, k);
      } else {
        var i :| HasKey(w.store.rows, i, k);
        assert HasKey(after.store.rows, i, k);
      }
    }
  }

  lemma RotationPeers(w: World, c: Settings, id: nat, dto: Request, key: string, f: CallFaults)
    requires w.kernel.Valid() && w.store.Valid() && Fresh(w, key) && id in w.store.rows && f.removeOldOk && f.removeNewOk
    ensures var (after, outcome) := Rotation(w, c, id, dto, key, f);
      && after.kernel.peers <= w.kernel.peers + {w.store.rows[id].vpnPublicKey, key}
      && (if outcome.Success? then w.store.rows[id].vpnPublicKey !in after.kernel.peers else key !in after.kernel.peers)
      && (if outcome.Success? then HasKey(after.store.rows, id, key) else HasKey(after.store.rows, id, w.store.rows[id].vpnPublicKey))
      && (forall j :: j in w.store.rows && j != id ==> j in after.store.rows && after.store.rows[j] == w.store.rows[j])
  {
    RealKeyIsRemovable(key);
    var prior := w.store.rows[id].vpnPublicKey;
    if IsRealKey(prior) {
      RealKeyIsRemovable(prior);
    }
  }

  lemma RotationLeavesNoStray(w: World, c: Settings, id: nat, dto: Request, key: string, f: CallFaults, foreign: set<string>)
    requires w.kernel.Valid() && w.store.Valid() && Fresh(w, key) && id in w.store.rows
    requires NoStrays(w, foreign) && f.removeOldOk && f.removeNewOk
    ensures NoStrays(Rotation(w, c, id, dto, key, f).0, foreign)
    ensures Rotation(w, c, id, dto, key, f).1.Success? ==>
      w.store.rows[id].vpnPublicKey !in Rotation(w, c, id, dto, key, f).0.kernel.peers
  {
    RotationPeers(w, c, id, dto, key, f);
    var after := Rotation(w, c, id, dto, key, f).0;
    forall k | k in after.kernel.peers && k !in foreign
      ensures exists i :: HasKey(after.store.rows, i, k)
    {
      if k == key || k == w.store.rows[id].vpnPublicKey {
        assert HasKey(after.store.rows, id, k);
      } else {
        var i :| HasKey(w.store.rows, i, k);
        assert HasKey(after.store.rows, i, k);
      }
    }
  }

  /**
   * As long as removals take effect, a registration leaves no key behind: not the one it
   * replaced, and not the one it gave up. This needs no agreement, and restoring may fail.
   */
  lemma RegistrationLeavesNoStray(w: World, c: Settings, dto: Request, key: string, f: CallFaults, foreign: set<string>)
    requires w.kernel.Valid() && w.store.Valid() && Fresh(w, key)
    requires NoStrays(w, foreign) && f.removeOldOk && f.removeNewOk
    ensures NoStrays(Registration(w, c, dto, key, f).0, foreign)
    ensures var found := ByDeviceId(w.store.rows, dto.deviceId);
      found.Some? && Registration(w, c, dto, key, f).1.Success? ==>
        w.store.rows[found.value].vpnPublicKey !in Registration(w, c, dto, key, f).0.kernel.peers
  {
    var found := ByDeviceId(w.store.rows, dto.deviceId);
    RegistrationBranch(w, c, dto, key, f);
    if found.None? {
      NewLeavesNoStray(w, c, dto, key, f, foreign);
    } else {
      RotationLeavesNoStray(w, c, found.value, dto, key, f, foreign);
    }
  }

  /** A registration is refused without effect, or is one of the two sagas. */
  lemma RegistrationBranch(w: World, c: Settings, dto: Request, key: string, f: CallFaults)
    ensures var found, result := ByDeviceId(w.store.rows, dto.deviceId), Registration(w, c, dto, key, f);
      || (result.0 == w && result.1.Thrown?)
      || (found.None? && result == NewProvisioning(w, c, dto, key, f))
      || (found.Some? && result == Rotation(w, c, found.value, dto, key, f))
  {
  }
}
