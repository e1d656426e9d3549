/**
 * Start of the fleet manager: active devices are restored into the kernel, then
 * kernel peers are taken into the table. The result is agreement, for every order
 * in which the kernel lists its peers, exactly when no temporary name is misplaced.
 */
module Startup {
  import opened Wrappers
  import opened Addresses
  import opened WireGuard
  import opened Devices
  import opened Identity
  import opened IpPool
  import opened Provisioning
  import opened Saga

  // ---------------------------------------------------------- specification

  /** First loop: each listed device with a real key gets its address; failures are logged and skipped. */
  function Restored(k: Kernel, rows: map<nat, Row>, order: seq<nat>, ok: nat -> bool): Kernel
    requires forall i :: i in order ==> i in rows && rows[i].vpnIp.Some?
  {
    if order == [] then k
    else
      var i := order[|order| - 1];
      Added(Restored(k, rows, order[..|order| - 1], ok), rows[i].vpnPublicKey, rows[i].vpnIp.value, ok(i))
  }

  datatype Entry = Entry(ip: string, key: string)

  function PeerEntries(subnet: string, key: string, addresses: seq<string>): seq<Entry> {
    if addresses == [] then []
    else
      var ip := addresses[|addresses| - 1];
      PeerEntries(subnet, key, addresses[..|addresses| - 1]) + if InPool(subnet, ip) then [Entry(ip, key)] else []
  }

  /** Pool addresses of a dump with their keys, in the order the second loop meets them. */
  function Entries(subnet: string, dump: seq<Peer>): seq<Entry> {
    if dump == [] then []
    else
      var peer := dump[|dump| - 1];
      Entries(subnet, dump[..|dump| - 1]) + PeerEntries(subnet, peer.publicKey, peer.addresses)
  }

  /** Second loop: each entry is synchronised; failures are logged and skipped. */
  ghost function SyncedAll(s: Store, entries: seq<Entry>, faults: string -> Faults): Store {
    if entries == [] then s
    else
      var e := entries[|entries| - 1];
      Synced(SyncedAll(s, entries[..|entries| - 1], faults), e.ip, e.key, faults(e.ip)).0
  }

  // ---------------------------------------------------------------- service

  class StartupService {
    const subnet: string
    const wireguard: WireguardService
    const devices: DeviceService

    constructor (subnet: string, wireguard: WireguardService, devices: DeviceService)
      ensures this.subnet == subnet && this.wireguard == wireguard && this.devices == devices
    {
      this.subnet, this.wireguard, this.devices := subnet, wireguard, devices;
    }

    /** Both loops; `order` and `dump` are what the query and the kernel happened to list. */
    method OnModuleInit(findOk: bool, restoreOk: nat -> bool, dumpOk: bool, syncFaults: string -> Faults)
      returns (order: seq<nat>, dump: seq<Peer>)
      requires devices.State().Valid() && wireguard.kernel.Valid()
      modifies wireguard, devices
      ensures if findOk then ListsActive(old(devices.rows), order) else order == []
      ensures forall i :: i in order ==> i in old(devices.rows) && old(devices.rows)[i].vpnIp.Some?
      ensures wireguard.kernel == Restored(old(wireguard.kernel), old(devices.rows), order, restoreOk)
      ensures if dumpOk then IsDump(wireguard.kernel, dump) else dump == []
      ensures devices.State() == SyncedAll(old(devices.State()), Entries(subnet, dump), syncFaults)
    {
      order := [];
      if findOk {
        order := devices.FindActiveDevices();
      }
      ghost var before := wireguard.kernel;
      for n := 0 to |order|
        invariant devices.State() == old(devices.State())
        invariant forall i :: i in order ==> i in devices.rows && devices.rows[i].vpnIp.Some?
        invariant wireguard.kernel.Valid()
        invariant wireguard.kernel == Restored(before, devices.rows, order[..n], restoreOk)
      {
        var device := devices.rows[order[n]];
        assert order[..n + 1][..n] == order[..n];
        if IsRealKey(device.vpnPublicKey) {
          AllowOwnership(wireguard.kernel, device.vpnPublicKey, device.vpnIp.value);
          var _ := wireguard.AddPeer(device.vpnPublicKey, device.vpnIp.value, restoreOk(order[n]));
        }
      }
      assert order[..|order|] == order;
      dump := SyncKernelPeersToDatabase(dumpOk, syncFaults);
    }

    method SyncKernelPeersToDatabase(dumpOk: bool, syncFaults: string -> Faults) returns (dump: seq<Peer>)
      requires devices.State().Valid() && wireguard.kernel.Valid()
      modifies devices
      ensures if dumpOk then IsDump(wireguard.kernel, dump) else dump == []
      ensures devices.State() == SyncedAll(old(devices.State()), Entries(subnet, dump), syncFaults)
    {
      dump := wireguard.GetLivePeerStats(dumpOk);
      for n := 0 to |dump|
        invariant devices.State().Valid()
        invariant devices.State() == SyncedAll(old(devices.State()), Entries(subnet, dump[..n]), syncFaults)
      {
        SyncPeer(dump[n], syncFaults);
        assert dump[..n + 1][..n] == dump[..n];
        SyncedAllAppend(old(devices.State()), Entries(subnet, dump[..n]),
                        PeerEntries(subnet, dump[n].publicKey, dump[n].addresses), syncFaults);
      }
      assert dump[..|dump|] == dump;
    }

    /** The inner loop, over one peer's addresses. */
    method SyncPeer(peer: Peer, syncFaults: string -> Faults)
      requires devices.State().Valid()
      modifies devices
      ensures devices.State().Valid()
      ensures devices.State() == SyncedAll(old(devices.State()), PeerEntries(subnet, peer.publicKey, peer.addresses), syncFaults)
    {
      for m := 0 to |peer.addresses|
        invariant devices.State().Valid()
        invariant devices.State() ==
          SyncedAll(old(devices.State()), PeerEntries(subnet, peer.publicKey, peer.addresses[..m]), syncFaults)
      {
        var ip := peer.addresses[m];
        PeerEntriesStep(subnet, peer.publicKey, peer.addresses, m);
        if InPool(subnet, ip) {
          SyncedAllSnoc(old(devices.State()), PeerEntries(subnet, peer.publicKey, peer.addresses[..m]), Entry(ip, peer.publicKey), syncFaults);
          SyncKeeps(devices.State(), ip, peer.publicKey, syncFaults(ip));
          var _ := devices.SyncManualKernelPeer(ip, peer.publicKey, syncFaults(ip));
        }
      }
      assert peer.addresses[..|peer.addresses|] == peer.addresses;
    }
  }

  lemma PeerEntriesStep(subnet: string, key: string, addresses: seq<string>, m: nat)
    requires m < |addresses|
    ensures PeerEntries(subnet, key, addresses[..m + 1]) ==
      if InPool(subnet, addresses[m]) then PeerEntries(subnet, key, addresses[..m]) + [Entry(addresses[m], key)]
      else PeerEntries(subnet, key, addresses[..m])
  {
    assert addresses[..m + 1][..m] == addresses[..m];
  }

  lemma SyncedAllSnoc(s: Store, entries: seq<Entry>, e: Entry, faults: string -> Faults)
    ensures SyncedAll(s, entries + [e], faults) == Synced(SyncedAll(s, entries, faults), e.ip, e.key, faults(e.ip)).0
  {
    assert (entries + [e])[..|entries|] == entries;
  }

  lemma {:induction false} SyncedAllAppend(s: Store, a: seq<Entry>, b: seq<Entry>, faults: string -> Faults)
    ensures SyncedAll(s, a + b, faults) == SyncedAll(SyncedAll(s, a, faults), b, faults)
  {
    if b == [] {
      assert a + b == a;
    } else {
      SyncedAllAppend(s, a, b[..|b| - 1], faults);
      assert (a + b)[..|a + b| - 1] == a + b[..|b| - 1];
    }
  }

  // ------------------------------------------------------ the first loop

  ghost predicate OnePoolAddressPerPeer(k: Kernel, subnet: string) {
    forall a, b :: a in k.owner && b in k.owner && InPool(subnet, a) && InPool(subnet, b) && k.owner[a] == k.owner[b] ==> a == b
  }

  /** What the two loops need of the state they find. */
  ghost predicate Startable(w: World, subnet: string) {
    && w.kernel.Valid() && w.store.Valid()
    && (forall i :: i in w.store.rows && w.store.rows[i].vpnIp.Some? ==> w.store.rows[i].status == ACTIVE)
    && DistinctRealKeys(w.store.rows)
    && OnePoolAddressPerPeer(w.kernel, subnet)
  }

  /** The first loop gives every real key of an addressed row exactly its address. */
  lemma {:induction false} RestoreEstablishes(w: World, subnet: string, order: seq<nat>, ok: nat -> bool)
    requires Startable(w, subnet)
    requires forall i :: i in order ==> i in w.store.rows && w.store.rows[i].vpnIp.Some? && ok(i)
    ensures var k := Restored(w.kernel, w.store.rows, order, ok);
      && k.Valid() && OnePoolAddressPerPeer(k, subnet)
      && forall i :: i in order && KeyedAt(w.store.rows[i]) ==> k.Owned(w.store.rows[i].vpnPublicKey) == {w.store.rows[i].vpnIp.value}
  {
    if order != [] {
      var n := |order| - 1;
      var rows := w.store.rows;
      var before := Restored(w.kernel, rows, order[..n], ok);
      var added := rows[order[n]];
      RestoreEstablishes(w, subnet, order[..n], ok);
      if IsRealKey(added.vpnPublicKey) {
        AllowOwnership(before, added.vpnPublicKey, added.vpnIp.value);
        forall i | i in order && KeyedAt(rows[i])
          ensures before.Allow(added.vpnPublicKey, added.vpnIp.value).Owned(rows[i].vpnPublicKey) == {rows[i].vpnIp.value}
        {
          if i != order[n] {
            assert i in order[..n] && !Clash(rows[i], added);
          }
        }
      } else {
        forall i | i in order && KeyedAt(rows[i])
          ensures i in order[..n]
        {
          assert i != order[n];
        }
      }
    }
  }

  /** The first loop takes no other address from any other key. */
  lemma {:induction false} RestoreKeepsOthers(k: Kernel, rows: map<nat, Row>, order: seq<nat>, ok: nat -> bool, a: string, key: string)
    requires forall i :: i in order ==> i in rows && rows[i].vpnIp.Some?
    requires Owns(k, a, key)
    requires forall i :: i in order && IsRealKey(rows[i].vpnPublicKey) ==> rows[i].vpnPublicKey != key && rows[i].vpnIp.value != a
    ensures Owns(Restored(k, rows, order, ok), a, key)
  {
    if order != [] {
      var n := |order| - 1;
      assert order[n] in order && forall i :: i in order[..n] ==> i in order;
      RestoreKeepsOthers(k, rows, order[..n], ok, a, key);
    }
  }

  // ------------------------------------------------------ the second loop

  /** A pool address the kernel assigns. */
  predicate Assigned(k: Kernel, subnet: string, a: string) {
    a in k.owner && InPool(subnet, a)
  }

  /**
   * Row `i` has the temporary name of assigned address `a`, which no row holds, while it
   * holds another assigned address itself: the scan will move it away from there.
   */
  ghost predicate Misplaced(k: Kernel, subnet: string, rows: map<nat, Row>, i: nat, a: string) {
    && Assigned(k, subnet, a) && HasDeviceId(rows, i, TempDeviceId(a)) && ByVpnIp(rows, a).None?
    && rows[i].vpnIp.Some? && Assigned(k, subnet, rows[i].vpnIp.value)
  }

  ghost predicate NoneMisplaced(k: Kernel, subnet: string, rows: map<nat, Row>) {
    forall i, a :: !Misplaced(k, subnet, rows, i, a)
  }

  /** Row of a table the scan is working on; `done` are the addresses it has met. */
  ghost predicate RowInProgress(k: Kernel, subnet: string, row: Row, done: set<string>) {
    row.vpnIp.Some? ==>
      && row.status == ACTIVE
      && (IsRealKey(row.vpnPublicKey) ==> Owns(k, row.vpnIp.value, row.vpnPublicKey))
      && (IsRealKey(row.vpnPublicKey) && !InPool(subnet, row.vpnIp.value) ==> k.Owned(row.vpnPublicKey) == {row.vpnIp.value})
      && (!IsRealKey(row.vpnPublicKey) && InPool(subnet, row.vpnIp.value) && row.vpnIp.value in k.owner ==> row.vpnIp.value !in done)
  }

  ghost predicate InProgress(k: Kernel, subnet: string, s: Store, done: set<string>) {
    && s.Valid() && NoneMisplaced(k, subnet, s.rows)
    && (forall i :: i in s.rows ==> RowInProgress(k, subnet, s.rows[i], done))
    && (forall a :: a in done && Assigned(k, subnet, a) ==> ByVpnIp(s.rows, a).Some?)
  }

  /** Replacing row `id` so that it now holds assigned address `a` with its owner's key. */
  lemma PlaceKeepsProgress(k: Kernel, subnet: string, s: Store, t: Store, done: set<string>, id: nat, row: Row, a: string)
    requires k.Valid() && InProgress(k, subnet, s, done) && Assigned(k, subnet, a)
    requires t.Valid() && t.rows == s.rows[id := row]
    requires row.vpnIp == Some(a) && row.status == ACTIVE && row.vpnPublicKey == k.owner[a]
    requires row.deviceId == TempDeviceId(a) || (id in s.rows && row.deviceId == s.rows[id].deviceId && s.rows[id].vpnIp == Some(a))
    requires id in s.rows && s.rows[id].vpnIp.Some? && s.rows[id].vpnIp != Some(a) ==> !Assigned(k, subnet, s.rows[id].vpnIp.value)
    ensures InProgress(k, subnet, t, done + {a})
  {
    assert t.rows[id] == row && HasVpnIp(t.rows, id, a);
    forall i | i in t.rows
      ensures RowInProgress(k, subnet, t.rows[i], done + {a})
    {
      assert i != id ==> !Clash(t.rows[i], t.rows[id]);
    }
    forall b | b in done + {a} && Assigned(k, subnet, b)
      ensures ByVpnIp(t.rows, b).Some?
    {
      KeepsHolder(k, subnet, s, t, id, row, a, b);
    }
    forall i, b
      ensures !Misplaced(k, subnet, t.rows, i, b)
    {
      if Misplaced(k, subnet, t.rows, i, b) {
        if i == id {
          if row.deviceId == TempDeviceId(a) {
            SameTempName(subnet, a, b);
          } else {
            assert ByVpnIp(s.rows, b).None? by { KeepsHolder(k, subnet, s, t, id, row, a, b); }
            assert Misplaced(k, subnet, s.rows, id, b);
          }
        } else {
          assert ByVpnIp(s.rows, b).None? by { KeepsHolder(k, subnet, s, t, id, row, a, b); }
          assert Misplaced(k, subnet, s.rows, i, b);
        }
      }
    }
  }

  lemma SameTempName(subnet: string, a: string, b: string)
    requires InPool(subnet, a) && InPool(subnet, b) && TempDeviceId(a) == TempDeviceId(b)
    ensures a == b
  {
    DottedQuadHasNoDash(a);
    DottedQuadHasNoDash(b);
    TempDeviceIdInjective(a, b);
  }

  /** An assigned address that was held before such a replacement is held after it. */
  lemma KeepsHolder(k: Kernel, subnet: string, s: Store, t: Store, id: nat, row: Row, a: string, b: string)
    requires t.rows == s.rows[id := row] && row.vpnIp == Some(a) && Assigned(k, subnet, b)
    requires id in s.rows && s.rows[id].vpnIp.Some? && s.rows[id].vpnIp != Some(a) ==> !Assigned(k, subnet, s.rows[id].vpnIp.value)
    ensures b == a || ByVpnIp(s.rows, b).Some? ==> ByVpnIp(t.rows, b).Some?
  {
    if b == a {
      assert HasVpnIp(t.rows, id, b);
    } else if ByVpnIp(s.rows, b).Some? {
      assert HasVpnIp(t.rows, ByVpnIp(s.rows, b).value, b);
    }
  }

  lemma HeldKeepsProgress(k: Kernel, subnet: string, s: Store, done: set<string>, a: string)
    requires k.Valid() && InProgress(k, subnet, s, done) && Assigned(k, subnet, a)
    requires ByVpnIp(s.rows, a).Some?
    ensures InProgress(k, subnet, Synced(s, a, k.owner[a], NO_FAULTS).0, done + {a})
  {
    var id := ByVpnIp(s.rows, a).value;
    var row := s.rows[id];
    var t := Synced(s, a, k.owner[a], NO_FAULTS).0;
    assert RowInProgress(k, subnet, row, done);
    SyncKeeps(s, a, k.owner[a], NO_FAULTS);
    assert t.rows == s.rows[id := row.(vpnPublicKey := k.owner[a])];
    PlaceKeepsProgress(k, subnet, s, t, done, id, row.(vpnPublicKey := k.owner[a]), a);
  }

  lemma NamedKeepsProgress(k: Kernel, subnet: string, s: Store, done: set<string>, a: string)
    requires k.Valid() && InProgress(k, subnet, s, done) && Assigned(k, subnet, a)
    requires ByVpnIp(s.rows, a).None? && ByDeviceId(s.rows, TempDeviceId(a)).Some?
    ensures InProgress(k, subnet, Synced(s, a, k.owner[a], NO_FAULTS).0, done + {a})
  {
    var id := ByDeviceId(s.rows, TempDeviceId(a)).value;
    var moved := s.rows[id].(vpnIp := Some(a), vpnPublicKey := k.owner[a], status := ACTIVE);
    var t := Synced(s, a, k.owner[a], NO_FAULTS).0;
    assert !Misplaced(k, subnet, s.rows, id, a);
    SyncKeeps(s, a, k.owner[a], NO_FAULTS);
    MoveAdmissible(s, id, moved, a);
    assert t.rows == s.rows[id := moved];
    PlaceKeepsProgress(k, subnet, s, t, done, id, moved, a);
  }

  lemma NewcomerKeepsProgress(k: Kernel, subnet: string, s: Store, done: set<string>, a: string)
    requires k.Valid() && InProgress(k, subnet, s, done) && Assigned(k, subnet, a)
    requires ByVpnIp(s.rows, a).None? && ByDeviceId(s.rows, TempDeviceId(a)).None?
    ensures InProgress(k, subnet, Synced(s, a, k.owner[a], NO_FAULTS).0, done + {a})
  {
    var row := Row(TempDeviceId(a), "Manual WireGuard Peer", Some(a), k.owner[a], ACTIVE);
    var t := Synced(s, a, k.owner[a], NO_FAULTS).0;
    SyncKeeps(s, a, k.owner[a], NO_FAULTS);
    MoveAdmissible(s, s.nextId, row, a);
    assert t.rows == s.rows[s.nextId := row];
    PlaceKeepsProgress(k, subnet, s, t, done, s.nextId, row, a);
  }

  lemma SyncKeepsProgress(k: Kernel, subnet: string, s: Store, done: set<string>, a: string)
    requires k.Valid() && InProgress(k, subnet, s, done) && Assigned(k, subnet, a)
    ensures InProgress(k, subnet, Synced(s, a, k.owner[a], NO_FAULTS).0, done + {a})
  {
    if ByVpnIp(s.rows, a).Some? {
      HeldKeepsProgress(k, subnet, s, done, a);
    } else if ByDeviceId(s.rows, TempDeviceId(a)).Some? {
      NamedKeepsProgress(k, subnet, s, done, a);
    } else {
      NewcomerKeepsProgress(k, subnet, s, done, a);
    }
  }

  lemma MoveAdmissible(s: Store, id: nat, row: Row, a: string)
    requires s.Valid() && row.vpnIp == Some(a) && ByVpnIp(s.rows, a).None?
    requires if id in s.rows then row.deviceId == s.rows[id].deviceId else ByDeviceId(s.rows, row.deviceId).None?
    ensures Admissible(s.rows, id, row)
  {
    forall i | i in s.rows && i != id
      ensures !Clash(s.rows[i], row)
    {
      assert !HasVpnIp(s.rows, i, a);
      assert id in s.rows ==> !Clash(s.rows[i], s.rows[id]);
      assert id !in s.rows ==> !HasDeviceId(s.rows, i, row.deviceId);
    }
  }

  ghost predicate EntriesOf(k: Kernel, subnet: string, entries: seq<Entry>) {
    forall n :: 0 <= n < |entries| ==> Assigned(k, subnet, entries[n].ip) && entries[n].key == k.owner[entries[n].ip]
  }

  function AddressesOf(entries: seq<Entry>): set<string> {
    set n | 0 <= n < |entries| :: entries[n].ip
  }

  lemma {:induction false} SyncAllKeepsProgress(k: Kernel, subnet: string, s: Store, entries: seq<Entry>)
    requires k.Valid() && InProgress(k, subnet, s, {}) && EntriesOf(k, subnet, entries)
    ensures InProgress(k, subnet, SyncedAll(s, entries, _ => NO_FAULTS), AddressesOf(entries))
  {
    if entries == [] {
      assert AddressesOf(entries) == {};
    } else {
      var n := |entries| - 1;
      assert EntriesOf(k, subnet, entries[..n]) by {
        assert forall m :: 0 <= m < n ==> entries[..n][m] == entries[m];
      }
      SyncAllKeepsProgress(k, subnet, s, entries[..n]);
      SyncKeepsProgress(k, subnet, SyncedAll(s, entries[..n], _ => NO_FAULTS), AddressesOf(entries[..n]), entries[n].ip);
      AddressesSnoc(entries);
    }
  }

  lemma AddressesSnoc(entries: seq<Entry>)
    requires entries != []
    ensures AddressesOf(entries) == AddressesOf(entries[..|entries| - 1]) + {entries[|entries| - 1].ip}
  {
    var n := |entries| - 1;
    forall a
      ensures a in AddressesOf(entries) <==> a in AddressesOf(entries[..n]) + {entries[n].ip}
    {
      if a in AddressesOf(entries) {
        var m :| 0 <= m < |entries| && entries[m].ip == a;
        assert m < n ==> entries[..n][m].ip == a;
      }
      if a in AddressesOf(entries[..n]) {
        var m :| 0 <= m < n && entries[..n][m].ip == a;
        assert entries[m].ip == a;
      }
    }
  }

  // ---------------------------------------------------------- the entries

  lemma {:induction false} PeerEntriesMembers(subnet: string, key: string, addresses: seq<string>)
    ensures forall e: Entry :: e in PeerEntries(subnet, key, addresses) <==> e.key == key && e.ip in addresses && InPool(subnet, e.ip)
  {
    if addresses != [] {
      var n := |addresses| - 1;
      PeerEntriesMembers(subnet, key, addresses[..n]);
      assert addresses == addresses[..n] + [addresses[n]];
    }
  }

  lemma {:induction false} EntriesMembers(subnet: string, dump: seq<Peer>)
    ensures forall e: Entry :: e in Entries(subnet, dump) <==>
      exists i :: 0 <= i < |dump| && dump[i].publicKey == e.key && e.ip in dump[i].addresses && InPool(subnet, e.ip)
  {
    if dump != [] {
      var n := |dump| - 1;
      EntriesMembers(subnet, dump[..n]);
      PeerEntriesMembers(subnet, dump[n].publicKey, dump[n].addresses);
      forall e | e in Entries(subnet, dump[..n])
        ensures exists i :: 0 <= i < |dump| && dump[i].publicKey == e.key && e.ip in dump[i].addresses && InPool(subnet, e.ip)
      {
        var i :| 0 <= i < n && dump[..n][i].publicKey == e.key && e.ip in dump[..n][i].addresses && InPool(subnet, e.ip);
        assert dump[i].publicKey == e.key;
      }
      forall e: Entry, i | 0 <= i < n && dump[i].publicKey == e.key && e.ip in dump[i].addresses && InPool(subnet, e.ip)
        ensures e in Entries(subnet, dump[..n])
      {
        assert dump[..n][i].publicKey == e.key;
      }
    }
  }

  lemma EntryIsAssigned(k: Kernel, subnet: string, dump: seq<Peer>, e: Entry)
    requires k.Valid() && IsDump(k, dump) && e in Entries(subnet, dump)
    ensures Assigned(k, subnet, e.ip) && e.key == k.owner[e.ip]
  {
    EntriesMembers(subnet, dump);
    var i :| 0 <= i < |dump| && dump[i].publicKey == e.key && e.ip in dump[i].addresses;
    assert IsPeerLine(k, dump[i]);
  }

  lemma AssignedIsEntry(k: Kernel, subnet: string, dump: seq<Peer>, a: string)
    requires k.Valid() && IsDump(k, dump) && Assigned(k, subnet, a)
    ensures a in AddressesOf(Entries(subnet, dump))
  {
    EntriesMembers(subnet, dump);
    var key, entries := k.owner[a], Entries(subnet, dump);
    assert Lists(dump, key);
    var i :| 0 <= i < |dump| && dump[i].publicKey == key;
    assert IsPeerLine(k, dump[i]) && a in k.Owned(key);
    assert Entry(a, key) in entries;
    var n :| 0 <= n < |entries| && entries[n] == Entry(a, key);
    assert entries[n].ip == a;
  }

  /** The scan meets every assigned address, with its owner, and nothing else. */
  lemma DumpEntries(k: Kernel, subnet: string, dump: seq<Peer>)
    requires k.Valid() && IsDump(k, dump)
    ensures EntriesOf(k, subnet, Entries(subnet, dump))
    ensures forall a :: Assigned(k, subnet, a) ==> a in AddressesOf(Entries(subnet, dump))
  {
    var entries := Entries(subnet, dump);
    forall n | 0 <= n < |entries|
      ensures Assigned(k, subnet, entries[n].ip) && entries[n].key == k.owner[entries[n].ip]
    {
      EntryIsAssigned(k, subnet, dump, entries[n]);
    }
    forall a | Assigned(k, subnet, a)
      ensures a in AddressesOf(entries)
    {
      AssignedIsEntry(k, subnet, dump, a);
    }
  }

  // -------------------------------------------------------------- theorem

  /** Table and kernel after a start in which nothing fails. */
  ghost function Started(w: World, subnet: string, order: seq<nat>, dump: seq<Peer>): World
    requires ListsActive(w.store.rows, order)
  {
    World(Restored(w.kernel, w.store.rows, order, _ => true),
          SyncedAll(w.store, Entries(subnet, dump), _ => NO_FAULTS))
  }

  ghost function RestoredKernel(w: World, order: seq<nat>): Kernel
    requires ListsActive(w.store.rows, order)
  {
    Restored(w.kernel, w.store.rows, order, _ => true)
  }

  lemma ProgressAtStart(w: World, subnet: string, order: seq<nat>)
    requires Startable(w, subnet) && ListsActive(w.store.rows, order)
    requires NoneMisplaced(RestoredKernel(w, order), subnet, w.store.rows)
    ensures InProgress(RestoredKernel(w, order), subnet, w.store, {})
  {
    var k := RestoredKernel(w, order);
    RestoreEstablishes(w, subnet, order, _ => true);
    forall i | i in w.store.rows
      ensures RowInProgress(k, subnet, w.store.rows[i], {})
    {
      var row := w.store.rows[i];
      if KeyedAt(row) {
        assert i in order;
        assert row.vpnIp.value in k.Owned(row.vpnPublicKey);
      }
    }
  }

  lemma ProgressIsAgreement(k: Kernel, subnet: string, s: Store, done: set<string>)
    requires k.Valid() && OnePoolAddressPerPeer(k, subnet) && InProgress(k, subnet, s, done)
    requires forall a :: Assigned(k, subnet, a) ==> a in done
    ensures Agreement(World(k, s), subnet)
  {
    forall i | i in s.rows && s.rows[i].vpnIp.Some?
      ensures RowAgrees(k, subnet, s.rows[i])
    {
      assert RowInProgress(k, subnet, s.rows[i], done);
    }
    forall i, j | i in s.rows && j in s.rows && i != j && KeyedAt(s.rows[i]) && KeyedAt(s.rows[j])
      ensures s.rows[i].vpnPublicKey != s.rows[j].vpnPublicKey
    {
      assert RowInProgress(k, subnet, s.rows[i], done) && RowInProgress(k, subnet, s.rows[j], done);
      assert !Clash(s.rows[i], s.rows[j]);
      assert s.rows[i].vpnIp.value in k.Owned(s.rows[i].vpnPublicKey);
      assert s.rows[j].vpnIp.value in k.Owned(s.rows[j].vpnPublicKey);
    }
    assert forall a :: a in k.owner && InPool(subnet, a) ==> Assigned(k, subnet, a);
  }

  /** Without misplaced names the start ends in agreement, whatever the orders. */
  lemma StartReachesAgreement(w: World, subnet: string, order: seq<nat>, dump: seq<Peer>)
    requires Startable(w, subnet) && ListsActive(w.store.rows, order)
    requires IsDump(RestoredKernel(w, order), dump)
    requires NoneMisplaced(RestoredKernel(w, order), subnet, w.store.rows)
    ensures Agreement(Started(w, subnet, order, dump), subnet)
  {
    var k := RestoredKernel(w, order);
    RestoreEstablishes(w, subnet, order, _ => true);
    ProgressAtStart(w, subnet, order);
    DumpEntries(k, subnet, dump);
    SyncAllKeepsProgress(k, subnet, w.store, Entries(subnet, dump));
    ProgressIsAgreement(k, subnet, SyncedAll(w.store, Entries(subnet, dump), _ => NO_FAULTS), AddressesOf(Entries(subnet, dump)));
  }

  // ------------------------------------------------ the misplaced family

  /** Synchronising another address gives `b` no new holder. */
  lemma SyncGivesOnly(s: Store, a: string, key: string, b: string)
    requires a != b && ByVpnIp(s.rows, b).None?
    ensures ByVpnIp(Synced(s, a, key, NO_FAULTS).0.rows, b).None?
  {
    var t := Synced(s, a, key, NO_FAULTS).0;
    forall i
      ensures !HasVpnIp(t.rows, i, b)
    {
      assert !HasVpnIp(s.rows, i, b);
    }
  }

  lemma {:induction false} SyncAllGivesOnly(s: Store, entries: seq<Entry>, b: string)
    requires ByVpnIp(s.rows, b).None? && forall e :: e in entries ==> e.ip != b
    ensures ByVpnIp(SyncedAll(s, entries, _ => NO_FAULTS).rows, b).None?
  {
    if entries != [] {
      var n := |entries| - 1;
      assert entries[n] in entries;
      SyncAllGivesOnly(s, entries[..n], b);
      SyncGivesOnly(SyncedAll(s, entries[..n], _ => NO_FAULTS), entries[n].ip, entries[n].key, b);
    }
  }

  /** Meeting an address a row already holds leaves every row where and as what it is. */
  lemma HeldStays(s: Store, i: nat, b: string, key: string)
    requires s.Valid() && HasVpnIp(s.rows, i, b) && b != ""
    ensures var t := Synced(s, b, key, NO_FAULTS).0;
      && t.Valid() && t.rows.Keys == s.rows.Keys
      && forall j :: j in s.rows ==> t.rows[j].vpnIp == s.rows[j].vpnIp && t.rows[j].deviceId == s.rows[j].deviceId
  {
    SyncKeeps(s, b, key, NO_FAULTS);
    HolderIs(s, i, b);
  }

  /** Meeting an unheld address moves the row with its temporary name there, away from `b`. */
  lemma NamedMoves(s: Store, i: nat, a: string, b: string, key: string)
    requires s.Valid() && HasDeviceId(s.rows, i, TempDeviceId(a)) && HasVpnIp(s.rows, i, b)
    requires ByVpnIp(s.rows, a).None?
    ensures ByVpnIp(Synced(s, a, key, NO_FAULTS).0.rows, b).None?
  {
    assert a != b by { assert !HasVpnIp(s.rows, i, a); }
    NameIs(s, i, TempDeviceId(a));
    var moved := Merged(s.rows[i], Update("", Some(Some(a)), key, Some(ACTIVE)));
    MoveAdmissible(s, i, moved, a);
    var t := Synced(s, a, key, NO_FAULTS).0;
    assert t.rows == s.rows[i := moved];
    forall j
      ensures !HasVpnIp(t.rows, j, b)
    {
      if j != i && j in s.rows {
        assert !Clash(s.rows[j], s.rows[i]);
      }
    }
  }

  lemma SyncedTwo(s: Store, x: Entry, y: Entry)
    ensures SyncedAll(s, [x, y], _ => NO_FAULTS) == Synced(Synced(s, x.ip, x.key, NO_FAULTS).0, y.ip, y.key, NO_FAULTS).0
  {
    assert [x, y][..1] == [x] && [x][..0] == [];
    assert SyncedAll(s, [x][..0], _ => NO_FAULTS) == s;
    assert SyncedAll(s, [x], _ => NO_FAULTS) == Synced(s, x.ip, x.key, NO_FAULTS).0;
  }

  /** Meeting the misplaced row's own address first, then the one it is named after, moves it away. */
  lemma MisplacedMoves(k: Kernel, subnet: string, s: Store, i: nat, a: string)
    requires k.Valid() && s.Valid() && Misplaced(k, subnet, s.rows, i, a)
    ensures var b := s.rows[i].vpnIp.value;
      ByVpnIp(SyncedAll(s, [Entry(b, k.owner[b]), Entry(a, k.owner[a])], _ => NO_FAULTS).rows, b).None?
  {
    var b := s.rows[i].vpnIp.value;
    var t := Synced(s, b, k.owner[b], NO_FAULTS).0;
    SyncedTwo(s, Entry(b, k.owner[b]), Entry(a, k.owner[a]));
    HeldStays(s, i, b, k.owner[b]);
    forall j
      ensures !HasVpnIp(t.rows, j, a)
    {
      assert !HasVpnIp(s.rows, j, a);
    }
    NamedMoves(t, i, a, b, k.owner[a]);
  }

  lemma HolderIs(s: Store, i: nat, ip: string)
    requires s.Valid() && HasVpnIp(s.rows, i, ip)
    ensures ByVpnIp(s.rows, ip) == Some(i)
  {
    var j := ByVpnIp(s.rows, ip).value;
    assert i != j ==> !Clash(s.rows[i], s.rows[j]);
  }

  lemma NameIs(s: Store, i: nat, deviceId: string)
    requires s.Valid() && HasDeviceId(s.rows, i, deviceId)
    ensures ByDeviceId(s.rows, deviceId) == Some(i)
  {
    var j := ByDeviceId(s.rows, deviceId).value;
    assert i != j ==> !Clash(s.rows[i], s.rows[j]);
  }

  lemma {:induction false} Listing(elements: set<string>) returns (listed: seq<string>)
    ensures NoDuplicates(listed)
    ensures forall a :: a in listed <==> a in elements
  {
    if elements == {} {
      listed := [];
    } else {
      var a :| a in elements;
      var rest := Listing(elements - {a});
      listed := [a] + rest;
    }
  }

  /** Any two different peers can come first in a dump. */
  lemma DumpStartingWith(k: Kernel, first: string, second: string) returns (dump: seq<Peer>)
    requires k.Valid() && first in k.peers && second in k.peers && first != second
    ensures IsDump(k, dump) && |dump| >= 2 && dump[0].publicKey == first && dump[1].publicKey == second
  {
    var rest := DumpOf(k, k.peers - {first, second});
    var firsts := Listing(k.Owned(first));
    var seconds := Listing(k.Owned(second));
    dump := [Peer(first, firsts), Peer(second, seconds)] + rest;
    forall key | key in k.peers
      ensures Lists(dump, key)
    {
      if key == first {
        assert dump[0].publicKey == key;
      } else if key == second {
        assert dump[1].publicKey == key;
      } else {
        assert Lists(rest, key);
        var i :| 0 <= i < |rest| && rest[i].publicKey == key;
        assert dump[i + 2].publicKey == key;
      }
    }
  }

  lemma {:induction false} DumpOf(k: Kernel, keys: set<string>) returns (dump: seq<Peer>)
    requires keys <= k.peers
    ensures forall i, j :: 0 <= i < j < |dump| ==> dump[i].publicKey != dump[j].publicKey
    ensures forall i :: 0 <= i < |dump| ==> dump[i].publicKey in keys && IsPeerLine(k, dump[i])
    ensures forall key :: key in keys ==> Lists(dump, key)
  {
    if keys == {} {
      dump := [];
    } else {
      var key :| key in keys;
      var rest := DumpOf(k, keys - {key});
      var addresses := Listing(k.Owned(key));
      dump := [Peer(key, addresses)] + rest;
      forall other | other in keys
        ensures Lists(dump, other)
      {
        if other == key {
          assert dump[0].publicKey == other;
        } else {
          assert Lists(rest, other);
          var i :| 0 <= i < |rest| && rest[i].publicKey == other;
          assert dump[i + 1].publicKey == other;
        }
      }
    }
  }

  lemma EntriesSnoc(subnet: string, dump: seq<Peer>, peer: Peer)
    ensures Entries(subnet, dump + [peer]) == Entries(subnet, dump) + PeerEntries(subnet, peer.publicKey, peer.addresses)
  {
    assert (dump + [peer])[..|dump|] == dump;
  }

  lemma EntriesAppendOne(subnet: string, a: seq<Peer>, b: seq<Peer>, peer: Peer)
    requires Entries(subnet, a + b) == Entries(subnet, a) + Entries(subnet, b)
    ensures Entries(subnet, a + (b + [peer])) == Entries(subnet, a) + Entries(subnet, b + [peer])
  {
    assert a + (b + [peer]) == (a + b) + [peer];
    EntriesSnoc(subnet, a + b, peer);
    EntriesSnoc(subnet, b, peer);
    Associates(Entries(subnet, a), Entries(subnet, b), PeerEntries(subnet, peer.publicKey, peer.addresses));
  }

  lemma {:induction false} EntriesAppend(subnet: string, a: seq<Peer>, b: seq<Peer>)
    ensures Entries(subnet, a + b) == Entries(subnet, a) + Entries(subnet, b)
  {
    if b == [] {
      assert a + b == a;
    } else {
      var init, last := b[..|b| - 1], b[|b| - 1];
      EntriesAppend(subnet, a, init);
      assert b == init + [last];
      EntriesAppendOne(subnet, a, init, last);
    }
  }

  lemma Associates(x: seq<Entry>, y: seq<Entry>, z: seq<Entry>)
    ensures (x + y) + z == x + (y + z)
  {
  }

  lemma {:induction false} OnlyPoolEntry(subnet: string, key: string, addresses: seq<string>, b: string)
    requires NoDuplicates(addresses) && InPool(subnet, b)
    requires forall a :: a in addresses && InPool(subnet, a) ==> a == b
    ensures PeerEntries(subnet, key, addresses) == if b in addresses then [Entry(b, key)] else []
  {
    if addresses != [] {
      var n := |addresses| - 1;
      assert forall a :: a in addresses <==> a in addresses[..n] || a == addresses[n];
      OnlyPoolEntry(subnet, key, addresses[..n], b);
    }
  }

  lemma PeerOfAssigned(k: Kernel, subnet: string, peer: Peer, b: string)
    requires k.Valid() && OnePoolAddressPerPeer(k, subnet) && IsPeerLine(k, peer)
    requires Assigned(k, subnet, b) && peer.publicKey == k.owner[b]
    ensures PeerEntries(subnet, peer.publicKey, peer.addresses) == [Entry(b, k.owner[b])]
  {
    assert b in k.Owned(peer.publicKey);
    OnlyPoolEntry(subnet, peer.publicKey, peer.addresses, b);
  }

  lemma TwoPeersFirst(subnet: string, p: Peer, q: Peer, rest: seq<Peer>)
    ensures Entries(subnet, [p, q] + rest) ==
      PeerEntries(subnet, p.publicKey, p.addresses) + PeerEntries(subnet, q.publicKey, q.addresses) + Entries(subnet, rest)
  {
    EntriesAppend(subnet, [p, q], rest);
    assert [p, q] == [p] + [q];
    EntriesAppend(subnet, [p], [q]);
    SinglePeer(subnet, p);
    SinglePeer(subnet, q);
  }

  /** Peers listed after the owner of `b` do not list `b`. */
  lemma LaterPeersOmit(k: Kernel, subnet: string, dump: seq<Peer>, b: string)
    requires k.Valid() && IsDump(k, dump) && |dump| >= 2 && b in k.owner && dump[0].publicKey == k.owner[b]
    ensures forall e :: e in Entries(subnet, dump[2..]) ==> e.ip != b
  {
    var rest := dump[2..];
    EntriesMembers(subnet, rest);
    forall e | e in Entries(subnet, rest)
      ensures e.ip != b
    {
      var n :| 0 <= n < |rest| && rest[n].publicKey == e.key && e.ip in rest[n].addresses;
      assert rest[n] == dump[n + 2] && IsPeerLine(k, dump[n + 2]);
    }
  }

  /** A dump that starts with the owners of `b` and `a` yields those two entries first. */
  lemma HeadEntries(k: Kernel, subnet: string, dump: seq<Peer>, b: string, a: string)
    requires k.Valid() && OnePoolAddressPerPeer(k, subnet) && |dump| >= 2
    requires IsPeerLine(k, dump[0]) && IsPeerLine(k, dump[1])
    requires Assigned(k, subnet, b) && Assigned(k, subnet, a)
    requires dump[0].publicKey == k.owner[b] && dump[1].publicKey == k.owner[a]
    ensures Entries(subnet, dump) == [Entry(b, k.owner[b]), Entry(a, k.owner[a])] + Entries(subnet, dump[2..])
  {
    var p, q, rest := dump[0], dump[1], dump[2..];
    assert dump == [p, q] + rest;
    PeerOfAssigned(k, subnet, p, b);
    PeerOfAssigned(k, subnet, q, a);
    HeadOfTwo(subnet, p, q, rest, Entry(b, k.owner[b]), Entry(a, k.owner[a]));
  }

  lemma HeadOfTwo(subnet: string, p: Peer, q: Peer, rest: seq<Peer>, first: Entry, second: Entry)
    requires PeerEntries(subnet, p.publicKey, p.addresses) == [first]
    requires PeerEntries(subnet, q.publicKey, q.addresses) == [second]
    ensures Entries(subnet, [p, q] + rest) == [first, second] + Entries(subnet, rest)
  {
    TwoPeersFirst(subnet, p, q, rest);
    assert [first] + [second] == [first, second];
  }

  /** With a misplaced row, some order of the kernel's peers ends without agreement. */
  lemma MisplacedBreaks(w: World, subnet: string, order: seq<nat>, i: nat, a: string) returns (dump: seq<Peer>)
    requires Startable(w, subnet) && ListsActive(w.store.rows, order)
    requires Misplaced(RestoredKernel(w, order), subnet, w.store.rows, i, a)
    ensures IsDump(RestoredKernel(w, order), dump)
    ensures !Agreement(Started(w, subnet, order, dump), subnet)
  {
    var k := RestoredKernel(w, order);
    RestoreEstablishes(w, subnet, order, _ => true);
    var b := w.store.rows[i].vpnIp.value;
    assert HasVpnIp(w.store.rows, i, b) && !HasVpnIp(w.store.rows, i, a);
    dump := DumpStartingWith(k, k.owner[b], k.owner[a]);
    HeadEntries(k, subnet, dump, b, a);
    LaterPeersOmit(k, subnet, dump, b);
    var head := [Entry(b, k.owner[b]), Entry(a, k.owner[a])];
    SyncedAllAppend(w.store, head, Entries(subnet, dump[2..]), _ => NO_FAULTS);
    MisplacedMoves(k, subnet, w.store, i, a);
    SyncAllGivesOnly(SyncedAll(w.store, head, _ => NO_FAULTS), Entries(subnet, dump[2..]), b);
    assert ByVpnIp(Started(w, subnet, order, dump).store.rows, b).None?;
  }

  lemma SinglePeer(subnet: string, peer: Peer)
    ensures Entries(subnet, [peer]) == PeerEntries(subnet, peer.publicKey, peer.addresses)
  {
    assert [peer][..0] == [];
    assert Entries(subnet, [peer][..0]) == [];
  }

  /**
   * A start without failures ends in agreement for every order in which the kernel may list
   * its peers, exactly when no row with the temporary name of an unheld assigned address
   * holds another assigned address.
   */
  lemma StartupTheorem(w: World, subnet: string, order: seq<nat>)
    requires Startable(w, subnet) && ListsActive(w.store.rows, order)
    ensures (forall dump :: IsDump(RestoredKernel(w, order), dump) ==> Agreement(Started(w, subnet, order, dump), subnet)) <==>
      NoneMisplaced(RestoredKernel(w, order), subnet, w.store.rows)
  {
    var k := RestoredKernel(w, order);
    if NoneMisplaced(k, subnet, w.store.rows) {
      forall dump | IsDump(k, dump)
        ensures Agreement(Started(w, subnet, order, dump), subnet)
      {
        StartReachesAgreement(w, subnet, order, dump);
      }
    } else {
      var i, a :| Misplaced(k, subnet, w.store.rows, i, a);
      var dump := MisplacedBreaks(w, subnet, order, i, a);
    }
  }

  /** In agreement the allocator never hands out an address the kernel already assigns. */
  lemma AllocatorAvoidsKernel(w: World, c: Settings)
    requires Agreement(w, c.subnet) && IsSubnetPrefix(c.subnet)
    ensures Allocated(c.subnet, w.store.rows).Some? ==> Allocated(c.subnet, w.store.rows).value !in w.kernel.owner
  {
    if Allocated(c.subnet, w.store.rows).Some? {
      AllocatedUnowned(w, c, Allocated(c.subnet, w.store.rows).value);
    }
  }

  // ------------------------------------------------- start and registrations

  lemma {:induction false} SyncAllStaysAddressed(s: Store, entries: seq<Entry>, faults: string -> Faults)
    requires KeysAddressed(s.rows)
    ensures KeysAddressed(SyncedAll(s, entries, faults).rows)
  {
    if entries != [] {
      var n := |entries| - 1;
      SyncAllStaysAddressed(s, entries[..n], faults);
      SyncStaysAddressed(SyncedAll(s, entries[..n], faults), entries[n].ip, entries[n].key, faults(entries[n].ip));
    }
  }

  /**
   * A start followed by any sequence of registrations whose rollback commands work: agreement
   * is reached and never lost, whatever else fails and whatever addresses manual peers have.
   */
  lemma StartThenCalls(w: World, c: Settings, order: seq<nat>, dump: seq<Peer>, calls: seq<Call>)
    requires Startable(w, c.subnet) && ListsActive(w.store.rows, order) && IsSubnetPrefix(c.subnet)
    requires IsDump(RestoredKernel(w, order), dump) && NoneMisplaced(RestoredKernel(w, order), c.subnet, w.store.rows)
    requires KeysAddressed(w.store.rows)
    requires WellKeyed(Started(w, c.subnet, order, dump), c, calls)
    requires forall call :: call in calls ==> RollbackWorks(call.faults)
    ensures Steady(Calls(Started(w, c.subnet, order, dump), c, calls), c.subnet)
  {
    StartReachesAgreement(w, c.subnet, order, dump);
    SyncAllStaysAddressed(w.store, Entries(c.subnet, dump), _ => NO_FAULTS);
    CallsKeepAgreement(Started(w, c.subnet, order, dump), c, calls);
  }

  /**
   * What a start cannot give: a peer with a second address. The row that holds its pool
   * address has its key, and a rotation of that row that is rolled back, with every rollback
   * command working, leaves the second address to nobody.
   */
  lemma SecondAddressLost(w: World, c: Settings, order: seq<nat>, dump: seq<Peer>, a: string, b: string,
                          dto: Request, key: string, f: CallFaults)
    requires Startable(w, c.subnet) && ListsActive(w.store.rows, order)
    requires IsDump(RestoredKernel(w, order), dump) && NoneMisplaced(RestoredKernel(w, order), c.subnet, w.store.rows)
    requires var k := RestoredKernel(w, order);
      a != b && Assigned(k, c.subnet, a) && b in k.owner && k.owner[b] == k.owner[a]
    ensures var s := Started(w, c.subnet, order, dump);
      var holder := ByVpnIp(s.store.rows, a);
      && holder.Some? && s.store.rows[holder.value].status == ACTIVE
      && s.store.rows[holder.value].vpnPublicKey == s.kernel.owner[a]
      && b in s.kernel.owner
      && (Fresh(s, key) && RollbackWorks(f) && ReachedKernel(Rotation(s, c, holder.value, dto, key, f).1) ==>
           b !in Rotation(s, c, holder.value, dto, key, f).0.kernel.owner)
  {
    StartReachesAgreement(w, c.subnet, order, dump);
    var s := Started(w, c.subnet, order, dump);
    var holder := ByVpnIp(s.store.rows, a).value;
    assert RowAgrees(s.kernel, c.subnet, s.store.rows[holder]);
    if Fresh(s, key) && RollbackWorks(f) && ReachedKernel(Rotation(s, c, holder, dto, key, f).1) {
      RollbackLosesOthers(s, c, holder, dto, key, f, b);
    }
  }

  /** A peer set up by hand with two addresses, before any device is known. */
  function ManualKernel(peer: string, a: string, b: string): Kernel {
    Kernel({peer}, map[a := peer, b := peer])
  }

  const EMPTY_STORE := Store(map[], 0, map[])

  const ONLY_WRITE_FAILS := CallFaults(true, true, true, true, true, Faults(true, true, false, true), true, true)

  /**
   * Such a start exists: an empty table and one peer set up by hand with a pool address and
   * another one. Its device registers, only the database write fails, and the other address is gone.
   */
  lemma ManualPeerLosesAddress(c: Settings, dto: Request, peer: string, key: string, a: string, b: string)
    requires IsRealKey(peer) && IsRealKey(key) && peer != key && InPool(c.subnet, a) && !InPool(c.subnet, b)
    requires c.token == Some(dto.provisionToken) && dto.provisionToken != "" && dto.deviceId == TempDeviceId(a)
    ensures var w, dump := World(ManualKernel(peer, a, b), EMPTY_STORE), [Peer(peer, [a, b])];
      var s := Started(w, c.subnet, [], dump);
      var (after, outcome) := Registration(s, c, dto, key, ONLY_WRITE_FAILS);
      && Startable(w, c.subnet) && KeysAddressed(w.store.rows) && IsDump(w.kernel, dump)
      && RollbackWorks(ONLY_WRITE_FAILS) && outcome == Thrown(DatabaseFailed)
      && b in s.kernel.owner && b !in after.kernel.owner
  {
    var k := ManualKernel(peer, a, b);
    ManualDump(peer, a, b);
    ManualRows(c, peer, a, b);
    ManualStartable(c.subnet, peer, a, b);
    var s := Started(World(k, EMPTY_STORE), c.subnet, [], [Peer(peer, [a, b])]);
    FailingRotation(s, c, 0, dto, key, peer, a, b);
  }

  lemma ManualStartable(subnet: string, peer: string, a: string, b: string)
    requires IsRealKey(peer) && InPool(subnet, a) && !InPool(subnet, b)
    ensures Startable(World(ManualKernel(peer, a, b), EMPTY_STORE), subnet)
  {
  }

  /** The rotation of a device's only row, in which only the database write fails. */
  lemma FailingRotation(s: World, c: Settings, id: nat, dto: Request, key: string, peer: string, a: string, b: string)
    requires s.store.rows == map[id := Row(dto.deviceId, "Manual WireGuard Peer", Some(a), peer, ACTIVE)]
    requires s.kernel == ManualKernel(peer, a, b) && IsRealKey(peer) && IsRealKey(key) && peer != key && a != b
    requires c.token == Some(dto.provisionToken) && dto.provisionToken != ""
    ensures Registration(s, c, dto, key, ONLY_WRITE_FAILS).1 == Thrown(DatabaseFailed)
    ensures b !in Registration(s, c, dto, key, ONLY_WRITE_FAILS).0.kernel.owner
  {
    assert HasDeviceId(s.store.rows, id, dto.deviceId);
    RotationLeaves(s, c, id, dto, key, ONLY_WRITE_FAILS);
    assert b !in s.kernel.Allow(peer, a).owner;
  }

  lemma ManualDump(peer: string, a: string, b: string)
    requires a != b
    ensures IsDump(ManualKernel(peer, a, b), [Peer(peer, [a, b])])
  {
    var line := Peer(peer, [a, b]);
    assert ManualKernel(peer, a, b).Owned(peer) == {a, b};
    assert IsPeerLine(ManualKernel(peer, a, b), line);
    assert [line][0].publicKey == peer && Lists([line], peer);
  }

  /** The start takes the peer's pool address into the table and leaves the kernel alone. */
  lemma ManualRows(c: Settings, peer: string, a: string, b: string)
    requires InPool(c.subnet, a) && !InPool(c.subnet, b)
    ensures var s := Started(World(ManualKernel(peer, a, b), EMPTY_STORE), c.subnet, [], [Peer(peer, [a, b])]);
      && s.kernel == ManualKernel(peer, a, b)
      && s.store.rows == map[0 := Row(TempDeviceId(a), "Manual WireGuard Peer", Some(a), peer, ACTIVE)]
  {
    TwoAddresses(c.subnet, peer, a, b);
    SinglePeer(c.subnet, Peer(peer, [a, b]));
    SyncedOne(EMPTY_STORE, Entry(a, peer), _ => NO_FAULTS);
    SyncedIntoEmpty(a, peer);
  }

  lemma TwoAddresses(subnet: string, key: string, a: string, b: string)
    requires InPool(subnet, a) && !InPool(subnet, b)
    ensures PeerEntries(subnet, key, [a, b]) == [Entry(a, key)]
  {
    assert [a, b][..1] == [a] && [a][..0] == [];
    assert PeerEntries(subnet, key, [a]) == [Entry(a, key)];
  }

  lemma SyncedOne(s: Store, e: Entry, faults: string -> Faults)
    ensures SyncedAll(s, [e], faults) == Synced(s, e.ip, e.key, faults(e.ip)).0
  {
    assert [e][..0] == [];
  }

  lemma SyncedIntoEmpty(a: string, key: string)
    ensures Synced(EMPTY_STORE, a, key, NO_FAULTS).0.rows ==
      map[0 := Row(TempDeviceId(a), "Manual WireGuard Peer", Some(a), key, ACTIVE)]
  {
    assert ByVpnIp(EMPTY_STORE.rows, a).None? && ByDeviceId(EMPTY_STORE.rows, TempDeviceId(a)).None?;
  }

  // --------------------------------------------------------------- prefix

  /** An address of digits and dots behind the configured prefix, other than the gateway's. */
  predicate BehindPrefix(subnet: string, a: string) {
    && |subnet| <= |a| && a[..|subnet|] == subnet && a[|subnet|..] != "1"
    && forall i :: 0 <= i < |a| ==> IsDigit(a[i]) || a[i] == '.'
  }

  /** Every address in the table was there before or is behind the prefix. */
  ghost predicate OldOrBehindPrefix(before: map<nat, Row>, after: map<nat, Row>, subnet: string) {
    forall i :: i in after && after[i].vpnIp.Some? ==>
      BehindPrefix(subnet, after[i].vpnIp.value) || exists j :: HasVpnIp(before, j, after[i].vpnIp.value)
  }

  lemma PoolIsBehindPrefix(subnet: string, a: string)
    requires InPool(subnet, a)
    ensures BehindPrefix(subnet, a)
  {
    assert HostIp(subnet, GATEWAY_HOST) == subnet + "1" && a == a[..|subnet|] + a[|subnet|..];
    forall i | 0 <= i < |a| && a[i] != '.'
      ensures IsDigit(a[i])
    {
      SplitKeepsCharacters(a, '.', a[i]);
    }
  }

  lemma SyncedBehindPrefix(before: map<nat, Row>, s: Store, subnet: string, ip: string, key: string, f: Faults)
    requires OldOrBehindPrefix(before, s.rows, subnet) && BehindPrefix(subnet, ip)
    ensures OldOrBehindPrefix(before, Synced(s, ip, key, f).0.rows, subnet)
  {
  }

  lemma {:induction false} SyncAllBehindPrefix(before: map<nat, Row>, s: Store, subnet: string, entries: seq<Entry>, faults: string -> Faults)
    requires OldOrBehindPrefix(before, s.rows, subnet)
    requires forall e: Entry :: e in entries ==> BehindPrefix(subnet, e.ip)
    ensures OldOrBehindPrefix(before, SyncedAll(s, entries, faults).rows, subnet)
  {
    if entries != [] {
      var n := |entries| - 1;
      SyncAllBehindPrefix(before, s, subnet, entries[..n], faults);
      assert entries[n] in entries;
      SyncedBehindPrefix(before, SyncedAll(s, entries[..n], faults), subnet, entries[n].ip, entries[n].key, faults(entries[n].ip));
    }
  }

  /** Whatever the kernel lists and whatever fails, the scan stores no address outside the prefix, nor the gateway's. */
  lemma ScanStaysBehindPrefix(s: Store, subnet: string, dump: seq<Peer>, faults: string -> Faults)
    ensures OldOrBehindPrefix(s.rows, SyncedAll(s, Entries(subnet, dump), faults).rows, subnet)
  {
    EntriesMembers(subnet, dump);
    forall e: Entry | e in Entries(subnet, dump)
      ensures BehindPrefix(subnet, e.ip)
    {
      PoolIsBehindPrefix(subnet, e.ip);
    }
    assert forall i :: i in s.rows && s.rows[i].vpnIp.Some? ==> HasVpnIp(s.rows, i, s.rows[i].vpnIp.value);
    SyncAllBehindPrefix(s.rows, s, subnet, Entries(subnet, dump), faults);
  }
}
