/**
 * What every run of table operations keeps: unique identities, and an address
 * map in which every active address leads to its device.
 */
module Identity {
  import opened Wrappers
  import opened Addresses
  import opened WireGuard
  import opened Devices

  datatype Change =
    | Create(row: Row)
    | Edit(id: nat, input: Update)
    | KernelSync(ip: string, key: string)
    | Bind(realId: string, ip: string, model: string)

  /** Callers never store an empty identifier: the request DTO and the kernel scan exclude it. */
  predicate WellFormed(c: Change) {
    match c
    case Create(row) => row.deviceId != "" && row.vpnIp != Some("")
    case Edit(_, input) => input.vpnIp != Some(Some(""))
    case KernelSync(ip, _) => ip != ""
    case Bind(_, _, _) => true
  }

  ghost function Step(s: Store, c: Change, f: Faults): Store {
    match c
    case Create(row) => Created(s, row, f).0
    case Edit(id, input) => Updated(s, id, input, f).0
    case KernelSync(ip, key) => Synced(s, ip, key, f).0
    case Bind(realId, ip, model) => Bound(s, realId, ip, model, f).0
  }

  ghost function Run(s: Store, cs: seq<(Change, Faults)>): Store {
    if cs == [] then s else Step(Run(s, cs[..|cs| - 1]), cs[|cs| - 1].0, cs[|cs| - 1].1)
  }

  predicate MapsTo(ipMap: map<string, string>, row: Row) {
    row.status == ACTIVE && row.vpnIp.Some? ==>
      row.vpnIp.value in ipMap && ipMap[row.vpnIp.value] == row.deviceId
  }

  ghost predicate IpMapCurrent(s: Store) {
    forall i :: i in s.rows ==> MapsTo(s.ipMap, s.rows[i])
  }

  lemma WrittenKeepsValid(s: Store, id: nat, row: Row, f: Faults)
    requires s.Valid() && row.deviceId != "" && row.vpnIp != Some("")
    ensures Written(s, id, row, f).0.Valid()
  {
  }

  /**
   * One accepted write keeps the map current exactly when Redis took the write or
   * had nothing to learn from it.
   */
  lemma WrittenMapCurrent(s: Store, id: nat, row: Row, f: Faults)
    requires s.Valid() && row.deviceId != "" && row.vpnIp != Some("")
    requires forall i :: i in s.rows && i != id ==> MapsTo(s.ipMap, s.rows[i])
    requires Written(s, id, row, f).1.Some?
    ensures IpMapCurrent(Written(s, id, row, f).0) <==> f.redisOk || MapsTo(s.ipMap, row)
  {
    var t := Written(s, id, row, f).0;
    assert t.rows[id] == row;
    forall i | i in t.rows && i != id
      ensures MapsTo(t.ipMap, t.rows[i])
    {
      assert !Clash(s.rows[i], row);
    }
  }

  lemma StepKeeps(s: Store, c: Change, f: Faults)
    requires s.Valid() && WellFormed(c)
    ensures Step(s, c, f).Valid()
    ensures IpMapCurrent(s) && f.redisOk ==> IpMapCurrent(Step(s, c, f))
  {
    match c
    case Create(row) =>
      WriteKeeps(s, s.nextId, row, f);
    case Edit(id, input) =>
      if id in s.rows {
        WriteKeeps(s, id, Merged(s.rows[id], input), f);
      }
    case KernelSync(ip, key) =>
      SyncKeeps(s, ip, key, f);
    case Bind(realId, ip, model) =>
      BindKeeps(s, realId, ip, model, f);
  }

  lemma WriteKeeps(s: Store, id: nat, row: Row, f: Faults)
    requires s.Valid() && row.deviceId != "" && row.vpnIp != Some("")
    ensures Written(s, id, row, f).0.Valid()
    ensures IpMapCurrent(s) && f.redisOk ==> IpMapCurrent(Written(s, id, row, f).0)
  {
    WrittenKeepsValid(s, id, row, f);
    if IpMapCurrent(s) && Written(s, id, row, f).1.Some? {
      WrittenMapCurrent(s, id, row, f);
    }
  }

  lemma SyncKeeps(s: Store, ip: string, key: string, f: Faults)
    requires s.Valid() && ip != ""
    ensures Synced(s, ip, key, f).0.Valid()
    ensures IpMapCurrent(s) && f.redisOk ==> IpMapCurrent(Synced(s, ip, key, f).0)
  {
    var holder := ByVpnIp(s.rows, ip);
    var named := ByDeviceId(s.rows, TempDeviceId(ip));
    if holder.Some? {
      WriteKeeps(s, holder.value, Merged(s.rows[holder.value], Update("", None, key, Some(ACTIVE))), f);
    } else if named.Some? {
      WriteKeeps(s, named.value, Merged(s.rows[named.value], Update("", Some(Some(ip)), key, Some(ACTIVE))), f);
    } else {
      WriteKeeps(s, s.nextId, Row(TempDeviceId(ip), "Manual WireGuard Peer", Some(ip), key, ACTIVE), f);
    }
  }

  lemma BindKeeps(s: Store, realId: string, ip: string, model: string, f: Faults)
    requires s.Valid()
    ensures Bound(s, realId, ip, model, f).0.Valid()
    ensures IpMapCurrent(s) && f.redisOk ==> IpMapCurrent(Bound(s, realId, ip, model, f).0)
  {
    var clean := Trim(realId);
    var known := ByDeviceId(s.rows, clean);
    var holder := if ip == "" then None else ByVpnIp(s.rows, ip);
    if clean != "" && known.Some? && ip != "" {
      var t := if holder.Some? then s.(rows := s.rows - {holder.value}) else s;
      if known.value in t.rows {
        WriteKeeps(t, known.value, Merged(t.rows[known.value], Update("", Some(Some(ip)), "", Some(ACTIVE))), f);
      }
    } else if clean != "" && holder.Some? {
      var row := s.rows[holder.value];
      WriteKeeps(s, holder.value,
        row.(deviceId := clean, hardwareModel := if model != "" then model else row.hardwareModel, status := ACTIVE), f);
    } else if clean != "" {
      WriteKeeps(s, s.nextId, Row(clean, model, if ip == "" then None else Some(ip), "MANUAL_TELEMETRY", ACTIVE), f);
    }
  }

  /**
   * Device ids and addresses stay unique over any run with any failures, and while
   * Redis accepts writes every active address maps to its device.
   */
  lemma {:induction false} RunKeeps(s: Store, cs: seq<(Change, Faults)>)
    requires s.Valid()
    requires forall c :: c in cs ==> WellFormed(c.0)
    ensures Run(s, cs).Valid()
    ensures IpMapCurrent(s) && (forall c :: c in cs ==> c.1.redisOk) ==> IpMapCurrent(Run(s, cs))
  {
    if cs != [] {
      var n := |cs| - 1;
      RunKeeps(s, cs[..n]);
      assert cs[n] in cs;
      StepKeeps(Run(s, cs[..n]), cs[n].0, cs[n].1);
    }
  }

  // ------------------------------------------------- keys and addresses

  /** A row in use with a real key has an address. */
  predicate Addressed(row: Row) {
    row.status != REVOKED && IsRealKey(row.vpnPublicKey) ==> row.vpnIp.Some?
  }

  ghost predicate KeysAddressed(rows: map<nat, Row>) {
    forall i :: i in rows ==> Addressed(rows[i])
  }

  /** No caller creates a row with a real key alone, takes an address away, or writes a key or status without an address. */
  predicate CallerWrites(c: Change) {
    match c
    case Create(row) => IsRealKey(row.vpnPublicKey) ==> row.vpnIp.Some?
    case Edit(_, input) =>
      && input.vpnIp != Some(None)
      && (IsRealKey(input.vpnPublicKey) || input.status.Some? ==> input.vpnIp.Some?)
    case KernelSync(_, _) => true
    case Bind(_, _, _) => true
  }

  lemma WriteStaysAddressed(s: Store, id: nat, row: Row, f: Faults)
    requires KeysAddressed(s.rows) && Addressed(row)
    ensures KeysAddressed(Written(s, id, row, f).0.rows)
  {
  }

  lemma SyncStaysAddressed(s: Store, ip: string, key: string, f: Faults)
    requires KeysAddressed(s.rows)
    ensures KeysAddressed(Synced(s, ip, key, f).0.rows)
  {
    var holder := ByVpnIp(s.rows, ip);
    var named := ByDeviceId(s.rows, TempDeviceId(ip));
    if holder.Some? {
      WriteStaysAddressed(s, holder.value, Merged(s.rows[holder.value], Update("", None, key, Some(ACTIVE))), f);
    } else if named.Some? {
      WriteStaysAddressed(s, named.value, Merged(s.rows[named.value], Update("", Some(Some(ip)), key, Some(ACTIVE))), f);
    } else {
      WriteStaysAddressed(s, s.nextId, Row(TempDeviceId(ip), "Manual WireGuard Peer", Some(ip), key, ACTIVE), f);
    }
  }

  lemma BindStaysAddressed(s: Store, realId: string, ip: string, model: string, f: Faults)
    requires KeysAddressed(s.rows)
    ensures KeysAddressed(Bound(s, realId, ip, model, f).0.rows)
  {
  }

  /** Over any run of what the callers do, every row in use with a real key has an address. */
  lemma {:induction false} KeysStayAddressed(s: Store, cs: seq<(Change, Faults)>)
    requires KeysAddressed(s.rows)
    requires forall c :: c in cs ==> CallerWrites(c.0)
    ensures KeysAddressed(Run(s, cs).rows)
  {
    if cs != [] {
      var n := |cs| - 1;
      KeysStayAddressed(s, cs[..n]);
      assert cs[n] in cs;
      var before := Run(s, cs[..n]);
      match cs[n].0
      case Create(row) => WriteStaysAddressed(before, before.nextId, row, cs[n].1);
      case Edit(id, input) =>
        if id in before.rows {
          WriteStaysAddressed(before, id, Merged(before.rows[id], input), cs[n].1);
        }
      case KernelSync(ip, key) => SyncStaysAddressed(before, ip, key, cs[n].1);
      case Bind(realId, ip, model) => BindStaysAddressed(before, realId, ip, model, cs[n].1);
    }
  }

  // ------------------------------------------------------------- loading

  /** Loading at startup makes the map current whatever Redis held before. */
  lemma LoadMakesCurrent(s: Store, order: seq<nat>)
    requires s.Valid() && ListsActive(s.rows, order)
    ensures Loaded(s, order, true).rows == s.rows && Loaded(s, order, true).Valid()
    ensures IpMapCurrent(Loaded(s, order, true))
  {
    LoadPrefix(s, order);
    var t := Loaded(s, order, true);
    forall i | i in t.rows
      ensures MapsTo(t.ipMap, t.rows[i])
    {
      if s.rows[i].status == ACTIVE && s.rows[i].vpnIp.Some? {
        assert i in order;
      }
    }
  }

  lemma {:induction false} LoadPrefix(s: Store, order: seq<nat>)
    requires s.Valid()
    requires forall i :: i in order ==> i in s.rows && s.rows[i].status == ACTIVE && s.rows[i].vpnIp.Some?
    ensures var t := Loaded(s, order, true);
      && t.rows == s.rows && t.nextId == s.nextId
      && forall i :: i in order ==> MapsTo(t.ipMap, s.rows[i])
  {
    if order != [] {
      var n := |order| - 1;
      LoadPrefix(s, order[..n]);
      var t := Loaded(s, order, true);
      forall i | i in order
        ensures MapsTo(t.ipMap, s.rows[i])
      {
        if i != order[n] {
          assert i in order[..n];
          assert !Clash(s.rows[i], s.rows[order[n]]);
        }
      }
    }
  }

  /**
   * Binding a device to an address: afterwards that device holds it, its row is active
   * unless it already held it, and no other row changed except that a different holder
   * of the address was deleted (known device) or renamed (unknown device).
   */
  lemma BindOutcome(s: Store, realId: string, ip: string, model: string)
    requires s.Valid() && Trim(realId) != "" && ip != ""
    ensures var (t, bound) := Bound(s, realId, ip, model, NO_FAULTS);
      var known := ByDeviceId(s.rows, Trim(realId));
      var holder := ByVpnIp(s.rows, ip);
      && bound.Some?
      && HasDeviceId(t.rows, bound.value, Trim(realId)) && HasVpnIp(t.rows, bound.value, ip)
      && bound.value == (if known.Some? then known.value else if holder.Some? then holder.value else s.nextId)
      && (known.None? || known != holder ==> t.rows[bound.value].status == ACTIVE)
      && (known.Some? && known == holder ==> t == s)
      && (forall i :: i in t.rows && i != bound.value ==> i in s.rows && t.rows[i] == s.rows[i])
      && (forall i :: i in s.rows && i !in t.rows ==> known.Some? && Some(i) == holder)
      && t.rows[bound.value].vpnPublicKey ==
           (if bound.value in s.rows then s.rows[bound.value].vpnPublicKey else "MANUAL_TELEMETRY")
      && t.rows[bound.value].hardwareModel ==
           (if known.Some? || (holder.Some? && model == "") then s.rows[bound.value].hardwareModel else model)
  {
    var known := ByDeviceId(s.rows, Trim(realId));
    var holder := ByVpnIp(s.rows, ip);
    if known.Some? && s.rows[known.value].vpnIp == Some(ip) {
      assert HasVpnIp(s.rows, known.value, ip);
      assert holder == known;
    } else if known.Some? {
      var t := if holder.Some? then s.(rows := s.rows - {holder.value}) else s;
      var row := Merged(t.rows[known.value], Update("", Some(Some(ip)), "", Some(ACTIVE)));
      forall i | i in t.rows && i != known.value
        ensures !Clash(t.rows[i], row)
      {
        assert !Clash(s.rows[i], s.rows[known.value]);
        assert !HasVpnIp(t.rows, i, ip) by {
          if holder.None? { assert !HasVpnIp(s.rows, i, ip); }
        }
      }
    } else if holder.Some? {
      var row := s.rows[holder.value];
      forall i | i in s.rows && i != holder.value
        ensures !Clash(s.rows[i], row.(deviceId := Trim(realId)))
      {
        assert !HasDeviceId(s.rows, i, Trim(realId));
        assert !Clash(s.rows[i], row);
      }
    } else {
      forall i | i in s.rows
        ensures !Clash(s.rows[i], Row(Trim(realId), model, Some(ip), "MANUAL_TELEMETRY", ACTIVE))
      {
        assert !HasDeviceId(s.rows, i, Trim(realId)) && !HasVpnIp(s.rows, i, ip);
      }
    }
  }

  /** Without an address a known device stays as it is and an unknown one is stored without one; without a name nothing happens. */
  lemma BindWithoutAddress(s: Store, realId: string, model: string)
    requires s.Valid()
    ensures var (t, bound) := Bound(s, realId, "", model, NO_FAULTS);
      var known := ByDeviceId(s.rows, Trim(realId));
      if Trim(realId) == "" then t == s && bound.None?
      else if known.Some? then t == s && bound == known
      else t.rows == s.rows[s.nextId := Row(Trim(realId), model, None, "MANUAL_TELEMETRY", ACTIVE)]
           && t.ipMap == s.ipMap && bound == Some(s.nextId)
  {
    var row := Row(Trim(realId), model, None, "MANUAL_TELEMETRY", ACTIVE);
    if ByDeviceId(s.rows, Trim(realId)).None? {
      forall i | i in s.rows
        ensures !Clash(s.rows[i], row)
      {
        assert !HasDeviceId(s.rows, i, Trim(realId));
      }
    }
  }

  /** All characters outside `i..j` are blank. */
  predicate BlankOutside(s: string, i: nat, j: nat) {
    forall k :: 0 <= k < |s| ==> i <= k < j || IsBlank(s[k])
  }

  lemma BlankBefore(s: string, i: nat, j: nat)
    requires s != "" && IsBlank(s[0]) && i <= j <= |s| - 1 && BlankOutside(s[1..], i, j)
    ensures BlankOutside(s, i + 1, j + 1) && s[i + 1..j + 1] == s[1..][i..j]
  {
    var tail := s[1..];
    forall k | 0 <= k < i + 1 || j + 1 <= k < |s|
      ensures IsBlank(s[k])
    {
      assert k > 0 ==> s[k] == tail[k - 1];
    }
  }

  lemma BlankBehind(s: string, i: nat, j: nat)
    requires s != "" && IsBlank(s[|s| - 1]) && i <= j <= |s| - 1 && BlankOutside(s[..|s| - 1], i, j)
    ensures BlankOutside(s, i, j) && s[i..j] == s[..|s| - 1][i..j]
  {
    var head := s[..|s| - 1];
    forall k | 0 <= k < i || j <= k < |s|
      ensures IsBlank(s[k])
    {
      assert k < |s| - 1 ==> s[k] == head[k];
    }
  }

  /** A device's name is its given name without the blanks around it. */
  lemma {:induction false} TrimCuts(s: string) returns (i: nat, j: nat)
    ensures i <= j <= |s| && Trim(s) == s[i..j] && BlankOutside(s, i, j)
    ensures i < j ==> !IsBlank(s[i]) && !IsBlank(s[j - 1])
    decreases |s|
  {
    i, j := 0, |s|;
    if s != "" && IsBlank(s[0]) {
      i, j := TrimCuts(s[1..]);
      BlankBefore(s, i, j);
      i, j := i + 1, j + 1;
    } else if s != "" && IsBlank(s[|s| - 1]) {
      i, j := TrimCuts(s[..|s| - 1]);
      BlankBehind(s, i, j);
    }
  }

  /**
   * Synchronising a kernel peer's address: afterwards a row holds it with the peer's key. It is the
   * row that held it, else the one with its temporary name, else a new one of that name; no other row changes,
   * and nothing at all if the row that held it had the key.
   */
  lemma SyncOutcome(s: Store, ip: string, key: string)
    requires s.Valid() && ip != "" && key != ""
    ensures var (t, stored) := Synced(s, ip, key, NO_FAULTS);
      var holder, named := ByVpnIp(s.rows, ip), ByDeviceId(s.rows, TempDeviceId(ip));
      && stored == Some(if holder.Some? then holder.value else if named.Some? then named.value else s.nextId)
      && HasVpnIp(t.rows, stored.value, ip) && t.rows[stored.value].vpnPublicKey == key
      && t.rows == s.rows[stored.value := t.rows[stored.value]]
      && (if holder.Some? && s.rows[holder.value].vpnPublicKey == key then t == s
          else t.rows[stored.value].status == ACTIVE && MapsTo(t.ipMap, t.rows[stored.value]))
      && t.rows[stored.value].deviceId == (if holder.Some? then s.rows[holder.value].deviceId else TempDeviceId(ip))
      && t.rows[stored.value].hardwareModel ==
           (if holder.None? && named.None? then "Manual WireGuard Peer" else s.rows[stored.value].hardwareModel)
  {
    var holder, named := ByVpnIp(s.rows, ip), ByDeviceId(s.rows, TempDeviceId(ip));
    if holder.Some? {
      SyncAdmissible(s, holder.value, Merged(s.rows[holder.value], Update("", None, key, Some(ACTIVE))), ip);
    } else if named.Some? {
      SyncAdmissible(s, named.value, Merged(s.rows[named.value], Update("", Some(Some(ip)), key, Some(ACTIVE))), ip);
    } else {
      SyncAdmissible(s, s.nextId, Row(TempDeviceId(ip), "Manual WireGuard Peer", Some(ip), key, ACTIVE), ip);
    }
  }

  lemma SyncAdmissible(s: Store, id: nat, row: Row, ip: string)
    requires s.Valid() && row.vpnIp == Some(ip)
    requires if id in s.rows then row.deviceId == s.rows[id].deviceId else ByDeviceId(s.rows, row.deviceId).None?
    requires ByVpnIp(s.rows, ip) in {None, Some(id)}
    ensures Admissible(s.rows, id, row)
  {
    forall i | i in s.rows && i != id
      ensures !Clash(s.rows[i], row)
    {
      if id in s.rows {
        assert !Clash(s.rows[i], s.rows[id]);
      } else {
        assert !HasDeviceId(s.rows, i, row.deviceId);
      }
      if ByVpnIp(s.rows, ip).None? {
        assert !HasVpnIp(s.rows, i, ip);
      } else {
        assert !Clash(s.rows[i], s.rows[id]);
      }
    }
  }
}
