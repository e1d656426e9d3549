/**
 * Concurrent registrations: every await of `registerDevice` is a step, and the
 * steps of any number of runs interleave freely on one kernel and one table.
 */
module Interleaving {
  import opened Wrappers
  import opened Addresses
  import opened WireGuard
  import opened Devices
  import opened Identity
  import opened IpPool
  import opened Provisioning
  import opened Saga

  /** What a run does next. */
  datatype Pc = Allocate | Generate | RemoveOld | AddNew | Save | Discard | Restore | Succeeded | Failed

  /**
   * Local variables of a run. A rotation remembers the row it read: its id, key and address.
   */
  datatype Run = Run(pc: Pc, deviceId: string, model: string, rotating: Option<nat>, prior: string, hadIp: Option<string>,
                     ip: string, key: string)

  /** Shared state, all runs, and the keys whose removal command failed. */
  datatype System = System(world: World, runs: map<nat, Run>, lost: set<string>)

  datatype Action = Begin(r: nat, dto: Request) | Proceed(r: nat, key: string, ok: bool, redisOk: bool)

  ghost function Started(w: World, dto: Request): Run {
    var found := ByDeviceId(w.store.rows, dto.deviceId);
    if found.None? then Run(Allocate, dto.deviceId, dto.hardwareModel, None, "", None, "", "")
    else
      var row := w.store.rows[found.value];
      if row.status == REVOKED then Run(Failed, dto.deviceId, dto.hardwareModel, None, "", None, "", "")
      else Run(if row.vpnIp.Some? then Generate else Allocate, dto.deviceId, dto.hardwareModel, found,
               row.vpnPublicKey, row.vpnIp, if row.vpnIp.Some? then row.vpnIp.value else "", "")
  }

  /** The database write of a run: a new row, or new fields for the row it read. */
  ghost function Saved(s: Store, run: Run, f: Faults): (Store, Option<nat>) {
    if run.rotating.None? then Created(s, Row(run.deviceId, run.model, Some(run.ip), run.key, ACTIVE), f)
    else Updated(s, run.rotating.value, Update(run.model, Some(Some(run.ip)), run.key, Some(ACTIVE)), f)
  }

  /** One step of a run: the shared state, the run, and the keys it may have left in the kernel. */
  ghost function Advance(w: World, run: Run, subnet: string, key: string, ok: bool, redisOk: bool): (World, Run, set<string>)
  {
    match run.pc
    case Allocate =>
      var ip := Allocated(subnet, w.store.rows);
      if ok && ip.Some? then (w, run.(pc := Generate, ip := ip.value), {}) else (w, run.(pc := Failed), {})
    case Generate =>
      if ok then (w, run.(pc := if run.rotating.Some? then RemoveOld else AddNew, key := key), {}) else (w, run.(pc := Failed), {})
    case RemoveOld =>
      (w.(kernel := Removed(w.kernel, run.prior, ok)), run.(pc := AddNew), if ok then {} else {run.prior})
    case AddNew =>
      if ok && IsRealKey(run.key) then (w.(kernel := w.kernel.Allow(run.key, run.ip)), run.(pc := Save), {})
      else (w, run.(pc := if run.rotating.Some? then Restore else Failed), {})
    case Save =>
      var (store, stored) := Saved(w.store, run, Faults(true, true, ok, redisOk));
      (w.(store := store), run.(pc := if stored.Some? then Succeeded else Discard), {})
    case Discard =>
      (w.(kernel := Removed(w.kernel, run.key, ok)), run.(pc := if run.rotating.Some? then Restore else Failed),
       if ok then {} else {run.key})
    case Restore =>
      (w.(kernel := Added(w.kernel, run.prior, run.ip, ok)), run.(pc := Failed), {})
    case Succeeded => (w, run, {})
    case Failed => (w, run, {})
  }

  predicate Active(run: Run) {
    run.pc != Succeeded && run.pc != Failed
  }

  /** The run has generated its key. */
  predicate Keyed(run: Run) {
    run.pc in {RemoveOld, AddNew, Save, Discard, Restore}
  }

  // ------------------------------------------------------------ invariant

  ghost predicate RunHolds(w: World, run: Run, lost: set<string>) {
    && (Active(run) && run.rotating.Some? ==> RotationHolds(w, run, lost))
    && (Active(run) && run.rotating.None? ==> run.deviceId != "")
    && (Keyed(run) ==> IsRealKey(run.key) && run.ip != "" && forall i :: !HasKey(w.store.rows, i, run.key))
    && (run.pc == Generate ==> run.ip != "")
    && (run.pc in {RemoveOld, Restore} ==> run.rotating.Some?)
    && (run.pc == Succeeded ==> exists i :: HasDeviceId(w.store.rows, i, run.deviceId) && HasVpnIp(w.store.rows, i, run.ip))
  }

  /** The row under rotation is as it was read, and once its key was removed it is out of the kernel or lost. */
  ghost predicate RotationHolds(w: World, run: Run, lost: set<string>)
    requires run.rotating.Some?
  {
    var id := run.rotating.value;
    && HasDeviceId(w.store.rows, id, run.deviceId) && HasKey(w.store.rows, id, run.prior)
    && w.store.rows[id].vpnIp == run.hadIp
    && (if run.pc == Allocate then run.hadIp.None? else run.hadIp in {None, Some(run.ip)})
    && (run.pc in {AddNew, Save} && run.prior in w.kernel.peers ==> run.prior in lost)
  }

  ghost predicate PairHolds(a: Run, b: Run) {
    && (Active(a) && Active(b) && a.rotating.Some? ==> a.rotating != b.rotating)
    && (Keyed(a) && Keyed(b) ==> a.key != b.key)
  }

  ghost predicate DistinctKeys(rows: map<nat, Row>) {
    forall i, j :: i in rows && j in rows && i != j && IsRealKey(rows[i].vpnPublicKey) ==> rows[i].vpnPublicKey != rows[j].vpnPublicKey
  }

  /** Some unfinished run has put `key` into the kernel and not yet saved or removed it. */
  ghost predicate InFlight(runs: map<nat, Run>, key: string) {
    exists r :: r in runs && runs[r].pc in {Save, Discard} && runs[r].key == key
  }

  /** Every kernel key is foreign, lost, in flight, or a row's current key. */
  ghost predicate Accounted(s: System, foreign: set<string>) {
    forall k :: k in s.world.kernel.peers ==>
      k in foreign || k in s.lost || InFlight(s.runs, k) || exists i :: HasKey(s.world.store.rows, i, k)
  }

  ghost predicate Holds(s: System, foreign: set<string>) {
    && s.world.kernel.Valid() && s.world.store.Valid() && DistinctKeys(s.world.store.rows)
    && (forall r :: r in s.runs ==> RunHolds(s.world, s.runs[r], s.lost))
    && (forall r, q :: r in s.runs && q in s.runs && r != q ==> PairHolds(s.runs[r], s.runs[q]))
    && Accounted(s, foreign)
  }

  // ---------------------------------------------------------------- steps

  /** At most one rotation of a device at a time, every request names a device, and generated keys are new. */
  ghost predicate Allowed(s: System, a: Action) {
    match a
    case Begin(r, dto) =>
      && r !in s.runs && dto.deviceId != ""
      && forall q :: q in s.runs && Active(s.runs[q]) && s.runs[q].rotating.Some? ==>
        s.runs[q].rotating != ByDeviceId(s.world.store.rows, dto.deviceId)
    case Proceed(r, key, ok, _) =>
      && r in s.runs
      && (s.runs[r].pc == Generate && ok ==> Fresh(s.world, key) && forall q :: q in s.runs ==> s.runs[q].key != key)
  }

  ghost function Next(s: System, subnet: string, a: Action): System
    requires Allowed(s, a)
  {
    match a
    case Begin(r, dto) => s.(runs := s.runs[r := Started(s.world, dto)])
    case Proceed(r, key, ok, redisOk) =>
      if !Active(s.runs[r]) then s
      else
        var (w, run, left) := Advance(s.world, s.runs[r], subnet, key, ok, redisOk);
        System(w, s.runs[r := run], s.lost + left)
  }

  lemma StartedHolds(w: World, dto: Request, lost: set<string>)
    requires w.store.Valid() && dto.deviceId != ""
    ensures RunHolds(w, Started(w, dto), lost)
  {
  }

  lemma StartedPairs(s: System, r: nat, dto: Request, q: nat)
    requires Allowed(s, Begin(r, dto)) && q in s.runs
    ensures PairHolds(Started(s.world, dto), s.runs[q]) && PairHolds(s.runs[q], Started(s.world, dto))
  {
  }

  lemma BeginHolds(s: System, subnet: string, r: nat, dto: Request, foreign: set<string>)
    requires Holds(s, foreign) && Allowed(s, Begin(r, dto))
    ensures Holds(Next(s, subnet, Begin(r, dto)), foreign)
  {
    var t := Next(s, subnet, Begin(r, dto));
    StartedHolds(s.world, dto, s.lost);
    forall q, p | q in t.runs && p in t.runs && q != p
      ensures PairHolds(t.runs[q], t.runs[p])
    {
      if q == r {
        StartedPairs(s, r, dto, p);
      } else if p == r {
        StartedPairs(s, r, dto, q);
      }
    }
    forall k | k in t.world.kernel.peers
      ensures k in foreign || k in t.lost || InFlight(t.runs, k) || exists i :: HasKey(t.world.store.rows, i, k)
    {
      InFlightKept(s.runs, t.runs, r, k);
    }
  }

  lemma InFlightKept(before: map<nat, Run>, after: map<nat, Run>, r: nat, key: string)
    requires forall q :: q in before && q != r ==> q in after && after[q] == before[q]
    requires r in before && before[r].pc in {Save, Discard} && before[r].key == key ==> r in after && after[r].pc in {Save, Discard} && after[r].key == key
    ensures InFlight(before, key) ==> InFlight(after, key)
  {
    if InFlight(before, key) {
      var q :| q in before && before[q].pc in {Save, Discard} && before[q].key == key;
      assert q in after && after[q].pc in {Save, Discard} && after[q].key == key;
    }
  }

  /** A run holds on when only the kernel changed and its removed key did not come back. */
  lemma KernelFrame(w: World, v: World, run: Run, lost: set<string>, more: set<string>)
    requires RunHolds(w, run, lost) && v.store == w.store && lost <= more
    requires Active(run) && run.rotating.Some? && run.prior in v.kernel.peers ==> run.prior in w.kernel.peers + more
    ensures RunHolds(v, run, more)
  {
  }

  /** A kernel step of run `r`: it leaves the table alone, adds only its own keys, and loses none of its own silently. */
  ghost predicate KernelStep(s: System, r: nat, v: World, run: Run, more: set<string>) {
    && r in s.runs && Active(s.runs[r]) && run.rotating == s.runs[r].rotating
    && v.store == s.world.store && v.kernel.Valid() && s.lost <= more
    && RunHolds(v, run, more)
    && (Keyed(run) ==> forall q :: q in s.runs && q != r && Keyed(s.runs[q]) ==> s.runs[q].key != run.key)
    && (forall k :: k in v.kernel.peers && k !in s.world.kernel.peers ==>
         (exists i: nat :: HasKey(v.store.rows, i, k) && s.runs[r].rotating == Some(i)) || (run.pc == Save && run.key == k))
    && (forall k :: k in v.kernel.peers && s.runs[r].pc in {Save, Discard} && s.runs[r].key == k ==>
         k in more || (run.pc in {Save, Discard} && run.key == k))
  }

  lemma KernelStepFrame(s: System, r: nat, v: World, run: Run, more: set<string>, q: nat, foreign: set<string>)
    requires Holds(s, foreign) && KernelStep(s, r, v, run, more) && q in s.runs && q != r
    ensures RunHolds(v, s.runs[q], more)
  {
    var other := s.runs[q];
    assert PairHolds(other, s.runs[r]);
    forall k | k in v.kernel.peers && k !in s.world.kernel.peers && Active(other) && other.rotating.Some?
      ensures k != other.prior
    {
      var j := other.rotating.value;
      assert HasKey(v.store.rows, j, other.prior);
      assert forall i: nat :: i != j && HasKey(v.store.rows, i, k) ==> k != other.prior;
    }
    KernelFrame(s.world, v, other, s.lost, more);
  }

  lemma KernelStepPairs(s: System, r: nat, v: World, run: Run, more: set<string>, foreign: set<string>)
    requires Holds(s, foreign) && KernelStep(s, r, v, run, more)
    ensures forall q, p :: q in s.runs && p in s.runs && q != p ==> PairHolds(s.runs[r := run][q], s.runs[r := run][p])
  {
    forall q, p | q in s.runs && p in s.runs && q != p
      ensures PairHolds(s.runs[r := run][q], s.runs[r := run][p])
    {
      assert PairHolds(s.runs[q], s.runs[p]);
    }
  }

  lemma KernelStepAccounts(s: System, r: nat, v: World, run: Run, more: set<string>, foreign: set<string>)
    requires Holds(s, foreign) && KernelStep(s, r, v, run, more)
    ensures Accounted(System(v, s.runs[r := run], more), foreign)
  {
    var runs := s.runs[r := run];
    forall k | k in v.kernel.peers
      ensures k in foreign || k in more || InFlight(runs, k) || exists i :: HasKey(v.store.rows, i, k)
    {
      if k in s.world.kernel.peers {
        if s.runs[r].pc in {Save, Discard} && s.runs[r].key == k && k !in more {
          assert runs[r] == run;
        }
        if k !in more {
          InFlightKept(s.runs, runs, r, k);
        }
      } else if run.pc == Save && run.key == k {
        assert runs[r] == run;
      }
    }
  }

  /** Steps that leave the table alone: what remains to check is the stepping run and the new peers. */
  lemma KernelStepHolds(s: System, r: nat, v: World, run: Run, more: set<string>, foreign: set<string>)
    requires Holds(s, foreign) && KernelStep(s, r, v, run, more)
    ensures Holds(System(v, s.runs[r := run], more), foreign)
  {
    forall q | q in s.runs
      ensures RunHolds(v, s.runs[r := run][q], more)
    {
      if q != r {
        KernelStepFrame(s, r, v, run, more, q, foreign);
      }
    }
    KernelStepPairs(s, r, v, run, more, foreign);
    KernelStepAccounts(s, r, v, run, more, foreign);
  }

  /** The saved row: fresh key and the run's address, in place of the row it read or as a new one. */
  ghost predicate SavedAs(before: map<nat, Row>, after: map<nat, Row>, id: nat, run: Run) {
    && id in after && after == before[id := after[id]]
    && after[id].deviceId == run.deviceId && after[id].vpnIp == Some(run.ip)
    && after[id].vpnPublicKey == run.key && after[id].status == ACTIVE
    && (if run.rotating.Some? then run.rotating == Some(id) && id in before else id !in before)
  }

  lemma SaveWrites(w: World, run: Run, lost: set<string>, f: Faults) returns (id: nat)
    requires w.store.Valid() && RunHolds(w, run, lost) && run.pc == Save
    requires Saved(w.store, run, f).1.Some?
    ensures Saved(w.store, run, f).0.Valid()
    ensures SavedAs(w.store.rows, Saved(w.store, run, f).0.rows, id, run)
  {
    if run.rotating.None? {
      id := w.store.nextId;
      WrittenKeepsValid(w.store, id, Row(run.deviceId, run.model, Some(run.ip), run.key, ACTIVE), f);
    } else {
      id := run.rotating.value;
      WrittenKeepsValid(w.store, id, Merged(w.store.rows[id], Update(run.model, Some(Some(run.ip)), run.key, Some(ACTIVE))), f);
    }
  }

  /** A saved row disturbs no other run: it has another key, another id, and keeps any address it had. */
  lemma SaveFrame(w: World, v: World, id: nat, saved: Run, run: Run, lost: set<string>)
    requires w.store.Valid() && v.kernel == w.kernel && SavedAs(w.store.rows, v.store.rows, id, saved)
    requires RunHolds(w, saved, lost) && saved.pc == Save && RunHolds(w, run, lost)
    requires PairHolds(saved, run) && PairHolds(run, saved)
    ensures RunHolds(v, run, lost)
  {
    forall i: nat | Keyed(run)
      ensures !HasKey(v.store.rows, i, run.key)
    {
      assert !HasKey(w.store.rows, i, run.key);
    }
    if run.pc == Succeeded {
      var i :| HasDeviceId(w.store.rows, i, run.deviceId) && HasVpnIp(w.store.rows, i, run.ip);
      assert HasDeviceId(v.store.rows, i, run.deviceId) && HasVpnIp(v.store.rows, i, run.ip);
    } else if Active(run) && run.rotating.Some? {
      assert RotationHolds(w, run, lost);
      assert run.rotating.value != id;
      assert RotationHolds(v, run, lost);
    }
  }

  lemma PairsAfterEnd(runs: map<nat, Run>, r: nat, run: Run)
    requires r in runs && run == runs[r].(pc := Succeeded)
    requires forall q, p :: q in runs && p in runs && q != p ==> PairHolds(runs[q], runs[p])
    ensures forall q, p :: q in runs && p in runs && q != p ==> PairHolds(runs[r := run][q], runs[r := run][p])
  {
    forall q, p | q in runs && p in runs && q != p
      ensures PairHolds(runs[r := run][q], runs[r := run][p])
    {
      assert PairHolds(runs[q], runs[p]);
    }
  }

  lemma SaveKeepsDistinct(before: map<nat, Row>, after: map<nat, Row>, id: nat, run: Run)
    requires DistinctKeys(before) && SavedAs(before, after, id, run)
    requires forall i :: !HasKey(before, i, run.key)
    ensures DistinctKeys(after)
  {
    forall i, j | i in after && j in after && i != j && IsRealKey(after[i].vpnPublicKey)
      ensures after[i].vpnPublicKey != after[j].vpnPublicKey
    {
      assert i != id ==> !HasKey(before, i, run.key);
      assert j != id ==> !HasKey(before, j, run.key);
    }
  }

  lemma SaveKeepsRuns(s: System, r: nat, id: nat, v: World, foreign: set<string>)
    requires Holds(s, foreign) && r in s.runs && s.runs[r].pc == Save
    requires v.kernel == s.world.kernel && SavedAs(s.world.store.rows, v.store.rows, id, s.runs[r])
    ensures forall q :: q in s.runs ==> RunHolds(v, s.runs[r := s.runs[r].(pc := Succeeded)][q], s.lost)
  {
    var run := s.runs[r];
    assert HasDeviceId(v.store.rows, id, run.deviceId) && HasVpnIp(v.store.rows, id, run.ip);
    forall q | q in s.runs
      ensures RunHolds(v, s.runs[r := run.(pc := Succeeded)][q], s.lost)
    {
      if q != r {
        SaveFrame(s.world, v, id, run, s.runs[q], s.lost);
      }
    }
  }

  lemma SaveKeepsAccounts(s: System, t: System, r: nat, id: nat, foreign: set<string>)
    requires Holds(s, foreign) && r in s.runs && s.runs[r].pc == Save && t.world.kernel == s.world.kernel
    requires t.runs == s.runs[r := s.runs[r].(pc := Succeeded)] && t.lost == s.lost
    requires SavedAs(s.world.store.rows, t.world.store.rows, id, s.runs[r])
    ensures Accounted(t, foreign)
  {
    forall k | k in t.world.kernel.peers
      ensures k in foreign || k in t.lost || InFlight(t.runs, k) || exists i :: HasKey(t.world.store.rows, i, k)
    {
      SaveAccounts(s, t, r, id, k, foreign);
    }
  }

  lemma SaveHolds(s: System, r: nat, f: Faults, foreign: set<string>)
    requires Holds(s, foreign) && r in s.runs && s.runs[r].pc == Save
    requires Saved(s.world.store, s.runs[r], f).1.Some?
    ensures Holds(System(s.world.(store := Saved(s.world.store, s.runs[r], f).0), s.runs[r := s.runs[r].(pc := Succeeded)], s.lost), foreign)
  {
    var id := SaveWrites(s.world, s.runs[r], s.lost, f);
    var v := s.world.(store := Saved(s.world.store, s.runs[r], f).0);
    SavedHolds(s, r, id, v, foreign);
  }

  /** The invariant after a run has saved its row, however the write went about it. */
  lemma SavedHolds(s: System, r: nat, id: nat, v: World, foreign: set<string>)
    requires Holds(s, foreign) && r in s.runs && s.runs[r].pc == Save
    requires v.kernel == s.world.kernel && v.store.Valid() && SavedAs(s.world.store.rows, v.store.rows, id, s.runs[r])
    ensures Holds(System(v, s.runs[r := s.runs[r].(pc := Succeeded)], s.lost), foreign)
  {
    var t := System(v, s.runs[r := s.runs[r].(pc := Succeeded)], s.lost);
    SaveKeepsRuns(s, r, id, v, foreign);
    PairsAfterEnd(s.runs, r, s.runs[r].(pc := Succeeded));
    assert RunHolds(s.world, s.runs[r], s.lost);
    SaveKeepsDistinct(s.world.store.rows, v.store.rows, id, s.runs[r]);
    SaveKeepsAccounts(s, t, r, id, foreign);
  }

  /** A kernel key stays accounted for: the run's new key is now a row's, its old one had been removed or lost. */
  lemma SaveAccounts(s: System, t: System, r: nat, id: nat, k: string, foreign: set<string>)
    requires Holds(s, foreign) && r in s.runs && s.runs[r].pc == Save && k in s.world.kernel.peers
    requires t.runs == s.runs[r := s.runs[r].(pc := Succeeded)] && t.lost == s.lost
    requires SavedAs(s.world.store.rows, t.world.store.rows, id, s.runs[r])
    ensures k in foreign || k in t.lost || InFlight(t.runs, k) || exists i :: HasKey(t.world.store.rows, i, k)
  {
    assert RunHolds(s.world, s.runs[r], s.lost);
    if k == s.runs[r].key {
      assert HasKey(t.world.store.rows, id, k);
    } else if k !in foreign && k !in s.lost {
      if InFlight(s.runs, k) {
        InFlightKept(s.runs, t.runs, r, k);
      } else {
        var i :| HasKey(s.world.store.rows, i, k);
        assert s.runs[r].rotating.Some? ==> k != s.runs[r].prior;
        assert i != id;
        assert HasKey(t.world.store.rows, i, k);
      }
    }
  }

  // --------------------------------------------------- every step, every run

  lemma AllocateHolds(w: World, run: Run, subnet: string, key: string, ok: bool, redisOk: bool, lost: set<string>)
    requires w.store.Valid() && RunHolds(w, run, lost) && run.pc == Allocate && IsSubnetPrefix(subnet)
    ensures var (v, next, left) := Advance(w, run, subnet, key, ok, redisOk);
      v == w && left == {} && RunHolds(w, next, lost) && next.rotating == run.rotating && next.pc in {Generate, Failed}
  {
    if Allocated(subnet, w.store.rows).Some? {
      AllocatedIsFree(subnet, w.store.rows, Allocated(subnet, w.store.rows).value);
    }
  }

  lemma GenerateHolds(w: World, run: Run, subnet: string, key: string, ok: bool, redisOk: bool, lost: set<string>)
    requires RunHolds(w, run, lost) && run.pc == Generate && (ok ==> Fresh(w, key))
    ensures var (v, next, left) := Advance(w, run, subnet, key, ok, redisOk);
      v == w && left == {} && RunHolds(w, next, lost) && next.rotating == run.rotating
      && next.pc in {RemoveOld, AddNew, Failed} && (next.pc != Failed ==> next.key == key && ok)
  {
  }

  lemma QuietStepHolds(s: System, r: nat, subnet: string, key: string, ok: bool, redisOk: bool, foreign: set<string>)
    requires Holds(s, foreign) && IsSubnetPrefix(subnet) && Allowed(s, Proceed(r, key, ok, redisOk))
    requires s.runs[r].pc in {Allocate, Generate}
    ensures Holds(Next(s, subnet, Proceed(r, key, ok, redisOk)), foreign)
  {
    assert RunHolds(s.world, s.runs[r], s.lost);
    if s.runs[r].pc == Allocate {
      AllocateHolds(s.world, s.runs[r], subnet, key, ok, redisOk, s.lost);
    } else {
      GenerateHolds(s.world, s.runs[r], subnet, key, ok, redisOk, s.lost);
    }
    var run := Advance(s.world, s.runs[r], subnet, key, ok, redisOk).1;
    assert s.lost + {} == s.lost;
    KernelStepHolds(s, r, s.world, run, s.lost, foreign);
  }

  lemma RemoveStepHolds(s: System, r: nat, subnet: string, key: string, ok: bool, redisOk: bool, foreign: set<string>)
    requires Holds(s, foreign) && Allowed(s, Proceed(r, key, ok, redisOk))
    requires s.runs[r].pc in {RemoveOld, Discard}
    ensures Holds(Next(s, subnet, Proceed(r, key, ok, redisOk)), foreign)
  {
    var (w, run, left) := Advance(s.world, s.runs[r], subnet, key, ok, redisOk);
    assert RunHolds(s.world, s.runs[r], s.lost);
    if IsRealKey(s.runs[r].prior) {
      RealKeyIsRemovable(s.runs[r].prior);
    }
    if IsRealKey(s.runs[r].key) {
      RealKeyIsRemovable(s.runs[r].key);
    }
    forall q | q in s.runs && q != r && Keyed(s.runs[q])
      ensures s.runs[q].key != run.key
    {
      assert PairHolds(s.runs[q], s.runs[r]);
    }
    KernelStepHolds(s, r, w, run, s.lost + left, foreign);
  }

  lemma AddStepHolds(s: System, r: nat, subnet: string, key: string, ok: bool, redisOk: bool, foreign: set<string>)
    requires Holds(s, foreign) && Allowed(s, Proceed(r, key, ok, redisOk))
    requires s.runs[r].pc in {AddNew, Restore}
    ensures Holds(Next(s, subnet, Proceed(r, key, ok, redisOk)), foreign)
  {
    var (w, run, left) := Advance(s.world, s.runs[r], subnet, key, ok, redisOk);
    assert RunHolds(s.world, s.runs[r], s.lost);
    forall q | q in s.runs && q != r && Keyed(s.runs[q])
      ensures s.runs[q].key != s.runs[r].key
    {
      assert PairHolds(s.runs[q], s.runs[r]);
    }
    if s.runs[r].rotating.Some? {
      assert HasKey(s.world.store.rows, s.runs[r].rotating.value, s.runs[r].prior);
    }
    assert s.lost + left == s.lost;
    KernelStepHolds(s, r, w, run, s.lost, foreign);
  }

  lemma SaveStepHolds(s: System, r: nat, subnet: string, key: string, ok: bool, redisOk: bool, foreign: set<string>)
    requires Holds(s, foreign) && Allowed(s, Proceed(r, key, ok, redisOk)) && s.runs[r].pc == Save
    ensures Holds(Next(s, subnet, Proceed(r, key, ok, redisOk)), foreign)
  {
    var f := Faults(true, true, ok, redisOk);
    assert s.lost + {} == s.lost;
    if Saved(s.world.store, s.runs[r], f).1.Some? {
      SaveHolds(s, r, f, foreign);
    } else {
      assert RunHolds(s.world, s.runs[r], s.lost);
      forall q | q in s.runs && q != r && Keyed(s.runs[q])
        ensures s.runs[q].key != s.runs[r].key
      {
        assert PairHolds(s.runs[q], s.runs[r]);
      }
      KernelStepHolds(s, r, s.world, s.runs[r].(pc := Discard), s.lost, foreign);
    }
  }

  lemma NextHolds(s: System, subnet: string, a: Action, foreign: set<string>)
    requires Holds(s, foreign) && IsSubnetPrefix(subnet) && Allowed(s, a)
    ensures Holds(Next(s, subnet, a), foreign)
  {
    match a
    case Begin(r, dto) => BeginHolds(s, subnet, r, dto, foreign);
    case Proceed(r, key, ok, redisOk) =>
      match s.runs[r].pc {
        case Allocate => QuietStepHolds(s, r, subnet, key, ok, redisOk, foreign);
        case Generate => QuietStepHolds(s, r, subnet, key, ok, redisOk, foreign);
        case RemoveOld => RemoveStepHolds(s, r, subnet, key, ok, redisOk, foreign);
        case Discard => RemoveStepHolds(s, r, subnet, key, ok, redisOk, foreign);
        case AddNew => AddStepHolds(s, r, subnet, key, ok, redisOk, foreign);
        case Restore => AddStepHolds(s, r, subnet, key, ok, redisOk, foreign);
        case Save => SaveStepHolds(s, r, subnet, key, ok, redisOk, foreign);
        case Succeeded =>
        case Failed =>
      }
  }

  ghost predicate StepsTo(s: System, subnet: string, a: Action, t: System) {
    Allowed(s, a) && t == Next(s, subnet, a)
  }

  /** A run of the whole system: each action is allowed where it is taken. */
  ghost predicate IsTrace(subnet: string, states: seq<System>, actions: seq<Action>) {
    && |states| == |actions| + 1
    && forall n :: 0 <= n < |actions| ==> StepsTo(states[n], subnet, actions[n], states[n + 1])
  }

  lemma {:induction false} ReachableHolds(subnet: string, states: seq<System>, actions: seq<Action>, n: nat, foreign: set<string>)
    requires IsTrace(subnet, states, actions) && n < |states|
    requires Holds(states[0], foreign) && IsSubnetPrefix(subnet)
    ensures Holds(states[n], foreign)
  {
    if n > 0 {
      ReachableHolds(subnet, states, actions, n - 1, foreign);
      assert StepsTo(states[n - 1], subnet, actions[n - 1], states[n - 1 + 1]);
      NextHolds(states[n - 1], subnet, actions[n - 1], foreign);
    }
  }

  /** Successful responses for different devices name different addresses. */
  ghost predicate ResponsesDistinct(runs: map<nat, Run>) {
    forall r, q :: r in runs && q in runs && runs[r].pc == Succeeded && runs[q].pc == Succeeded && runs[r].ip == runs[q].ip ==>
      runs[r].deviceId == runs[q].deviceId
  }

  /**
   * Over every interleaving of any number of registrations with any failures: rows keep
   * distinct device ids and addresses, successful responses for different devices never
   * share an address, and every kernel key that was not set up by hand is a row's current
   * key, belongs to an unfinished run, or had a removal command fail.
   */
  lemma InterleavingTheorem(subnet: string, states: seq<System>, actions: seq<Action>, n: nat, foreign: set<string>)
    requires IsTrace(subnet, states, actions) && n < |states| && IsSubnetPrefix(subnet)
    requires states[0].runs == map[] && states[0].lost == {}
    requires var w := states[0].world; w.kernel.Valid() && w.store.Valid() && DistinctKeys(w.store.rows) && NoStrays(w, foreign)
    ensures states[n].world.store.Valid()
    ensures ResponsesDistinct(states[n].runs)
    ensures Accounted(states[n], foreign)
    ensures (forall r :: r in states[n].runs ==> !Active(states[n].runs[r])) && states[n].lost == {} ==> NoStrays(states[n].world, foreign)
  {
    ReachableHolds(subnet, states, actions, n, foreign);
    var t := states[n];
    forall r, q | r in t.runs && q in t.runs && t.runs[r].pc == Succeeded && t.runs[q].pc == Succeeded && t.runs[r].ip == t.runs[q].ip
      ensures t.runs[r].deviceId == t.runs[q].deviceId
    {
      assert RunHolds(t.world, t.runs[r], t.lost) && RunHolds(t.world, t.runs[q], t.lost);
      var i :| HasDeviceId(t.world.store.rows, i, t.runs[r].deviceId) && HasVpnIp(t.world.store.rows, i, t.runs[r].ip);
      var j :| HasDeviceId(t.world.store.rows, j, t.runs[q].deviceId) && HasVpnIp(t.world.store.rows, j, t.runs[q].ip);
      assert i != j ==> !Clash(t.world.store.rows[i], t.world.store.rows[j]);
    }
  }

  // ------------------------------------------------- one run on its own

  /** A run that nobody interrupts, with the failures of a sequential call. */
  ghost function Alone(w: World, run: Run, subnet: string, key: string, f: CallFaults): (World, Run)
    decreases Remaining(run.pc)
  {
    if !Active(run) then (w, run)
    else
      var (v, next, _) := Advance(w, run, subnet, key, StepOk(run.pc, f), f.db.redisOk);
      if Remaining(next.pc) < Remaining(run.pc) then Alone(v, next, subnet, key, f) else (v, next)
  }

  function Remaining(pc: Pc): nat {
    match pc
    case Allocate => 8 case Generate => 7 case RemoveOld => 6 case AddNew => 5 case Save => 4
    case Discard => 3 case Restore => 2 case Succeeded => 0 case Failed => 0
  }

  function StepOk(pc: Pc, f: CallFaults): bool {
    match pc
    case Allocate => f.allocateOk case Generate => f.keygenOk case RemoveOld => f.removeOldOk case AddNew => f.addNewOk
    case Save => f.db.writeOk case Discard => f.removeNewOk case Restore => f.restoreOk
    case Succeeded => true case Failed => true
  }

  lemma AloneStep(w: World, run: Run, subnet: string, key: string, f: CallFaults)
    requires Active(run) && (run.pc == Restore ==> run.rotating.Some?)
    ensures var (v, next, _) := Advance(w, run, subnet, key, StepOk(run.pc, f), f.db.redisOk);
      Alone(w, run, subnet, key, f) == Alone(v, next, subnet, key, f)
  {
  }

  lemma AloneFromRestore(w: World, run: Run, subnet: string, key: string, f: CallFaults)
    requires run.pc == Restore && run.rotating.Some?
    ensures Alone(w, run, subnet, key, f) == (World(Added(w.kernel, run.prior, run.ip, f.restoreOk), w.store), run.(pc := Failed))
  {
    AloneStep(w, run, subnet, key, f);
  }

  lemma AloneFromDiscard(w: World, run: Run, subnet: string, key: string, f: CallFaults)
    requires run.pc == Discard
    ensures var removed := Removed(w.kernel, run.key, f.removeNewOk);
      Alone(w, run, subnet, key, f) ==
        (World(if run.rotating.Some? then Added(removed, run.prior, run.ip, f.restoreOk) else removed, w.store), run.(pc := Failed))
  {
    AloneStep(w, run, subnet, key, f);
    if run.rotating.Some? {
      AloneFromRestore(w.(kernel := Removed(w.kernel, run.key, f.removeNewOk)), run.(pc := Restore), subnet, key, f);
    }
  }

  lemma AloneFromSave(w: World, run: Run, subnet: string, key: string, f: CallFaults)
    requires run.pc == Save
    ensures var (store, stored) := Saved(w.store, run, Faults(true, true, f.db.writeOk, f.db.redisOk));
      var removed := Removed(w.kernel, run.key, f.removeNewOk);
      Alone(w, run, subnet, key, f) ==
        if stored.Some? then (World(w.kernel, store), run.(pc := Succeeded))
        else (World(if run.rotating.Some? then Added(removed, run.prior, run.ip, f.restoreOk) else removed, store), run.(pc := Failed))
  {
    AloneStep(w, run, subnet, key, f);
    var (store, stored) := Saved(w.store, run, Faults(true, true, f.db.writeOk, f.db.redisOk));
    if stored.None? {
      AloneFromDiscard(w.(store := store), run.(pc := Discard), subnet, key, f);
    }
  }

  lemma AloneFromAdd(w: World, run: Run, subnet: string, key: string, f: CallFaults)
    requires run.pc == AddNew
    ensures Alone(w, run, subnet, key, f) ==
      if f.addNewOk && IsRealKey(run.key) then Alone(w.(kernel := w.kernel.Allow(run.key, run.ip)), run.(pc := Save), subnet, key, f)
      else (if run.rotating.Some? then w.(kernel := Added(w.kernel, run.prior, run.ip, f.restoreOk)) else w, run.(pc := Failed))
  {
    AloneStep(w, run, subnet, key, f);
    var (v, next, _) := Advance(w, run, subnet, key, f.addNewOk, f.db.redisOk);
    if next.pc == Restore {
      AloneStep(v, next, subnet, key, f);
    }
  }

  /** From key generation on. */
  lemma AloneFromGenerate(w: World, run: Run, subnet: string, key: string, f: CallFaults)
    requires run.pc == Generate
    ensures Alone(w, run, subnet, key, f) ==
      if !f.keygenOk then (w, run.(pc := Failed))
      else if run.rotating.Some? then
        Alone(w.(kernel := Removed(w.kernel, run.prior, f.removeOldOk)), run.(pc := AddNew, key := key), subnet, key, f)
      else Alone(w, run.(pc := AddNew, key := key), subnet, key, f)
  {
    AloneStep(w, run, subnet, key, f);
    var (v, next, _) := Advance(w, run, subnet, key, f.keygenOk, f.db.redisOk);
    if next.pc == RemoveOld {
      AloneStep(v, next, subnet, key, f);
    }
  }

  lemma AloneNew(w: World, c: Settings, dto: Request, key: string, f: CallFaults)
    requires f.db.readOk && f.db.deleteOk && ByDeviceId(w.store.rows, dto.deviceId).None?
    ensures var (v, run) := Alone(w, Started(w, dto), c.subnet, key, f);
      var (after, outcome) := NewProvisioning(w, c, dto, key, f);
      v == after && (if run.pc == Succeeded then outcome == Success(run.deviceId, run.ip, run.key) else outcome.Thrown?)
  {
    var run := Started(w, dto);
    var ip := Allocated(c.subnet, w.store.rows);
    AloneStep(w, run, c.subnet, key, f);
    if f.allocateOk && ip.Some? {
      AloneFromGenerate(w, run.(pc := Generate, ip := ip.value), c.subnet, key, f);
      if f.keygenOk {
        var keyed := run.(pc := AddNew, ip := ip.value, key := key);
        AloneFromAdd(w, keyed, c.subnet, key, f);
        AloneFromSave(w.(kernel := w.kernel.Allow(key, ip.value)), keyed.(pc := Save), c.subnet, key, f);
      }
    }
  }

  /** From the removal of the old key on. */
  lemma AloneRotated(w: World, c: Settings, id: nat, dto: Request, ip: string, key: string, f: CallFaults, run: Run)
    requires f.db.readOk && f.db.deleteOk && id in w.store.rows
    requires run.pc == AddNew && run.rotating == Some(id) && run.deviceId == dto.deviceId && run.model == dto.hardwareModel
    requires run.prior == w.store.rows[id].vpnPublicKey && run.ip == ip && run.key == key
    ensures var (v, last) := Alone(w.(kernel := Removed(w.kernel, run.prior, f.removeOldOk)), run, c.subnet, key, f);
      var (after, outcome) := Rotated(w, id, dto, ip, key, f);
      v == after && (if last.pc == Succeeded then outcome == Success(last.deviceId, last.ip, last.key) else outcome.Thrown?)
  {
    var cleared := w.(kernel := Removed(w.kernel, run.prior, f.removeOldOk));
    AloneFromAdd(cleared, run, c.subnet, key, f);
    AloneFromSave(cleared.(kernel := cleared.kernel.Allow(key, ip)), run.(pc := Save), c.subnet, key, f);
  }

  lemma AloneRotation(w: World, c: Settings, id: nat, dto: Request, key: string, f: CallFaults)
    requires f.db.readOk && f.db.deleteOk && ByDeviceId(w.store.rows, dto.deviceId) == Some(id)
    requires w.store.rows[id].status != REVOKED
    ensures var (v, run) := Alone(w, Started(w, dto), c.subnet, key, f);
      var (after, outcome) := Rotation(w, c, id, dto, key, f);
      v == after && (if run.pc == Succeeded then outcome == Success(run.deviceId, run.ip, run.key) else outcome.Thrown?)
  {
    var run := Started(w, dto);
    var ip := RotationIp(w, c, w.store.rows[id]);
    if run.pc == Allocate {
      AloneStep(w, run, c.subnet, key, f);
    }
    if (w.store.rows[id].vpnIp.Some? || f.allocateOk) && ip.Some? {
      AloneFromGenerate(w, run.(pc := Generate, ip := ip.value), c.subnet, key, f);
      if f.keygenOk {
        AloneRotated(w, c, id, dto, ip.value, key, f, run.(pc := AddNew, ip := ip.value, key := key));
      }
    }
  }

  /** Without interleaving, the steps of a run are exactly the sequential registration. */
  lemma AloneIsRegistration(w: World, c: Settings, dto: Request, key: string, f: CallFaults)
    requires c.token == Some(dto.provisionToken) && dto.provisionToken != "" && f.findOk && f.db.readOk && f.db.deleteOk
    ensures var (v, run) := Alone(w, Started(w, dto), c.subnet, key, f);
      var (after, outcome) := Registration(w, c, dto, key, f);
      v == after && (if run.pc == Succeeded then outcome == Success(run.deviceId, run.ip, run.key) else outcome.Thrown?)
  {
    var found := ByDeviceId(w.store.rows, dto.deviceId);
    if found.None? {
      AloneNew(w, c, dto, key, f);
    } else if w.store.rows[found.value].status != REVOKED {
      AloneRotation(w, c, found.value, dto, key, f);
    }
  }
}
