/**
 * Kernel ownership under concurrent registrations survives while no two unfinished
 * runs hold the same address.
 */
module Ownership {
  import opened Wrappers
  import opened Addresses
  import opened WireGuard
  import opened Devices
  import opened Identity
  import opened IpPool
  import opened Provisioning
  import opened Saga
  import opened Interleaving

  /** The run holds an address and is not finished. */
  predicate Placed(run: Run) {
    Interleaving.Active(run) && run.pc != Allocate
  }

  /** No two unfinished runs hold the same address. */
  ghost predicate Exclusive(runs: map<nat, Run>) {
    forall r, q :: r in runs && q in runs && r != q && Placed(runs[r]) && Placed(runs[q]) ==> runs[r].ip != runs[q].ip
  }

  /** A rotation of row `i` has taken its old key out and not yet put a key back. */
  ghost predicate UnderRotation(runs: map<nat, Run>, i: nat) {
    exists r :: r in runs && runs[r].pc in {AddNew, Save, Discard, Restore} && runs[r].rotating == Some(i)
  }

  /** A row in use, with an address and a real key. */
  predicate NeedsAddress(row: Row) {
    row.status != REVOKED && row.vpnIp.Some? && IsRealKey(row.vpnPublicKey)
  }

  ghost predicate RowOwns(w: World, i: nat) {
    i in w.store.rows && NeedsAddress(w.store.rows[i]) ==> Owns(w.kernel, w.store.rows[i].vpnIp.value, w.store.rows[i].vpnPublicKey)
  }

  /** A run's address is no row's but that of the row it rotates, and is its key's own while it saves. */
  ghost predicate Holding(w: World, run: Run) {
    && (Placed(run) ==> forall i: nat :: HasVpnIp(w.store.rows, i, run.ip) && w.store.rows[i].status != REVOKED ==> run.rotating == Some(i))
    && (run.pc == Save ==> Owns(w.kernel, run.ip, run.key))
  }

  ghost predicate Owning(s: System) {
    && (forall r :: r in s.runs ==> Holding(s.world, s.runs[r]))
    && (forall i: nat :: RowOwns(s.world, i) || UnderRotation(s.runs, i))
  }

  /** The command that puts a rotation's old key back takes effect. */
  ghost predicate RestoreWorks(s: System, a: Action) {
    a.Proceed? && a.r in s.runs && s.runs[a.r].pc == Restore ==> a.ok
  }

  // --------------------------------------------------------- kernel steps

  /** What a step of `run` cannot take away. */
  ghost predicate Untouched(before: Kernel, after: Kernel, run: Run) {
    forall a, o :: Owns(before, a, o) && a != run.ip && (Keyed(run) ==> o != run.key) && (run.rotating.Some? ==> o != run.prior) ==>
      Owns(after, a, o)
  }

  lemma AdvanceTouches(w: World, run: Run, subnet: string, key: string, ok: bool, redisOk: bool)
    requires run.pc in {RemoveOld, AddNew, Discard, Restore}
    requires run.pc in {RemoveOld, Restore} ==> run.rotating.Some?
    ensures Untouched(w.kernel, Advance(w, run, subnet, key, ok, redisOk).0.kernel, run)
    ensures Advance(w, run, subnet, key, ok, redisOk).0.store == w.store
  {
  }

  lemma UnderRotationKept(before: map<nat, Run>, after: map<nat, Run>, r: nat, i: nat)
    requires forall q :: q in before && q != r ==> q in after && after[q] == before[q]
    requires r in before && before[r].rotating == Some(i) ==> before[r].pc !in {AddNew, Save, Discard, Restore}
    ensures UnderRotation(before, i) ==> UnderRotation(after, i)
  {
    if UnderRotation(before, i) {
      var q :| q in before && before[q].pc in {AddNew, Save, Discard, Restore} && before[q].rotating == Some(i);
      assert q in after && after[q].pc in {AddNew, Save, Discard, Restore} && after[q].rotating == Some(i);
    }
  }

  /** Rows that the stepping run does not rotate keep their address. */
  lemma OtherRowOwns(s: System, r: nat, v: World, i: nat)
    requires r in s.runs && Placed(s.runs[r]) && Keyed(s.runs[r])
    requires v.store == s.world.store && Untouched(s.world.kernel, v.kernel, s.runs[r])
    requires RunHolds(s.world, s.runs[r], s.lost) && DistinctKeys(s.world.store.rows) && Holding(s.world, s.runs[r])
    requires s.runs[r].rotating != Some(i) && RowOwns(s.world, i)
    ensures RowOwns(v, i)
  {
    var run := s.runs[r];
    if i in v.store.rows && NeedsAddress(v.store.rows[i]) {
      var row := v.store.rows[i];
      assert !HasKey(v.store.rows, i, run.key);
      assert HasVpnIp(v.store.rows, i, row.vpnIp.value);
      if run.rotating.Some? {
        assert HasKey(v.store.rows, run.rotating.value, run.prior);
      }
    }
  }

  /** Another saving run keeps its address. */
  lemma OtherRunHolds(s: System, r: nat, v: World, q: nat, foreign: set<string>)
    requires Holds(s, foreign) && Exclusive(s.runs) && r in s.runs && q in s.runs && q != r && Placed(s.runs[r])
    requires v.store == s.world.store && Untouched(s.world.kernel, v.kernel, s.runs[r])
    requires Holding(s.world, s.runs[q])
    ensures Holding(v, s.runs[q])
  {
    assert PairHolds(s.runs[q], s.runs[r]);
    assert RunHolds(s.world, s.runs[q], s.lost) && RunHolds(s.world, s.runs[r], s.lost);
    if s.runs[q].pc == Save && s.runs[r].rotating.Some? {
      assert HasKey(s.world.store.rows, s.runs[r].rotating.value, s.runs[r].prior);
      assert !HasKey(s.world.store.rows, s.runs[r].rotating.value, s.runs[q].key);
    }
  }

  /** A step that leaves the table alone: what remains to check is the stepping run and the row it rotates. */
  lemma KernelStepOwns(s: System, r: nat, v: World, run: Run, more: set<string>, foreign: set<string>)
    requires Holds(s, foreign) && Owning(s) && Exclusive(s.runs) && r in s.runs && Placed(s.runs[r]) && Keyed(s.runs[r])
    requires v.store == s.world.store && Untouched(s.world.kernel, v.kernel, s.runs[r])
    requires Holding(v, run)
    requires s.runs[r].rotating.Some? ==>
      run.rotating == s.runs[r].rotating && (run.pc in {AddNew, Save, Discard, Restore} || RowOwns(v, run.rotating.value))
    ensures Owning(System(v, s.runs[r := run], more))
  {
    var t := System(v, s.runs[r := run], more);
    forall q | q in t.runs
      ensures Holding(v, t.runs[q])
    {
      if q != r {
        OtherRunHolds(s, r, v, q, foreign);
      }
    }
    forall i: nat
      ensures RowOwns(v, i) || UnderRotation(t.runs, i)
    {
      RowStepOwns(s, r, v, run, i);
    }
  }

  lemma RowStepOwns(s: System, r: nat, v: World, run: Run, i: nat)
    requires Owning(s) && r in s.runs && Placed(s.runs[r]) && Keyed(s.runs[r])
    requires RunHolds(s.world, s.runs[r], s.lost) && DistinctKeys(s.world.store.rows)
    requires v.store == s.world.store && Untouched(s.world.kernel, v.kernel, s.runs[r])
    requires s.runs[r].rotating.Some? ==>
      run.rotating == s.runs[r].rotating && (run.pc in {AddNew, Save, Discard, Restore} || RowOwns(v, run.rotating.value))
    ensures RowOwns(v, i) || UnderRotation(s.runs[r := run], i)
  {
    if s.runs[r].rotating == Some(i) {
      assert s.runs[r := run][r] == run;
    } else if UnderRotation(s.runs, i) {
      UnderRotationKept(s.runs, s.runs[r := run], r, i);
    } else {
      OtherRowOwns(s, r, v, i);
    }
  }

  lemma KernelRunOwns(s: System, r: nat, subnet: string, key: string, ok: bool, redisOk: bool, foreign: set<string>)
    requires Holds(s, foreign) && Owning(s) && Exclusive(s.runs) && Allowed(s, Proceed(r, key, ok, redisOk))
    requires RestoreWorks(s, Proceed(r, key, ok, redisOk))
    requires s.runs[r].pc in {RemoveOld, AddNew, Discard, Restore}
    ensures Owning(Next(s, subnet, Proceed(r, key, ok, redisOk)))
  {
    var (v, run, left) := Advance(s.world, s.runs[r], subnet, key, ok, redisOk);
    assert RunHolds(s.world, s.runs[r], s.lost) && Holding(s.world, s.runs[r]);
    AdvanceTouches(s.world, s.runs[r], subnet, key, ok, redisOk);
    if s.runs[r].pc == Restore {
      RestoredRowOwns(s.world, s.runs[r], v, s.lost);
    }
    KernelStepOwns(s, r, v, run, s.lost + left, foreign);
  }

  lemma RestoredRowOwns(w: World, run: Run, v: World, lost: set<string>)
    requires RunHolds(w, run, lost) && run.pc == Restore && run.rotating.Some?
    requires v == w.(kernel := Added(w.kernel, run.prior, run.ip, true))
    ensures RowOwns(v, run.rotating.value)
  {
    assert RotationHolds(w, run, lost);
  }

  // ---------------------------------------------------------- other steps

  lemma QuietHolding(w: World, run: Run, subnet: string, key: string, ok: bool, redisOk: bool)
    requires IsSubnetPrefix(subnet) && Holding(w, run) && run.pc in {Allocate, Generate}
    ensures Holding(w, Advance(w, run, subnet, key, ok, redisOk).1)
    ensures Advance(w, run, subnet, key, ok, redisOk).0 == w && Advance(w, run, subnet, key, ok, redisOk).2 == {}
  {
    if run.pc == Allocate && Allocated(subnet, w.store.rows).Some? {
      AllocatedIsFree(subnet, w.store.rows, Allocated(subnet, w.store.rows).value);
    }
  }

  lemma QuietStepOwns(s: System, r: nat, subnet: string, key: string, ok: bool, redisOk: bool, foreign: set<string>)
    requires Holds(s, foreign) && Owning(s) && IsSubnetPrefix(subnet) && Allowed(s, Proceed(r, key, ok, redisOk))
    requires s.runs[r].pc in {Allocate, Generate}
    ensures Owning(Next(s, subnet, Proceed(r, key, ok, redisOk)))
  {
    QuietHolding(s.world, s.runs[r], subnet, key, ok, redisOk);
    var run := Advance(s.world, s.runs[r], subnet, key, ok, redisOk).1;
    SameWorldOwns(s, r, run, s.lost + {});
  }

  lemma SameWorldOwns(s: System, r: nat, run: Run, lost: set<string>)
    requires Owning(s) && r in s.runs && Holding(s.world, run) && s.runs[r].pc in {Allocate, Generate}
    ensures Owning(System(s.world, s.runs[r := run], lost))
  {
    forall i: nat | UnderRotation(s.runs, i)
      ensures UnderRotation(s.runs[r := run], i)
    {
      UnderRotationKept(s.runs, s.runs[r := run], r, i);
    }
  }

  lemma StartedHolding(w: World, dto: Request)
    requires w.store.Valid()
    ensures Holding(w, Started(w, dto))
  {
    var run := Started(w, dto);
    if Placed(run) {
      forall i: nat | HasVpnIp(w.store.rows, i, run.ip)
        ensures run.rotating == Some(i)
      {
        assert Clash(w.store.rows[i], w.store.rows[run.rotating.value]);
      }
    }
  }

  lemma BeginOwns(s: System, subnet: string, r: nat, dto: Request, foreign: set<string>)
    requires Holds(s, foreign) && Owning(s) && Allowed(s, Begin(r, dto))
    ensures Owning(Next(s, subnet, Begin(r, dto)))
  {
    var t := Next(s, subnet, Begin(r, dto));
    StartedHolding(s.world, dto);
    forall i: nat | UnderRotation(s.runs, i)
      ensures UnderRotation(t.runs, i)
    {
      UnderRotationKept(s.runs, t.runs, r, i);
    }
  }

  lemma SaveOwns(s: System, r: nat, f: Faults, foreign: set<string>)
    requires Holds(s, foreign) && Owning(s) && Exclusive(s.runs) && r in s.runs && s.runs[r].pc == Save
    requires Saved(s.world.store, s.runs[r], f).1.Some?
    ensures Owning(System(s.world.(store := Saved(s.world.store, s.runs[r], f).0), s.runs[r := s.runs[r].(pc := Succeeded)], s.lost))
  {
    var run := s.runs[r];
    assert RunHolds(s.world, run, s.lost) && Holding(s.world, run);
    var id := SaveWrites(s.world, run, s.lost, f);
    var v := s.world.(store := Saved(s.world.store, run, f).0);
    var t := System(v, s.runs[r := run.(pc := Succeeded)], s.lost);
    forall q | q in t.runs
      ensures Holding(v, t.runs[q])
    {
      if q != r {
        SavedRunHolds(s.world, v, id, run, s.runs[q]);
      }
    }
    forall i: nat
      ensures RowOwns(v, i) || UnderRotation(t.runs, i)
    {
      if i != id {
        assert RowOwns(s.world, i) || UnderRotation(s.runs, i);
        assert run.rotating != Some(i);
        UnderRotationKept(s.runs, t.runs, r, i);
      }
    }
  }

  lemma SavedRunHolds(w: World, v: World, id: nat, saved: Run, run: Run)
    requires v.kernel == w.kernel && SavedAs(w.store.rows, v.store.rows, id, saved)
    requires Holding(w, run) && (Placed(run) ==> run.ip != saved.ip)
    ensures Holding(v, run)
  {
    forall i: nat | Placed(run) && HasVpnIp(v.store.rows, i, run.ip) && v.store.rows[i].status != REVOKED
      ensures run.rotating == Some(i)
    {
      assert i != id && HasVpnIp(w.store.rows, i, run.ip);
    }
  }

  lemma SaveStepOwns(s: System, r: nat, subnet: string, key: string, ok: bool, redisOk: bool, foreign: set<string>)
    requires Holds(s, foreign) && Owning(s) && Exclusive(s.runs) && Allowed(s, Proceed(r, key, ok, redisOk)) && s.runs[r].pc == Save
    ensures Owning(Next(s, subnet, Proceed(r, key, ok, redisOk)))
  {
    var f := Faults(true, true, ok, redisOk);
    assert s.lost + {} == s.lost;
    if Saved(s.world.store, s.runs[r], f).1.Some? {
      SaveOwns(s, r, f, foreign);
    } else {
      assert RunHolds(s.world, s.runs[r], s.lost) && Holding(s.world, s.runs[r]);
      KernelStepOwns(s, r, s.world, s.runs[r].(pc := Discard), s.lost, foreign);
    }
  }

  lemma NextOwns(s: System, subnet: string, a: Action, foreign: set<string>)
    requires Holds(s, foreign) && Owning(s) && Exclusive(s.runs) && IsSubnetPrefix(subnet)
    requires Allowed(s, a) && RestoreWorks(s, a)
    ensures Owning(Next(s, subnet, a))
  {
    match a
    case Begin(r, dto) => BeginOwns(s, subnet, r, dto, foreign);
    case Proceed(r, key, ok, redisOk) =>
      if s.runs[r].pc in {Allocate, Generate} {
        QuietStepOwns(s, r, subnet, key, ok, redisOk, foreign);
      } else if s.runs[r].pc == Save {
        SaveStepOwns(s, r, subnet, key, ok, redisOk, foreign);
      } else if Interleaving.Active(s.runs[r]) {
        KernelRunOwns(s, r, subnet, key, ok, redisOk, foreign);
      }
  }

  /** In every state the runs hold different addresses, and restoring commands take effect. */
  ghost predicate IsExclusiveTrace(states: seq<System>, actions: seq<Action>) {
    && |states| == |actions| + 1
    && forall n :: 0 <= n < |actions| ==> Exclusive(states[n].runs) && RestoreWorks(states[n], actions[n])
  }

  lemma {:induction false} ReachableOwns(subnet: string, states: seq<System>, actions: seq<Action>, n: nat, foreign: set<string>)
    requires IsTrace(subnet, states, actions) && IsExclusiveTrace(states, actions) && n < |states|
    requires Holds(states[0], foreign) && Owning(states[0]) && IsSubnetPrefix(subnet)
    ensures Owning(states[n])
  {
    if n > 0 {
      ReachableOwns(subnet, states, actions, n - 1, foreign);
      ReachableHolds(subnet, states, actions, n - 1, foreign);
      assert StepsTo(states[n - 1], subnet, actions[n - 1], states[n - 1 + 1]);
      NextOwns(states[n - 1], subnet, actions[n - 1], foreign);
    }
  }

  /**
   * Over every interleaving in which unfinished runs hold different addresses and restoring
   * commands take effect, each row in use owns its address in the kernel except while it is
   * being rotated; so when all runs are finished every one does.
   */
  lemma OwnershipTheorem(subnet: string, states: seq<System>, actions: seq<Action>, n: nat, foreign: set<string>)
    requires IsTrace(subnet, states, actions) && IsExclusiveTrace(states, actions) && n < |states| && IsSubnetPrefix(subnet)
    requires states[0].runs == map[] && states[0].lost == {}
    requires var w := states[0].world; w.kernel.Valid() && w.store.Valid() && DistinctKeys(w.store.rows) && NoStrays(w, foreign)
    requires forall i: nat :: RowOwns(states[0].world, i)
    ensures forall i: nat :: RowOwns(states[n].world, i) || UnderRotation(states[n].runs, i)
    ensures (forall r :: r in states[n].runs ==> !Interleaving.Active(states[n].runs[r])) ==> forall i: nat :: RowOwns(states[n].world, i)
  {
    ReachableOwns(subnet, states, actions, n, foreign);
  }
}
