/**
 * What concurrent registrations lose, without a single failed command: two runs that hold one
 * address leave a saved row without it, and two rotations of one device leave a stray key.
 */
module Races {
  import opened Wrappers
  import opened Addresses
  import opened WireGuard
  import opened Devices
  import opened Identity
  import opened IpPool
  import opened Provisioning
  import opened Saga
  import opened Interleaving
  import opened Ownership

  // -------------------------------------------------------------- schedules

  /** The actions, taken one after the other, lead from `s` to `t`. */
  ghost predicate Leads(s: System, subnet: string, actions: seq<Action>, t: System)
    decreases |actions|
  {
    if actions == [] then s == t
    else Allowed(s, actions[0]) && Leads(Next(s, subnet, actions[0]), subnet, actions[1..], t)
  }

  /** No command fails. */
  predicate Smooth(actions: seq<Action>) {
    forall a :: a in actions && a.Proceed? ==> a.ok && a.redisOk
  }

  lemma LeadsOne(s: System, subnet: string, a: Action, t: System)
    requires StepsTo(s, subnet, a, t)
    ensures Leads(s, subnet, [a], t)
  {
    assert [a][1..] == [];
  }

  lemma {:induction false} LeadsAppend(s: System, subnet: string, first: seq<Action>, m: System, second: seq<Action>, t: System)
    requires Leads(s, subnet, first, m) && Leads(m, subnet, second, t)
    ensures Leads(s, subnet, first + second, t)
    decreases |first|
  {
    if first == [] {
      assert first + second == second;
    } else {
      LeadsAppend(Next(s, subnet, first[0]), subnet, first[1..], m, second, t);
      assert (first + second)[1..] == first[1..] + second;
    }
  }

  lemma LeadsThen(s: System, subnet: string, actions: seq<Action>, m: System, a: Action, t: System)
    requires Leads(s, subnet, actions, m) && StepsTo(m, subnet, a, t)
    ensures Leads(s, subnet, actions + [a], t)
  {
    LeadsOne(m, subnet, a, t);
    LeadsAppend(s, subnet, actions, m, [a], t);
  }

  /** Such a schedule is a trace of the interleaving model. */
  lemma {:induction false} LeadsIsTrace(s: System, subnet: string, actions: seq<Action>, t: System) returns (states: seq<System>)
    requires Leads(s, subnet, actions, t)
    ensures IsTrace(subnet, states, actions) && states[0] == s && states[|actions|] == t
    decreases |actions|
  {
    if actions == [] {
      states := [s];
    } else {
      var rest := LeadsIsTrace(Next(s, subnet, actions[0]), subnet, actions[1..], t);
      states := [s] + rest;
      forall n | 0 <= n < |actions|
        ensures StepsTo(states[n], subnet, actions[n], states[n + 1])
      {
        if n > 0 {
          assert StepsTo(rest[n - 1], subnet, actions[1..][n - 1], rest[n - 1 + 1]);
        }
      }
    }
  }

  /** Some schedule without a failed command leads from `s` to `t`. */
  ghost predicate Reaches(s: System, subnet: string, t: System) {
    exists actions :: Smooth(actions) && Leads(s, subnet, actions, t)
  }

  lemma ReachesItself(s: System, subnet: string)
    ensures Reaches(s, subnet, s)
  {
    assert Smooth([]) && Leads(s, subnet, [], s);
  }

  /** One more action. */
  lemma ReachesNext(s: System, subnet: string, m: System, a: Action, t: System)
    requires Reaches(s, subnet, m) && StepsTo(m, subnet, a, t) && (a.Proceed? ==> a.ok && a.redisOk)
    ensures Reaches(s, subnet, t)
  {
    var actions :| Smooth(actions) && Leads(s, subnet, actions, m);
    LeadsThen(s, subnet, actions, m, a, t);
    assert Smooth(actions + [a]);
  }

  lemma ReachesIsTrace(s: System, subnet: string, t: System) returns (states: seq<System>, actions: seq<Action>)
    requires Reaches(s, subnet, t)
    ensures IsTrace(subnet, states, actions) && states[0] == s && states[|actions|] == t && Smooth(actions)
  {
    actions :| Smooth(actions) && Leads(s, subnet, actions, t);
    states := LeadsIsTrace(s, subnet, actions, t);
  }

  // ------------------------------------------------------------ single steps

  function Served(r: nat): Action {
    Proceed(r, "", true, true)
  }

  ghost predicate NewKey(s: System, key: string) {
    Fresh(s.world, key) && forall q :: q in s.runs ==> s.runs[q].key != key
  }

  lemma Generates(s: System, subnet: string, r: nat, key: string) returns (t: System)
    requires r in s.runs && s.runs[r].pc == Generate && NewKey(s, key)
    ensures StepsTo(s, subnet, Proceed(r, key, true, true), t) && t.world == s.world && t.lost == s.lost
    ensures t.runs == s.runs[r := s.runs[r].(pc := if s.runs[r].rotating.Some? then RemoveOld else AddNew, key := key)]
  {
    t := Next(s, subnet, Proceed(r, key, true, true));
    assert s.lost + {} == s.lost;
  }

  lemma Removes(s: System, subnet: string, r: nat) returns (t: System)
    requires r in s.runs && s.runs[r].pc == RemoveOld
    ensures StepsTo(s, subnet, Served(r), t) && t.lost == s.lost && t.world.store == s.world.store
    ensures t.world.kernel == Removed(s.world.kernel, s.runs[r].prior, true)
    ensures t.runs == s.runs[r := s.runs[r].(pc := AddNew)]
  {
    t := Next(s, subnet, Served(r));
    assert s.lost + {} == s.lost;
  }

  lemma Adds(s: System, subnet: string, r: nat) returns (t: System)
    requires r in s.runs && s.runs[r].pc == AddNew && IsRealKey(s.runs[r].key)
    ensures StepsTo(s, subnet, Served(r), t) && t.lost == s.lost && t.world.store == s.world.store
    ensures t.world.kernel == s.world.kernel.Allow(s.runs[r].key, s.runs[r].ip)
    ensures t.runs == s.runs[r := s.runs[r].(pc := Save)]
  {
    t := Next(s, subnet, Served(r));
    assert s.lost + {} == s.lost;
  }

  /** A save that the unique columns allow. */
  lemma Saves(s: System, subnet: string, r: nat, id: nat) returns (t: System)
    requires r in s.runs && s.runs[r].pc == Save && s.world.store.Valid()
    requires s.runs[r].deviceId != "" && s.runs[r].ip != ""
    requires if s.runs[r].rotating.None? then id == s.world.store.nextId
             else s.runs[r].rotating == Some(id) && HasDeviceId(s.world.store.rows, id, s.runs[r].deviceId)
    requires forall i: nat :: i != id ==>
      !HasVpnIp(s.world.store.rows, i, s.runs[r].ip) && !HasDeviceId(s.world.store.rows, i, s.runs[r].deviceId)
    requires s.runs[r].key != ""
    ensures StepsTo(s, subnet, Served(r), t) && t.lost == s.lost && t.world.kernel == s.world.kernel
    ensures t.runs == s.runs[r := s.runs[r].(pc := Succeeded)]
    ensures t.world.store.Valid() && SavedAs(s.world.store.rows, t.world.store.rows, id, s.runs[r])
  {
    t := Next(s, subnet, Served(r));
    assert s.lost + {} == s.lost;
    var run := s.runs[r];
    var row := if run.rotating.None? then Row(run.deviceId, run.model, Some(run.ip), run.key, ACTIVE)
               else Merged(s.world.store.rows[id], Update(run.model, Some(Some(run.ip)), run.key, Some(ACTIVE)));
    forall i | i in s.world.store.rows && i != id
      ensures !Clash(s.world.store.rows[i], row)
    {
      assert !HasVpnIp(s.world.store.rows, i, run.ip) && !HasDeviceId(s.world.store.rows, i, run.deviceId);
    }
    WrittenKeepsValid(s.world.store, id, row, Faults(true, true, true, true));
  }

  /** The unique address column refuses a second row with the address. */
  lemma CannotSave(s: System, subnet: string, r: nat, i: nat) returns (t: System)
    requires r in s.runs && s.runs[r].pc == Save && s.world.store.Valid()
    requires HasVpnIp(s.world.store.rows, i, s.runs[r].ip) && s.runs[r].rotating != Some(i)
    ensures StepsTo(s, subnet, Served(r), t) && t.lost == s.lost && t.world == s.world
    ensures t.runs == s.runs[r := s.runs[r].(pc := Discard)]
  {
    t := Next(s, subnet, Served(r));
    assert s.lost + {} == s.lost;
  }

  /** Giving up: the new peer is removed and, for a rotation, the old key set again. */
  lemma GivesUp(start: System, s: System, subnet: string, r: nat) returns (t: System)
    requires Reaches(start, subnet, s) && r in s.runs && s.runs[r].pc == Discard
    ensures Reaches(start, subnet, t) && t.world.store == s.world.store
    ensures t.runs == s.runs[r := s.runs[r].(pc := Failed)]
    ensures forall key :: !Owns(s.world.kernel, s.runs[r].ip, key) && (s.runs[r].rotating.Some? ==> key != s.runs[r].prior) ==>
      !Owns(t.world.kernel, s.runs[r].ip, key)
  {
    t := Next(s, subnet, Served(r));
    ReachesNext(start, subnet, s, Served(r), t);
    if s.runs[r].rotating.Some? {
      var m := t;
      t := Next(m, subnet, Served(r));
      ReachesNext(start, subnet, m, Served(r), t);
      assert t.runs == s.runs[r := s.runs[r].(pc := Failed)];
    }
  }

  // --------------------------------------------- two runs with one address

  /** On the way to saving, with an address. */
  predicate Underway(run: Run) {
    run.pc in {Generate, RemoveOld, AddNew, Save}
  }

  /** A run whose save the device id column would allow. */
  ghost predicate Unclaimed(s: System, run: Run) {
    run.rotating.None? ==> forall i: nat :: !HasDeviceId(s.world.store.rows, i, run.deviceId)
  }

  /** Two unfinished runs, each a first registration or a rotation, hold one address that no row holds. */
  ghost predicate Sharing(s: System, a: nat, b: nat) {
    && a in s.runs && b in s.runs && a != b && Underway(s.runs[a]) && Underway(s.runs[b])
    && s.runs[a].ip == s.runs[b].ip && (forall i: nat :: !HasVpnIp(s.world.store.rows, i, s.runs[a].ip))
    && Unclaimed(s, s.runs[a]) && Unclaimed(s, s.runs[b])
  }

  predicate SameButProgress(before: Run, after: Run) {
    after == before.(pc := after.pc, key := after.key)
  }

  /** One step of a run under way, alone, and not yet saving. */
  lemma OneTowardsSave(s: System, subnet: string, r: nat, key: string, foreign: set<string>) returns (t: System)
    requires Holds(s, foreign) && r in s.runs && s.runs[r].pc in {Generate, RemoveOld, AddNew}
    requires s.runs[r].pc == Generate ==> NewKey(s, key)
    ensures StepsTo(s, subnet, Proceed(r, if s.runs[r].pc == Generate then key else "", true, true), t)
    ensures Progress(s, t, r, key) && t.runs[r].pc in {RemoveOld, AddNew, Save}
    ensures Remaining(t.runs[r].pc) < Remaining(s.runs[r].pc)
  {
    assert RunHolds(s.world, s.runs[r], s.lost);
    if s.runs[r].pc == Generate {
      t := Generates(s, subnet, r, key);
    } else if s.runs[r].pc == RemoveOld {
      t := Removes(s, subnet, r);
    } else {
      t := Adds(s, subnet, r);
    }
    StaysNew(s, t, r, key);
  }

  /** Only run `r` has moved, the table has not changed, and keys other than `key` are as new as they were. */
  ghost predicate Progress(s: System, t: System, r: nat, key: string) {
    && r in s.runs && r in t.runs && t.runs == s.runs[r := t.runs[r]] && t.world.store == s.world.store
    && SameButProgress(s.runs[r], t.runs[r])
    && forall other :: NewKey(s, other) && other != key ==> NewKey(t, other)
  }

  lemma ProgressOn(s: System, m: System, t: System, r: nat, key: string)
    requires Progress(s, m, r, key) && Progress(m, t, r, key)
    ensures Progress(s, t, r, key)
  {
    assert t.runs == s.runs[r := t.runs[r]];
  }

  /** A key is as new as before when the peers gained no more than keys of the run that moved. */
  lemma StaysNew(s: System, t: System, r: nat, key: string)
    requires r in s.runs && r in t.runs && t.runs == s.runs[r := t.runs[r]] && t.world.store == s.world.store
    requires t.runs[r].key in {s.runs[r].key, key} && t.world.kernel.peers <= s.world.kernel.peers + {s.runs[r].key}
    ensures forall other :: NewKey(s, other) && other != key ==> NewKey(t, other)
  {
  }

  /** A run under way goes on alone until it saves. */
  lemma {:induction false} GoesToSave(start: System, s: System, subnet: string, r: nat, key: string, foreign: set<string>)
    returns (t: System)
    requires Reaches(start, subnet, s) && Holds(s, foreign) && IsSubnetPrefix(subnet)
    requires r in s.runs && Underway(s.runs[r]) && (s.runs[r].pc == Generate ==> NewKey(s, key))
    ensures Reaches(start, subnet, t) && Holds(t, foreign) && Progress(s, t, r, key) && t.runs[r].pc == Save
    decreases Remaining(s.runs[r].pc)
  {
    t := s;
    if s.runs[r].pc != Save {
      var a := Proceed(r, if s.runs[r].pc == Generate then key else "", true, true);
      var m := OneTowardsSave(s, subnet, r, key, foreign);
      ReachesNext(start, subnet, s, a, m);
      NextHolds(s, subnet, a, foreign);
      t := GoesToSave(start, m, subnet, r, key, foreign);
      ProgressOn(s, m, t, r, key);
    }
  }

  /** A row in use that does not own its address, with no rotation under way to explain it. */
  ghost predicate LeftWithout(s: System, i: nat, deviceId: string, ip: string) {
    && HasDeviceId(s.world.store.rows, i, deviceId) && HasVpnIp(s.world.store.rows, i, ip)
    && !RowOwns(s.world, i) && !UnderRotation(s.runs, i)
  }

  /** The row that a run's save will write. */
  ghost function Target(s: System, run: Run): nat {
    if run.rotating.Some? then run.rotating.value else s.world.store.nextId
  }

  /** Nobody else rotates the row a run is about to write. */
  lemma TargetIsOwn(s: System, r: nat, q: nat, foreign: set<string>)
    requires Holds(s, foreign) && r in s.runs && q in s.runs && q != r && s.runs[r].pc == Save && Interleaving.Active(s.runs[q])
    ensures s.runs[q].rotating != Some(Target(s, s.runs[r]))
  {
    assert RunHolds(s.world, s.runs[q], s.lost) && PairHolds(s.runs[r], s.runs[q]);
  }

  /** With both runs about to save, the one whose key does not own the address saves first, the other gives up. */
  lemma OneSavesOneGivesUp(start: System, s: System, subnet: string, w: nat, l: nat, foreign: set<string>) returns (t: System)
    requires Reaches(start, subnet, s)
    requires Holds(s, foreign) && Sharing(s, w, l) && s.runs[w].pc == Save && s.runs[l].pc == Save
    requires !Owns(s.world.kernel, s.runs[w].ip, s.runs[w].key)
    ensures Reaches(start, subnet, t)
    ensures t.runs == s.runs[w := s.runs[w].(pc := Succeeded)][l := s.runs[l].(pc := Failed)]
    ensures LeftWithout(t, Target(s, s.runs[w]), s.runs[w].deviceId, s.runs[w].ip)
  {
    var run, i := s.runs[w], Target(s, s.runs[w]);
    assert RunHolds(s.world, run, s.lost) && RunHolds(s.world, s.runs[l], s.lost);
    TargetIsOwn(s, w, l, foreign);
    DeviceIsFree(s, w, foreign);
    var s1 := Saves(s, subnet, w, i);
    ReachesNext(start, subnet, s, Served(w), s1);
    t := CannotSaveGivesUp(start, s1, subnet, l, i);
    assert s.runs[l].rotating.Some? ==> HasKey(s.world.store.rows, s.runs[l].rotating.value, s.runs[l].prior);
    assert !Owns(t.world.kernel, run.ip, run.key);
    NotUnderRotation(s, t, w, l, foreign);
  }

  lemma CannotSaveGivesUp(start: System, s: System, subnet: string, r: nat, i: nat) returns (t: System)
    requires Reaches(start, subnet, s) && r in s.runs && s.runs[r].pc == Save && s.world.store.Valid()
    requires HasVpnIp(s.world.store.rows, i, s.runs[r].ip) && s.runs[r].rotating != Some(i)
    ensures Reaches(start, subnet, t) && t.world.store == s.world.store
    ensures t.runs == s.runs[r := s.runs[r].(pc := Failed)]
    ensures forall key :: !Owns(s.world.kernel, s.runs[r].ip, key) && (s.runs[r].rotating.Some? ==> key != s.runs[r].prior) ==>
      !Owns(t.world.kernel, s.runs[r].ip, key)
  {
    var m := CannotSave(s, subnet, r, i);
    ReachesNext(start, subnet, s, Served(r), m);
    t := GivesUp(start, m, subnet, r);
  }

  lemma DeviceIsFree(s: System, r: nat, foreign: set<string>)
    requires Holds(s, foreign) && r in s.runs && s.runs[r].pc == Save && Unclaimed(s, s.runs[r])
    ensures forall i: nat :: i != Target(s, s.runs[r]) ==> !HasDeviceId(s.world.store.rows, i, s.runs[r].deviceId)
    ensures s.runs[r].rotating.Some? ==> HasDeviceId(s.world.store.rows, Target(s, s.runs[r]), s.runs[r].deviceId)
  {
    assert RunHolds(s.world, s.runs[r], s.lost);
    var rows, j := s.world.store.rows, Target(s, s.runs[r]);
    if s.runs[r].rotating.Some? {
      assert forall i :: i in rows && i != j ==> !Clash(rows[i], rows[j]);
    }
  }

  lemma NotUnderRotation(s: System, t: System, w: nat, l: nat, foreign: set<string>)
    requires Holds(s, foreign) && w in s.runs && l in s.runs && w != l && s.runs[w].pc == Save && s.runs[l].pc == Save
    requires t.runs == s.runs[w := s.runs[w].(pc := Succeeded)][l := s.runs[l].(pc := Failed)]
    ensures !UnderRotation(t.runs, Target(s, s.runs[w]))
  {
    forall q | q in t.runs && t.runs[q].pc in {AddNew, Save, Discard, Restore}
      ensures t.runs[q].rotating != Some(Target(s, s.runs[w]))
    {
      TargetIsOwn(s, w, q, foreign);
    }
  }

  /**
   * Holding different addresses cannot be dropped from the condition for ownership: from any
   * state in which two runs under way hold one address that no row holds, whether they
   * register or rotate, some schedule without a failed command reports success to one of them
   * and leaves its row without the address in the kernel, after both are finished.
   */
  lemma SharedAddressBreaks(s: System, subnet: string, a: nat, b: nat, keyA: string, keyB: string, foreign: set<string>)
    returns (states: seq<System>, actions: seq<Action>, winner: nat, i: nat)
    requires Holds(s, foreign) && IsSubnetPrefix(subnet) && Sharing(s, a, b)
    requires NewKey(s, keyA) && NewKey(s, keyB) && keyA != keyB
    ensures IsTrace(subnet, states, actions) && states[0] == s && Smooth(actions)
    ensures winner in {a, b} && a in states[|actions|].runs && b in states[|actions|].runs
    ensures forall r :: r in {a, b} ==> states[|actions|].runs[r].pc == if r == winner then Succeeded else Failed
    ensures LeftWithout(states[|actions|], i, s.runs[winner].deviceId, s.runs[winner].ip)
    ensures !Owning(states[|actions|])
  {
    ReachesItself(s, subnet);
    var m := GoesToSave(s, s, subnet, a, keyA, foreign);
    var u := GoesToSave(s, m, subnet, b, keyB, foreign);
    winner := if Owns(u.world.kernel, u.runs[a].ip, u.runs[a].key) then b else a;
    i := Target(u, u.runs[winner]);
    BothSave(u, a, b, foreign);
    var t := OneSavesOneGivesUp(s, u, subnet, winner, if winner == a then b else a, foreign);
    states, actions := ReachesIsTrace(s, subnet, t);
  }

  lemma BothSave(u: System, a: nat, b: nat, foreign: set<string>)
    requires Holds(u, foreign) && a in u.runs && b in u.runs && a != b && u.runs[a].pc == Save && u.runs[b].pc == Save
    ensures u.runs[a].key != u.runs[b].key
  {
    assert PairHolds(u.runs[a], u.runs[b]);
  }

  // ------------------------------------------------------- reaching the race

  /** Two registrations of new devices that both read the table before either has written it. */
  ghost predicate TwoNewDevices(s: System, subnet: string, a: nat, b: nat, first: Request, second: Request) {
    && a != b && a !in s.runs && b !in s.runs
    && first.deviceId != "" && second.deviceId != ""
    && ByDeviceId(s.world.store.rows, first.deviceId).None? && ByDeviceId(s.world.store.rows, second.deviceId).None?
    && Allocated(subnet, s.world.store.rows).Some?
    && forall i: nat :: !HasVpnIp(s.world.store.rows, i, Allocated(subnet, s.world.store.rows).value)
  }

  /** Such a pair of calls comes to share an address, with nothing failing on the way. */
  lemma RaceIsReachable(s: System, subnet: string, a: nat, b: nat, first: Request, second: Request)
    returns (states: seq<System>, actions: seq<Action>)
    requires TwoNewDevices(s, subnet, a, b, first, second)
    requires forall q :: q in s.runs ==> !Interleaving.Active(s.runs[q])
    ensures IsTrace(subnet, states, actions) && states[0] == s && Smooth(actions)
    ensures Sharing(states[|actions|], a, b) && states[|actions|].world == s.world
    ensures states[|actions|].runs[a].deviceId == first.deviceId && states[|actions|].runs[b].deviceId == second.deviceId
  {
    ReachesItself(s, subnet);
    var s1 := Begins(s, subnet, a, first);
    ReachesNext(s, subnet, s, Begin(a, first), s1);
    var s2 := Begins(s1, subnet, b, second);
    ReachesNext(s, subnet, s1, Begin(b, second), s2);
    var s3 := Allocates(s2, subnet, a);
    ReachesNext(s, subnet, s2, Served(a), s3);
    var s4 := Allocates(s3, subnet, b);
    ReachesNext(s, subnet, s3, Served(b), s4);
    states, actions := ReachesIsTrace(s, subnet, s4);
  }

  lemma Begins(s: System, subnet: string, r: nat, dto: Request) returns (t: System)
    requires r !in s.runs && dto.deviceId != "" && ByDeviceId(s.world.store.rows, dto.deviceId).None?
    requires forall q :: q in s.runs ==> !Interleaving.Active(s.runs[q]) || s.runs[q].rotating.None?
    ensures StepsTo(s, subnet, Begin(r, dto), t)
    ensures t == s.(runs := s.runs[r := Run(Allocate, dto.deviceId, dto.hardwareModel, None, "", None, "", "")])
  {
    t := Next(s, subnet, Begin(r, dto));
  }

  lemma Allocates(s: System, subnet: string, r: nat) returns (t: System)
    requires r in s.runs && s.runs[r].pc == Allocate && Allocated(subnet, s.world.store.rows).Some?
    ensures StepsTo(s, subnet, Served(r), t)
    ensures t.world == s.world && t.runs == s.runs[r := s.runs[r].(pc := Generate, ip := Allocated(subnet, s.world.store.rows).value)]
  {
    t := Next(s, subnet, Served(r));
  }

  // ------------------------------------------- two rotations of one device

  /** Two requests for one addressed device that have both read its row. */
  ghost predicate BothRead(s: System, a: nat, b: nat, i: nat, first: Request, second: Request) {
    && a != b && s.world.store.Valid() && s.lost == {}
    && ByDeviceId(s.world.store.rows, first.deviceId) == Some(i) && second.deviceId == first.deviceId
    && s.world.store.rows[i].status != REVOKED && s.world.store.rows[i].vpnIp.Some?
    && s.runs == map[a := Started(s.world, first), b := Started(s.world, second)]
  }

  /**
   * At most one rotation of a device at a time is needed for the account of kernel keys: two
   * rotations that both read the row before either goes on can both report success, no command
   * failing, and the first one's key stays in the kernel although no row and no run has it.
   */
  lemma TwoRotationsLeaveStray(s: System, subnet: string, a: nat, b: nat, i: nat, first: Request, second: Request,
                               keyA: string, keyB: string, foreign: set<string>)
    returns (states: seq<System>, actions: seq<Action>)
    requires BothRead(s, a, b, i, first, second) && NewKey(s, keyA) && NewKey(s, keyB) && keyA != keyB && keyA !in foreign
    ensures IsTrace(subnet, states, actions) && states[0] == s && Smooth(actions)
    ensures var t := states[|actions|];
      && t.lost == {} && t.runs.Keys == {a, b} && t.runs[a].pc == Succeeded && t.runs[b].pc == Succeeded
      && keyA in t.world.kernel.peers && !Accounted(t, foreign)
  {
    ReadersOfRow(s.world, first, i);
    ReadersOfRow(s.world, second, i);
    var s2 := GenerateBoth(s, subnet, a, b, keyA, keyB);
    var s4 := RemoveBoth(s, s2, subnet, a, b);
    var s6 := AddBoth(s, s4, subnet, a, b);
    var t := SaveBoth(s, s6, subnet, a, b, i);
    StrayKey(s, t, a, b, i, keyA, keyB, foreign);
    states, actions := ReachesIsTrace(s, subnet, t);
  }

  /** What a rotation remembers of an addressed row. */
  lemma ReadersOfRow(w: World, dto: Request, i: nat)
    requires ByDeviceId(w.store.rows, dto.deviceId) == Some(i) && w.store.rows[i].status != REVOKED && w.store.rows[i].vpnIp.Some?
    ensures var run := Started(w, dto);
      && run.pc == Generate && run.rotating == Some(i) && Some(run.ip) == w.store.rows[i].vpnIp
      && run.deviceId == w.store.rows[i].deviceId == dto.deviceId
  {
  }

  /** Nobody has the first key: not the row, not another row, and no run that is still unfinished. */
  lemma StrayKey(s: System, t: System, a: nat, b: nat, i: nat, keyA: string, keyB: string, foreign: set<string>)
    requires NewKey(s, keyA) && keyA != keyB && keyA !in foreign && keyA in t.world.kernel.peers && t.lost == {}
    requires t.runs.Keys == {a, b} && t.runs[a].pc == Succeeded && t.runs[b].pc == Succeeded
    requires i in t.world.store.rows && t.world.store.rows == s.world.store.rows[i := t.world.store.rows[i]]
    requires t.world.store.rows[i].vpnPublicKey == keyB
    ensures !Accounted(t, foreign)
  {
    assert forall j :: !HasKey(t.world.store.rows, j, keyA);
    assert !InFlight(t.runs, keyA);
  }

  lemma GenerateBoth(s: System, subnet: string, a: nat, b: nat, keyA: string, keyB: string) returns (t: System)
    requires a in s.runs && b in s.runs && a != b && s.runs[a].pc == Generate && s.runs[b].pc == Generate
    requires s.runs[a].rotating.Some? && s.runs[b].rotating.Some?
    requires NewKey(s, keyA) && NewKey(s, keyB) && keyA != keyB
    ensures Reaches(s, subnet, t) && t.lost == s.lost && t.world == s.world
    ensures t.runs == s.runs[a := s.runs[a].(pc := RemoveOld, key := keyA)][b := s.runs[b].(pc := RemoveOld, key := keyB)]
  {
    ReachesItself(s, subnet);
    var m := Generates(s, subnet, a, keyA);
    ReachesNext(s, subnet, s, Proceed(a, keyA, true, true), m);
    t := Generates(m, subnet, b, keyB);
    ReachesNext(s, subnet, m, Proceed(b, keyB, true, true), t);
  }

  lemma RemoveBoth(start: System, s: System, subnet: string, a: nat, b: nat) returns (t: System)
    requires Reaches(start, subnet, s) && a in s.runs && b in s.runs && a != b
    requires s.runs[a].pc == RemoveOld && s.runs[b].pc == RemoveOld
    ensures Reaches(start, subnet, t) && t.lost == s.lost && t.world.store == s.world.store
    ensures t.runs == s.runs[a := s.runs[a].(pc := AddNew)][b := s.runs[b].(pc := AddNew)]
  {
    var m := Removes(s, subnet, a);
    ReachesNext(start, subnet, s, Served(a), m);
    t := Removes(m, subnet, b);
    ReachesNext(start, subnet, m, Served(b), t);
  }

  /** Setting the second key takes the address from the first one, not the peer. */
  lemma AddBoth(start: System, s: System, subnet: string, a: nat, b: nat) returns (t: System)
    requires Reaches(start, subnet, s) && a in s.runs && b in s.runs && a != b
    requires s.runs[a].pc == AddNew && s.runs[b].pc == AddNew && IsRealKey(s.runs[a].key) && IsRealKey(s.runs[b].key)
    ensures Reaches(start, subnet, t) && t.lost == s.lost && t.world.store == s.world.store
    ensures t.runs == s.runs[a := s.runs[a].(pc := Save)][b := s.runs[b].(pc := Save)]
    ensures s.runs[a].key in t.world.kernel.peers
  {
    var m := Adds(s, subnet, a);
    ReachesNext(start, subnet, s, Served(a), m);
    t := Adds(m, subnet, b);
    ReachesNext(start, subnet, m, Served(b), t);
  }

  /** Both write the row; the second key stays in it. */
  lemma SaveBoth(start: System, s: System, subnet: string, a: nat, b: nat, i: nat) returns (t: System)
    requires Reaches(start, subnet, s) && a in s.runs && b in s.runs && a != b && s.world.store.Valid()
    requires s.runs[a].pc == Save && s.runs[b].pc == Save && s.runs[a].key != "" && s.runs[b].key != ""
    requires s.runs[a].rotating == Some(i) && s.runs[b].rotating == Some(i)
    requires s.runs[a].ip == s.runs[b].ip && s.runs[a].deviceId == s.runs[b].deviceId
    requires HasDeviceId(s.world.store.rows, i, s.runs[a].deviceId) && HasVpnIp(s.world.store.rows, i, s.runs[a].ip)
    ensures Reaches(start, subnet, t) && t.lost == s.lost && t.world.kernel == s.world.kernel
    ensures t.runs == s.runs[a := s.runs[a].(pc := Succeeded)][b := s.runs[b].(pc := Succeeded)]
    ensures i in t.world.store.rows && t.world.store.rows == s.world.store.rows[i := t.world.store.rows[i]]
    ensures t.world.store.rows[i].vpnPublicKey == s.runs[b].key
  {
    OnlyHolder(s.world.store, i, s.runs[a].deviceId, s.runs[a].ip);
    var m := Saves(s, subnet, a, i);
    ReachesNext(start, subnet, s, Served(a), m);
    OnlyHolder(m.world.store, i, s.runs[a].deviceId, s.runs[a].ip);
    t := Saves(m, subnet, b, i);
    ReachesNext(start, subnet, m, Served(b), t);
  }

  lemma OnlyHolder(store: Store, i: nat, deviceId: string, ip: string)
    requires store.Valid() && HasDeviceId(store.rows, i, deviceId) && HasVpnIp(store.rows, i, ip)
    ensures deviceId != "" && ip != ""
    ensures forall j: nat :: j != i ==> !HasVpnIp(store.rows, j, ip) && !HasDeviceId(store.rows, j, deviceId)
  {
    assert forall j :: j in store.rows && j != i ==> !Clash(store.rows[j], store.rows[i]);
  }
}
