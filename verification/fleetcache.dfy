/**
 * The fleet listing behind the REST API: a short-lived cache, one shared fetch for
 * everyone who misses it, and the filter that shows a pilot only their own devices.
 */
module FleetCache {
  import opened Wrappers

  const FRESH_MS: int := 500

  datatype Device = Device(deviceId: string, userId: Option<string>)
  datatype User = User(id: string, role: string)

  // -------------------------------------------------------------- filter

  /** Owned by a named user; an empty owner id counts as none. */
  predicate OwnedBy(dev: Device, user: User) {
    dev.userId.Some? && dev.userId.value != "" && dev.userId.value == user.id
  }

  predicate Visible(dev: Device, user: Option<User>) {
    user.None? || user.value.role == "ADMIN" || OwnedBy(dev, user.value)
  }

  function Owned(devices: seq<Device>, user: User): seq<Device> {
    if devices == [] then [] else (if OwnedBy(devices[0], user) then [devices[0]] else []) + Owned(devices[1..], user)
  }

  function FilterForUser(devices: seq<Device>, user: Option<User>): seq<Device> {
    if user.None? || user.value.role == "ADMIN" then devices else Owned(devices, user.value)
  }

  lemma {:induction false} OwnedIsCount(devices: seq<Device>, user: User, dev: Device)
    ensures multiset(Owned(devices, user))[dev] == if OwnedBy(dev, user) then multiset(devices)[dev] else 0
  {
    if devices != [] {
      OwnedIsCount(devices[1..], user, dev);
      assert devices == [devices[0]] + devices[1..];
    }
  }

  lemma {:induction false} OwnedAppend(a: seq<Device>, b: seq<Device>, user: User)
    ensures Owned(a + b, user) == Owned(a, user) + Owned(b, user)
  {
    if a == [] {
      assert a + b == b;
    } else {
      OwnedAppend(a[1..], b, user);
      assert (a + b)[1..] == a[1..] + b;
      Associates(if OwnedBy(a[0], user) then [a[0]] else [], Owned(a[1..], user), Owned(b, user));
    }
  }

  lemma Associates(x: seq<Device>, y: seq<Device>, z: seq<Device>)
    ensures (x + y) + z == x + (y + z)
  {
  }

  /**
   * A caller sees a device as often as it is listed if it is visible to them and never
   * otherwise, and the filter works list part by list part, so the order is kept.
   */
  lemma FilterShowsExactlyVisible(devices: seq<Device>, more: seq<Device>, user: Option<User>)
    ensures forall dev :: multiset(FilterForUser(devices, user))[dev] == if Visible(dev, user) then multiset(devices)[dev] else 0
    ensures FilterForUser(devices + more, user) == FilterForUser(devices, user) + FilterForUser(more, user)
  {
    if user.Some? && user.value.role != "ADMIN" {
      forall dev
        ensures multiset(Owned(devices, user.value))[dev] == if OwnedBy(dev, user.value) then multiset(devices)[dev] else 0
      {
        OwnedIsCount(devices, user.value, dev);
      }
      OwnedAppend(devices, more, user.value);
    }
  }

  /** A caller who is no administrator is shown exactly their own devices of a list; anyone else the list itself. */
  ghost predicate ShownTo(answer: seq<Device>, devices: seq<Device>, user: Option<User>) {
    if user.None? || user.value.role == "ADMIN" then answer == devices
    else forall dev :: ShownAsListed(answer, devices, user.value, dev)
  }

  /** The device is shown as often as it is listed if the caller's id is on it, and never otherwise. */
  predicate ShownAsListed(answer: seq<Device>, devices: seq<Device>, user: User, dev: Device) {
    multiset(answer)[dev] == if dev.userId == Some(user.id) && user.id != "" then multiset(devices)[dev] else 0
  }

  lemma FilterShows(devices: seq<Device>, user: Option<User>)
    ensures ShownTo(FilterForUser(devices, user), devices, user)
  {
    if user.Some? {
      forall dev
        ensures ShownAsListed(Owned(devices, user.value), devices, user.value, dev)
      {
        OwnedIsCount(devices, user.value, dev);
      }
    }
  }

  /** Two callers who are no administrators and have different ids are never shown the same device, of whatever lists. */
  lemma PilotsShareNothing(a: seq<Device>, b: seq<Device>, listA: seq<Device>, listB: seq<Device>, u: User, v: User, dev: Device)
    requires u.role != "ADMIN" && v.role != "ADMIN" && u.id != v.id
    requires ShownTo(a, listA, Some(u)) && ShownTo(b, listB, Some(v))
    ensures !(dev in a && dev in b)
  {
    assert ShownAsListed(a, listA, u, dev) && ShownAsListed(b, listB, v, dev);
    assert dev in a ==> multiset(a)[dev] > 0;
    assert dev in b ==> multiset(b)[dev] > 0;
  }

  // --------------------------------------------------------------- cache

  /** The fields of the service, and how many storage fetches are under way. */
  datatype State = State(cached: seq<Device>, cachedAt: int, pending: bool, outstanding: nat)

  const INITIAL := State([], 0, false, 0)

  datatype Event =
    | Request(user: Option<User>, at: int)
    | Complete(devices: seq<Device>, at: int)
    | Fail(at: int)

  predicate Hits(s: State, now: int) {
    now - s.cachedAt < FRESH_MS && |s.cached| > 0
  }

  /** The request starts a fetch. */
  predicate Leads(s: State, e: Event) {
    e.Request? && !Hits(s, e.at) && !s.pending
  }

  function Step(s: State, e: Event): State {
    match e
    case Request(_, at) => if Leads(s, e) then s.(pending := true, outstanding := s.outstanding + 1) else s
    case Complete(devices, at) => State(devices, at, false, if s.outstanding > 0 then s.outstanding - 1 else 0)
    case Fail(_) => s.(pending := false, outstanding := if s.outstanding > 0 then s.outstanding - 1 else 0)
  }

  class TelemetryService {
    var cachedAllFleetDevices: seq<Device>
    var lastFleetCacheTime: int
    /** A shared promise exists. */
    var fleetSingleFlightPromise: bool
    /** Fetches started and not yet settled. */
    var fetches: nat

    constructor ()
      ensures View() == INITIAL
    {
      cachedAllFleetDevices, lastFleetCacheTime, fleetSingleFlightPromise, fetches := [], 0, false, 0;
    }

    function View(): State
      reads this
    {
      State(cachedAllFleetDevices, lastFleetCacheTime, fleetSingleFlightPromise, fetches)
    }

    /** A request up to its `await`: answered from the cache, or left waiting for the shared fetch. */
    method GetAllFleetStates(user: Option<User>, now: int) returns (answer: Option<seq<Device>>)
      modifies this
      ensures View() == Step(old(View()), Request(user, now))
      ensures answer == if Hits(old(View()), now) then Some(FilterForUser(old(cachedAllFleetDevices), user)) else None
      ensures answer.None? ==> fleetSingleFlightPromise
      ensures answer.Some? ==> ShownTo(answer.value, old(cachedAllFleetDevices), user)
    {
      if now - lastFleetCacheTime < FRESH_MS && |cachedAllFleetDevices| > 0 {
        FilterShows(cachedAllFleetDevices, user);
        return Some(FilterForUser(cachedAllFleetDevices, user));
      }
      if !fleetSingleFlightPromise {
        fetches := fetches + 1;
        fleetSingleFlightPromise := true;
      }
      answer := None;
    }

    /** A request after its `await`, with what the shared fetch handed out. */
    method ResumeFleetStates(user: Option<User>, allDevices: seq<Device>) returns (answer: seq<Device>)
      ensures answer == FilterForUser(allDevices, user) && ShownTo(answer, allDevices, user)
    {
      FilterShows(allDevices, user);
      answer := FilterForUser(allDevices, user);
    }

    /** The fetch resolves; everyone waiting is given `data`. */
    method FetchResolved(devices: seq<Device>, now: int) returns (data: seq<Device>)
      requires fetches > 0
      modifies this
      ensures View() == Step(old(View()), Complete(devices, now)) && data == devices
    {
      fetches := fetches - 1;
      cachedAllFleetDevices := devices;
      lastFleetCacheTime := now;
      fleetSingleFlightPromise := false;
      data := devices;
    }

    /** The fetch rejects; everyone waiting is given the cached list. */
    method FetchRejected(now: int) returns (data: seq<Device>)
      requires fetches > 0
      modifies this
      ensures View() == Step(old(View()), Fail(now)) && data == old(cachedAllFleetDevices)
    {
      fetches := fetches - 1;
      fleetSingleFlightPromise := false;
      data := cachedAllFleetDevices;
    }
  }

  // ---------------------------------------------------------------- runs

  /** A fetch settles only while one is under way. */
  predicate Follows(states: seq<State>, trace: seq<Event>, i: nat) {
    && i < |trace| && i + 1 < |states| && states[i + 1] == Step(states[i], trace[i])
    && (!trace[i].Request? ==> states[i].outstanding > 0)
  }

  predicate IsRun(states: seq<State>, trace: seq<Event>) {
    && |states| == |trace| + 1 && states[0] == INITIAL
    && (forall i: nat :: i < |trace| ==> Follows(states, trace, i))
    && (forall i, j :: 0 <= i <= j < |trace| ==> trace[i].at <= trace[j].at)
  }

  /** At any time at most one fetch is under way, and the promise is there exactly while one is. */
  lemma {:induction false} AtMostOneFetch(states: seq<State>, trace: seq<Event>, n: nat)
    requires IsRun(states, trace) && n < |states|
    ensures states[n].outstanding == if states[n].pending then 1 else 0
  {
    if n > 0 {
      AtMostOneFetch(states, trace, n - 1);
      assert Follows(states, trace, n - 1);
    }
  }

  predicate Completes(trace: seq<Event>, i: nat) {
    i < |trace| && trace[i].Complete?
  }

  predicate IsLastCompletion(trace: seq<Event>, n: nat, m: nat) {
    m < n && Completes(trace, m) && forall k: nat :: m < k < n ==> !Completes(trace, k)
  }

  /** What the cache is made of: the last completed fetch, or nothing yet. */
  predicate CacheFrom(states: seq<State>, trace: seq<Event>, n: nat, m: nat) {
    n < |states| && IsLastCompletion(trace, n, m) && states[n].cached == trace[m].devices && states[n].cachedAt == trace[m].at
  }

  lemma {:induction false} CacheIsLastCompletion(states: seq<State>, trace: seq<Event>, n: nat)
    requires IsRun(states, trace) && n < |states|
    ensures (exists m: nat :: CacheFrom(states, trace, n, m))
      || (states[n].cached == [] && forall m: nat :: m < n ==> !Completes(trace, m))
  {
    if n > 0 {
      var p := n - 1;
      CacheIsLastCompletion(states, trace, p);
      assert Follows(states, trace, p);
      if Completes(trace, p) {
        assert CacheFrom(states, trace, n, p);
      } else if m: nat :| CacheFrom(states, trace, p, m) {
        assert CacheFrom(states, trace, n, m);
      }
    }
  }

  /**
   * A request is answered from the cache exactly when the last completed fetch gave a list
   * that is not empty less than half a second before; that list is the answer.
   */
  lemma HitIffFresh(states: seq<State>, trace: seq<Event>, i: nat)
    requires IsRun(states, trace) && i < |trace| && trace[i].Request?
    ensures Hits(states[i], trace[i].at) <==>
      exists m: nat :: CacheFrom(states, trace, i, m) && trace[m].devices != [] && trace[i].at - trace[m].at < FRESH_MS
  {
    CacheIsLastCompletion(states, trace, i);
  }

  /** No fetch settles in `i..j`. */
  predicate Unsettled(trace: seq<Event>, i: nat, j: nat) {
    forall k: nat :: i <= k < j && k < |trace| ==> trace[k].Request?
  }

  /** From a miss on, until the shared fetch settles, it stays under way and every request waits for it. */
  lemma {:induction false} EveryoneWaits(states: seq<State>, trace: seq<Event>, i: nat, j: nat)
    requires IsRun(states, trace) && i < j < |states| && trace[i].Request? && !Hits(states[i], trace[i].at)
    requires Unsettled(trace, i, j)
    ensures states[j].pending && states[j].outstanding == 1
    ensures states[j].cached == states[i].cached && states[j].cachedAt == states[i].cachedAt
    ensures j < |trace| && trace[j].Request? ==> !Hits(states[j], trace[j].at) && !Leads(states[j], trace[j])
  {
    AtMostOneFetch(states, trace, j);
    assert Follows(states, trace, j - 1);
    if i < j - 1 {
      EveryoneWaits(states, trace, i, j - 1);
    }
  }

  /** The list a settled fetch hands to those waiting for it. */
  function Handed(s: State, e: Event): seq<Device>
    requires !e.Request?
  {
    if e.Complete? then e.devices else s.cached
  }

  /**
   * What a request that missed gets when the fetch settles: a list completed after the
   * request began, or, if that fetch failed, the list of the last completed one, which may be
   * of any age, or nothing if none ever completed.
   */
  lemma WaiterGets(states: seq<State>, trace: seq<Event>, i: nat, j: nat)
    requires IsRun(states, trace) && i < j < |trace| && trace[i].Request? && !Hits(states[i], trace[i].at)
    requires Unsettled(trace, i, j) && !trace[j].Request?
    ensures trace[j].Complete? ==> Handed(states[j], trace[j]) == trace[j].devices && trace[i].at <= trace[j].at
    ensures trace[j].Fail? ==>
      || (exists m: nat :: m < i && IsLastCompletion(trace, j, m) && Handed(states[j], trace[j]) == trace[m].devices)
      || (Handed(states[j], trace[j]) == [] && forall m: nat :: m < j ==> !Completes(trace, m))
  {
    CacheIsLastCompletion(states, trace, j);
    if m: nat :| CacheFrom(states, trace, j, m) {
      assert Completes(trace, m);
      assert m != i && m < i;
    }
  }

  /** What request `i` returns; if it missed, event `j` settled the fetch it waited for. */
  function Returned(states: seq<State>, trace: seq<Event>, i: nat, j: nat): seq<Device>
    requires i < |trace| && i < |states| && trace[i].Request?
    requires !Hits(states[i], trace[i].at) ==> j < |trace| && j < |states| && !trace[j].Request?
  {
    FilterForUser(if Hits(states[i], trace[i].at) then states[i].cached else Handed(states[j], trace[j]), trace[i].user)
  }

  /** A list that a completed fetch gave, or the empty one before any completed. */
  ghost predicate WasFetched(trace: seq<Event>, n: nat, devices: seq<Device>) {
    devices == [] || exists m: nat :: m < n && Completes(trace, m) && trace[m].devices == devices
  }

  /**
   * Over every run, whatever path a request takes, its caller is shown their own part of one
   * list that a fetch gave, and nothing else.
   */
  lemma EveryoneIsShownTheirOwn(states: seq<State>, trace: seq<Event>, i: nat, j: nat)
    requires IsRun(states, trace) && i < |trace| && trace[i].Request?
    requires !Hits(states[i], trace[i].at) ==> i < j < |trace| && Unsettled(trace, i, j) && !trace[j].Request?
    ensures exists devices :: WasFetched(trace, |trace|, devices) && ShownTo(Returned(states, trace, i, j), devices, trace[i].user)
  {
    var devices := if Hits(states[i], trace[i].at) then states[i].cached else Handed(states[j], trace[j]);
    var n := if Hits(states[i], trace[i].at) then i else j;
    CacheIsLastCompletion(states, trace, n);
    if m: nat :| CacheFrom(states, trace, n, m) {
      assert Completes(trace, m);
    }
    if n == j && trace[j].Complete? {
      assert Completes(trace, j);
    }
    assert WasFetched(trace, |trace|, devices);
    FilterShows(devices, trace[i].user);
  }

  predicate LeadsAt(states: seq<State>, trace: seq<Event>, k: nat) {
    k < |trace| && k < |states| && Leads(states[k], trace[k])
  }

  /** After a fetch settled nothing is under way until the next one starts, so nothing can settle either. */
  lemma {:induction false} QuietUntilLed(states: seq<State>, trace: seq<Event>, m: nat, n: nat)
    requires IsRun(states, trace) && m < n < |states| && Completes(trace, m)
    requires forall k: nat :: m < k < n ==> !LeadsAt(states, trace, k)
    ensures !states[n].pending && CacheFrom(states, trace, n, m)
  {
    AtMostOneFetch(states, trace, n - 1);
    assert Follows(states, trace, n - 1);
    if m < n - 1 {
      QuietUntilLed(states, trace, m, n - 1);
      assert !LeadsAt(states, trace, n - 1);
    }
  }

  /** The first fetch started in `from..n`, where one is started at `n`. */
  function FirstLed(states: seq<State>, trace: seq<Event>, from: nat, n: nat): (k: nat)
    requires from <= n && LeadsAt(states, trace, n)
    ensures from <= k <= n && LeadsAt(states, trace, k)
    ensures forall l: nat :: from <= l < k ==> !LeadsAt(states, trace, l)
    decreases n - from
  {
    if LeadsAt(states, trace, from) then from else FirstLed(states, trace, from + 1, n)
  }

  /** Fetches after one that completed with a list that is not empty start at least half a second after its completion. */
  lemma FetchesSpaced(states: seq<State>, trace: seq<Event>, m: nat, n: nat)
    requires IsRun(states, trace) && m < n && Completes(trace, m) && trace[m].devices != [] && LeadsAt(states, trace, n)
    ensures trace[n].at - trace[m].at >= FRESH_MS
  {
    var k := FirstLed(states, trace, m + 1, n);
    QuietUntilLed(states, trace, m, k);
  }
}
