/**
 * Published liveness equals tracked liveness: over every run of frames, heartbeat
 * sweeps, flushes and focus updates, the last payload queued for a drone carries the
 * connected flag the aggregator holds, and drained queues show it in `drone:states`.
 */
module Liveness {
  import opened Wrappers
  import opened Models
  import Aggregator
  import Filter
  import Publisher
  import PublisherRuns
  import opened Pipeline

  /** What the service holds; the publisher is given by the events it has received. */
  datatype System = System(states: map<string, Payload>, sent: map<string, Filter.Sent>, log: seq<PublisherRuns.Event>, clock: int)

  const START := System(map[], map[], [], 0)

  datatype Event =
    | Frame(deviceId: string, sysId: nat, vpnIp: string, msg: Message, bytes: Option<seq<bv8>>, at: int)
    | Tick(listed: seq<Payload>, at: int)
    | Other(e: PublisherRuns.Event)

  function Snapshot(s: System, e: Event): Payload
    requires e.Frame?
  {
    Aggregator.Heard(s.states, e.deviceId, e.sysId, e.vpnIp, e.msg, e.at)
  }

  predicate Passes(c: Config, s: System, e: Event)
    requires e.Frame?
  {
    e.msg.known && Filter.Publishes(c, Filter.LastOf(s.sent, Snapshot(s, e).deviceId), Snapshot(s, e), e.at)
  }

  /** The snapshots an event hands to the publisher. */
  function Items(c: Config, s: System, e: Event): seq<Payload> {
    match e
    case Frame(_, _, _, _, _, _) => if Passes(c, s, e) then [Snapshot(s, e)] else []
    case Tick(listed, _) => listed
    case Other(_) => []
  }

  function Emission(c: Config, s: System, e: Event): seq<PublisherRuns.Event> {
    match e
    case Frame(_, _, _, msg, bytes, at) => FrameEvents(c, s.sent, Snapshot(s, e), bytes, msg.known, at)
    case Tick(listed, _) => Telemetries(listed)
    case Other(p) => [p]
  }

  function Step(c: Config, s: System, e: Event): System {
    var log := s.log + Emission(c, s, e);
    match e
    case Frame(d, _, _, msg, _, at) =>
      var snapshot := Snapshot(s, e);
      System(s.states[d := snapshot], if msg.known then Filter.Offered(c, s.sent, snapshot, at) else s.sent, log, at)
    case Tick(_, at) => System(Aggregator.Swept(s.states, at, Aggregator.OFFLINE_AFTER_MS), s.sent, log, at)
    case Other(_) => s.(log := log)
  }

  function PublishedBy(log: seq<PublisherRuns.Event>): Publisher.State {
    PublisherRuns.After(log, |log|)
  }

  function Published(s: System): Publisher.State {
    PublishedBy(s.log)
  }

  /** The last payload accepted into the queue for each drone. */
  function Table(log: seq<PublisherRuns.Event>): map<string, Payload> {
    PublisherRuns.Unbatched(map[], PublisherRuns.Accepted(log, |log|))
  }

  /** Sweeps list what they mark; what is not a frame or a sweep is a flush or a focus update. */
  ghost predicate Proper(s: System, e: Event) {
    && (e.Other? ==> e.e.Flush? || e.e.Focus?)
    && (e.Tick? ==> Lists(e.listed, s.states, e.at))
  }

  /** The clock does not go back, and no item is dropped. */
  predicate InTimeWithRoom(c: Config, s: System, e: Event) {
    && (!e.Other? ==> s.clock <= e.at)
    && Waiting(s.log) + |Items(c, s, e)| <= Publisher.QUEUE_CAPACITY
  }

  ghost predicate Allowed(c: Config, s: System, e: Event) {
    Proper(s, e) && InTimeWithRoom(c, s, e)
  }

  ghost predicate Follows(c: Config, states: seq<System>, trace: seq<Event>, i: nat) {
    i < |trace| && i + 1 < |states| && Allowed(c, states[i], trace[i]) && states[i + 1] == Step(c, states[i], trace[i])
  }

  /** The states the service goes through, one more than there are events. */
  ghost predicate IsRun(c: Config, states: seq<System>, trace: seq<Event>) {
    |states| == |trace| + 1 && states[0] == START && forall i: nat :: i < |trace| ==> Follows(c, states, trace, i)
  }

  // -------------------------------------------------------------- the log

  lemma {:induction false} PrefixRuns(log: seq<PublisherRuns.Event>, e: PublisherRuns.Event, n: nat)
    requires n <= |log|
    ensures PublisherRuns.After(log + [e], n) == PublisherRuns.After(log, n)
    ensures PublisherRuns.Accepted(log + [e], n) == PublisherRuns.Accepted(log, n)
  {
    if n > 0 {
      PrefixRuns(log, e, n - 1);
    }
  }

  lemma LogSnoc(log: seq<PublisherRuns.Event>, e: PublisherRuns.Event)
    ensures var before, after := PublisherRuns.After(log, |log|), PublisherRuns.After(log + [e], |log| + 1);
      && after == PublisherRuns.Step(before, e)
      && PublisherRuns.Accepted(log + [e], |log| + 1) == PublisherRuns.Accepted(log, |log|) + PublisherRuns.AcceptedBy(before, e)
  {
    PrefixRuns(log, e, |log|);
  }

  lemma {:induction false} RawPrefix(log: seq<PublisherRuns.Event>, e: PublisherRuns.Event, n: nat)
    requires n <= |log|
    ensures PublisherRuns.RawAccepted(log + [e], n) == PublisherRuns.RawAccepted(log, n)
  {
    if n > 0 {
      RawPrefix(log, e, n - 1);
      PrefixRuns(log, e, n - 1);
    }
  }

  /** Raw frames accepted into their queue, in order. */
  function RawQueued(log: seq<PublisherRuns.Event>): seq<Publisher.RawItem> {
    PublisherRuns.RawAccepted(log, |log|)
  }

  lemma RawSnoc(log: seq<PublisherRuns.Event>, e: PublisherRuns.Event)
    ensures RawQueued(log + [e]) == RawQueued(log) + PublisherRuns.RawAcceptedBy(PublishedBy(log), e)
  {
    RawPrefix(log, e, |log|);
    PrefixRuns(log, e, |log|);
  }

  /** A queued payload becomes the table's entry of its drone; nothing else changes the table. */
  lemma TableSnoc(log: seq<PublisherRuns.Event>, e: PublisherRuns.Event)
    ensures var accepted := PublisherRuns.AcceptedBy(PublisherRuns.After(log, |log|), e);
      Table(log + [e]) == if accepted == [] then Table(log) else Table(log)[accepted[0].deviceId := accepted[0]]
  {
    LogSnoc(log, e);
    var accepted := PublisherRuns.AcceptedBy(PublisherRuns.After(log, |log|), e);
    PublisherRuns.UnbatchedAppend(map[], PublisherRuns.Accepted(log, |log|), accepted);
    assert accepted != [] ==> accepted[..0] == [];
  }

  function LastItem(items: seq<Payload>, d: string): Option<Payload> {
    if items == [] then None
    else if items[|items| - 1].deviceId == d then Some(items[|items| - 1])
    else LastItem(items[..|items| - 1], d)
  }

  function EntryOf(table: map<string, Payload>, d: string): Option<Payload> {
    if d in table then Some(table[d]) else None
  }

  /** The last payload accepted into the queue for drone `d`. */
  function Shown(log: seq<PublisherRuns.Event>, d: string): Option<Payload> {
    EntryOf(Table(log), d)
  }

  function Overridden(latest: Option<Payload>, earlier: Option<Payload>): Option<Payload> {
    if latest.Some? then latest else earlier
  }

  function Waiting(log: seq<PublisherRuns.Event>): nat {
    |PublisherRuns.After(log, |log|).queue|
  }

  /** What the last accepted payload of `d` is, after one more event. */
  lemma ShownSnoc(log: seq<PublisherRuns.Event>, e: PublisherRuns.Event, d: string)
    requires d != "" && (e.Telemetry? ==> Waiting(log) < Publisher.QUEUE_CAPACITY)
    ensures Shown(log + [e], d) == if e.Telemetry? && e.payload.deviceId == d then Some(e.payload) else Shown(log, d)
    ensures Waiting(log + [e]) <= Waiting(log) + if e.Telemetry? then 1 else 0
  {
    TableSnoc(log, e);
    WaitingSnoc(log, e);
  }

  lemma WaitingSnoc(log: seq<PublisherRuns.Event>, e: PublisherRuns.Event)
    ensures Waiting(log + [e]) <= Waiting(log) + if e.Telemetry? then 1 else 0
  {
    LogSnoc(log, e);
    QueueStep(PublisherRuns.After(log, |log|), e);
  }

  lemma QueueStep(s: Publisher.State, e: PublisherRuns.Event)
    ensures |PublisherRuns.Step(s, e).queue| <= |s.queue| + if e.Telemetry? then 1 else 0
  {
  }

  /** With room in the queue, every drone's entry becomes its last item of the list. */
  lemma {:induction false} Emitted(log: seq<PublisherRuns.Event>, items: seq<Payload>, d: string)
    requires Waiting(log) + |items| <= Publisher.QUEUE_CAPACITY && d != ""
    ensures Shown(log + Telemetries(items), d) == Overridden(LastItem(items, d), Shown(log, d))
    ensures Waiting(log + Telemetries(items)) <= Waiting(log) + |items|
  {
    if items == [] {
      assert log + Telemetries(items) == log;
    } else {
      var n := |items| - 1;
      Emitted(log, items[..n], d);
      var e := PublisherRuns.Telemetry(items[n]);
      assert log + Telemetries(items) == log + Telemetries(items[..n]) + [e];
      ShownSnoc(log + Telemetries(items[..n]), e, d);
    }
  }

  lemma RawEmitted(log: seq<PublisherRuns.Event>, id: string, bytes: Option<seq<bv8>>, d: string)
    requires d != ""
    ensures Shown(log + RawEvents(id, bytes), d) == Shown(log, d)
    ensures Waiting(log + RawEvents(id, bytes)) <= Waiting(log)
  {
    var raw := RawEvents(id, bytes);
    if raw == [] {
      assert log + raw == log;
    } else {
      ShownSnoc(log, raw[0], d);
    }
  }

  lemma FrameEmission(c: Config, s: System, e: Event)
    requires e.Frame?
    ensures Step(c, s, e).log == (s.log + RawEvents(Snapshot(s, e).deviceId, e.bytes)) + Telemetries(Items(c, s, e))
  {
    if Passes(c, s, e) {
      assert Items(c, s, e)[..0] == [];
    }
  }

  /** One event changes what is shown about a drone by its items alone. */
  lemma EventEmits(c: Config, s: System, e: Event, d: string)
    requires Allowed(c, s, e) && d != ""
    ensures Shown(Step(c, s, e).log, d) == Overridden(LastItem(Items(c, s, e), d), Shown(s.log, d))
  {
    match e
    case Frame(_, _, _, _, bytes, _) =>
      FrameEmission(c, s, e);
      RawEmitted(s.log, Snapshot(s, e).deviceId, bytes, d);
      Emitted(s.log + RawEvents(Snapshot(s, e).deviceId, bytes), Items(c, s, e), d);
    case Tick(listed, _) => Emitted(s.log, listed, d);
    case Other(p) => ShownSnoc(s.log, p, d);
  }

  /** The log stands for the publisher itself: appending an event's emission is handing it to the publisher. */
  lemma {:induction false} LogFolds(log: seq<PublisherRuns.Event>, events: seq<PublisherRuns.Event>)
    ensures PublishedBy(log + events) == Folded(PublishedBy(log), events)
  {
    if events == [] {
      assert log + events == log;
    } else {
      var n := |events| - 1;
      LogFolds(log, events[..n]);
      assert log + events == (log + events[..n]) + [events[n]];
      PublishedSnoc(log + events[..n], events[n], Folded(PublishedBy(log), events[..n]));
    }
  }

  lemma PublishedSnoc(log: seq<PublisherRuns.Event>, e: PublisherRuns.Event, before: Publisher.State)
    requires PublishedBy(log) == before
    ensures PublishedBy(log + [e]) == PublisherRuns.Step(before, e)
  {
    LogSnoc(log, e);
  }

  // ------------------------------------------------------------ agreement

  /** What holds whether or not frames can be decoded. */
  ghost predicate Sane(s: System) {
    && (forall d :: d in s.states ==> s.states[d].deviceId == d && s.states[d].timestamp <= s.clock)
    && (forall d :: d in s.states && !s.states[d].connected ==> s.clock - s.states[d].timestamp > Aggregator.OFFLINE_AFTER_MS)
    && (forall d :: d in s.sent ==> d in s.states && s.sent[d].payload.connected && s.sent[d].at <= s.states[d].timestamp)
  }

  lemma SaneKept(c: Config, s: System, e: Event)
    requires Sane(s) && Allowed(c, s, e)
    ensures Sane(Step(c, s, e))
  {
  }

  lemma {:induction false} SaneAlways(c: Config, states: seq<System>, trace: seq<Event>, n: nat)
    requires IsRun(c, states, trace) && n < |states|
    ensures Sane(states[n])
  {
    if n > 0 {
      SaneAlways(c, states, trace, n - 1);
      assert Follows(c, states, trace, n - 1);
      SaneKept(c, states[n - 1], trace[n - 1]);
    }
  }

  predicate TrackedOnline(s: System, d: string) {
    d in s.states && s.states[d].connected
  }

  /**
   * The first frame of a drone, and the first one after it was announced offline, is never
   * suppressed: ten seconds of silence exceed the filter's maximum interval.
   */
  lemma RevivalPublished(c: Config, s: System, e: Event)
    requires Sane(s) && e.Frame? && s.clock <= e.at && c.minIntervalMs <= Filter.MAX_INTERVAL_MS
    requires e.deviceId != "" && !TrackedOnline(s, e.deviceId)
    ensures Passes(c, s, e) <==> e.msg.known
  {
  }

  /** The filter's own comparison of connected flags decides nothing here: what it remembers was connected, and so is every frame. */
  lemma ConnectedNeverCritical(c: Config, states: seq<System>, trace: seq<Event>, n: nat)
    requires IsRun(c, states, trace) && n < |trace| && trace[n].Frame? && trace[n].deviceId in states[n].sent
    ensures Snapshot(states[n], trace[n]).connected == states[n].sent[trace[n].deviceId].payload.connected
  {
    SaneAlways(c, states, trace, n);
  }

  predicate SaysWhat(shown: Option<Payload>, states: map<string, Payload>, d: string) {
    (shown.Some? <==> d in states) && (d in states ==> shown.value.connected == states[d].connected)
  }

  /** The last queued payload of `d` says about it what the aggregator says. */
  predicate Agrees(s: System, d: string) {
    SaysWhat(Shown(s.log, d), s.states, d)
  }

  /** A frame of `d` when it is new or tracked as offline. */
  predicate Revives(s: System, e: Event, d: string) {
    e.Frame? && e.deviceId == d && !TrackedOnline(s, d)
  }

  lemma {:induction false} LastItemListed(items: seq<Payload>, d: string)
    ensures LastItem(items, d).Some? <==> exists i :: 0 <= i < |items| && items[i].deviceId == d
    ensures LastItem(items, d).Some? ==> LastItem(items, d).value in items && LastItem(items, d).value.deviceId == d
  {
    if items != [] {
      LastItemListed(items[..|items| - 1], d);
    }
  }

  /** One event keeps agreement about a drone, unless it is an undecodable frame that revives it. */
  lemma AgreementStep(c: Config, s: System, e: Event, d: string)
    requires Sane(s) && Allowed(c, s, e) && Agrees(s, d) && d != "" && c.minIntervalMs <= Filter.MAX_INTERVAL_MS
    ensures Agrees(Step(c, s, e), d) <==> (Revives(s, e, d) ==> e.msg.known)
  {
    EventEmits(c, s, e, d);
    ItemsAgree(c, s, e, d, Shown(s.log, d));
  }

  lemma ItemsAgree(c: Config, s: System, e: Event, d: string, shown: Option<Payload>)
    requires Sane(s) && SaysWhat(shown, s.states, d) && d != "" && c.minIntervalMs <= Filter.MAX_INTERVAL_MS
    requires !e.Other? ==> s.clock <= e.at
    requires e.Tick? ==> Lists(e.listed, s.states, e.at)
    ensures SaysWhat(Overridden(LastItem(Items(c, s, e), d), shown), Step(c, s, e).states, d) <==> (Revives(s, e, d) ==> e.msg.known)
  {
    if e.Frame? {
      FrameItem(c, s, e, d);
      if Revives(s, e, d) {
        RevivalPublished(c, s, e);
      }
    } else if e.Tick? {
      TickItems(s, e, d);
    }
  }

  lemma FrameItem(c: Config, s: System, e: Event, d: string)
    requires Sane(s) && e.Frame?
    ensures LastItem(Items(c, s, e), d) == if e.deviceId == d && Passes(c, s, e) then Some(Snapshot(s, e)) else None
    ensures Snapshot(s, e).connected
  {
  }

  lemma TickItems(s: System, e: Event, d: string)
    requires e.Tick? && Lists(e.listed, s.states, e.at)
    ensures var expired, last := Aggregator.Expired(s.states, e.at, Aggregator.OFFLINE_AFTER_MS), LastItem(e.listed, d);
      (last.Some? <==> d in expired) && (last.Some? ==> !last.value.connected)
  {
    LastItemListed(e.listed, d);
  }

  predicate AgreesAt(states: seq<System>, n: nat, d: string) {
    n < |states| && Agrees(states[n], d)
  }

  /** Event `n` is a frame that revives drone `d` and cannot be decoded. */
  predicate RevivedUndecoded(states: seq<System>, trace: seq<Event>, n: nat, d: string) {
    n < |trace| && n < |states| && Revives(states[n], trace[n], d) && !trace[n].msg.known
  }

  lemma AgreementAt(c: Config, states: seq<System>, trace: seq<Event>, n: nat, d: string)
    requires IsRun(c, states, trace) && d != "" && c.minIntervalMs <= Filter.MAX_INTERVAL_MS
    requires n < |trace| && AgreesAt(states, n, d)
    ensures AgreesAt(states, n + 1, d) <==> !RevivedUndecoded(states, trace, n, d)
  {
    assert Follows(c, states, trace, n);
    SaneAlways(c, states, trace, n);
    AgreementStep(c, states[n], trace[n], d);
  }

  /**
   * In every run without queue drops, the last queued payload of a drone agrees with the
   * aggregator at all times exactly when each frame that revives the drone is decodable.
   */
  lemma PublishedLivenessIsTracked(c: Config, states: seq<System>, trace: seq<Event>, d: string)
    requires IsRun(c, states, trace) && d != "" && c.minIntervalMs <= Filter.MAX_INTERVAL_MS
    ensures (forall n: nat :: n <= |trace| ==> AgreesAt(states, n, d)) <==>
      (forall n: nat :: n < |trace| ==> !RevivedUndecoded(states, trace, n, d))
  {
    if forall n: nat :: n < |trace| ==> !RevivedUndecoded(states, trace, n, d) {
      forall n: nat | n <= |trace|
        ensures AgreesAt(states, n, d)
      {
        AgreesUpTo(c, states, trace, d, n);
      }
    } else if forall n: nat :: n <= |trace| ==> AgreesAt(states, n, d) {
      forall n: nat | n < |trace|
        ensures !RevivedUndecoded(states, trace, n, d)
      {
        AgreementAt(c, states, trace, n, d);
        assert AgreesAt(states, n + 1, d);
      }
    }
  }

  lemma {:induction false} AgreesUpTo(c: Config, states: seq<System>, trace: seq<Event>, d: string, n: nat)
    requires IsRun(c, states, trace) && n <= |trace| && d != "" && c.minIntervalMs <= Filter.MAX_INTERVAL_MS
    requires forall k: nat :: k < n ==> !RevivedUndecoded(states, trace, k, d)
    ensures AgreesAt(states, n, d)
  {
    if n > 0 {
      AgreesUpTo(c, states, trace, d, n - 1);
      AgreementAt(c, states, trace, n - 1, d);
    }
  }

  /** Once the queue is drained and every flush was delivered, `drone:states` is exactly the table of last queued payloads. */
  lemma DrainedShowsTable(s: System)
    requires PublisherRuns.AllDelivered(s.log, |s.log|) && Published(s).queue == []
    ensures Published(s).redis.states == Table(s.log)
  {
    PublisherRuns.BatchingRefines(s.log, |s.log|);
    PublisherRuns.QueuesConserve(s.log, |s.log|);
    var left := PublisherRuns.Left(s.log, |s.log|);
    assert left + [] == left;
  }

  /** So what a reader of `drone:states` sees about a drone is what the aggregator holds. */
  lemma ServerShowsTrackedLiveness(c: Config, states: seq<System>, trace: seq<Event>, d: string)
    requires IsRun(c, states, trace) && d != "" && c.minIntervalMs <= Filter.MAX_INTERVAL_MS
    requires forall n: nat :: n < |trace| ==> !RevivedUndecoded(states, trace, n, d)
    requires var s := states[|trace|]; PublisherRuns.AllDelivered(s.log, |s.log|) && Published(s).queue == []
    ensures var s := states[|trace|];
      && (d in Published(s).redis.states <==> d in s.states)
      && (d in s.states ==> Published(s).redis.states[d].connected == s.states[d].connected)
  {
    AgreesUpTo(c, states, trace, d, |trace|);
    DrainedShowsTable(states[|trace|]);
  }

  // ------------------------------------------------------- raw forwarding

  /** What a frame's bytes add to the raw queue: themselves, under the drone's name, while there is room. */
  function Forwarded(s: System, e: Event): seq<Publisher.RawItem> {
    if e.Frame? && e.deviceId != "" && e.bytes.Some? && e.bytes.value != [] && |Published(s).raw| < 2000
    then [Publisher.RawItem(e.deviceId, e.bytes.value)] else []
  }

  function ForwardedAll(states: seq<System>, trace: seq<Event>, n: nat): seq<Publisher.RawItem>
    requires n <= |trace| && n <= |states|
  {
    if n == 0 then [] else ForwardedAll(states, trace, n - 1) + Forwarded(states[n - 1], trace[n - 1])
  }

  lemma {:induction false} TelemetriesNotRaw(log: seq<PublisherRuns.Event>, items: seq<Payload>)
    ensures RawQueued(log + Telemetries(items)) == RawQueued(log)
  {
    if items == [] {
      assert log + Telemetries(items) == log;
    } else {
      var n := |items| - 1;
      TelemetriesNotRaw(log, items[..n]);
      var e := PublisherRuns.Telemetry(items[n]);
      assert log + Telemetries(items) == log + Telemetries(items[..n]) + [e];
      RawSnoc(log + Telemetries(items[..n]), e);
    }
  }

  lemma EventForwards(c: Config, s: System, e: Event)
    requires Proper(s, e) && (e.Frame? ==> Snapshot(s, e).deviceId == e.deviceId)
    ensures RawQueued(Step(c, s, e).log) == RawQueued(s.log) + Forwarded(s, e)
  {
    match e
    case Frame(d, _, _, _, bytes, _) =>
      FrameEmission(c, s, e);
      TelemetriesNotRaw(s.log + RawEvents(d, bytes), Items(c, s, e));
      if d != "" && bytes.Some? {
        RawSnoc(s.log, PublisherRuns.Raw(Publisher.RawItem(d, bytes.value)));
      } else {
        assert s.log + [] == s.log;
      }
    case Tick(listed, _) => TelemetriesNotRaw(s.log, listed);
    case Other(p) => RawSnoc(s.log, p);
  }

  lemma ForwardsOne(c: Config, s: System, e: Event, t: System, before: seq<Publisher.RawItem>)
    requires Sane(s) && Proper(s, e) && t == Step(c, s, e) && RawQueued(s.log) == before
    ensures RawQueued(t.log) == before + Forwarded(s, e)
  {
    EventForwards(c, s, e);
  }

  /**
   * Every frame's bytes are forwarded, known message or not, in order, under the resolved name:
   * the raw queue has accepted exactly those for which it had room.
   */
  lemma {:induction false} RawFramesForwarded(c: Config, states: seq<System>, trace: seq<Event>, n: nat)
    requires IsRun(c, states, trace) && n <= |trace|
    ensures RawQueued(states[n].log) == ForwardedAll(states, trace, n)
  {
    if n == 0 {
      assert states[0].log == [];
    } else {
      RawFramesForwarded(c, states, trace, n - 1);
      assert Follows(c, states, trace, n - 1);
      SaneAlways(c, states, trace, n - 1);
      ForwardsOne(c, states[n - 1], trace[n - 1], states[n], ForwardedAll(states, trace, n - 1));
    }
  }

  /** What a frame or a sweep queues for a drone is the drone's state right after it. */
  lemma QueuedIsTracked(c: Config, s: System, e: Event, i: nat)
    requires Sane(s) && Proper(s, e) && i < |Items(c, s, e)|
    ensures var p := Items(c, s, e)[i];
      p.deviceId in Step(c, s, e).states && Step(c, s, e).states[p.deviceId] == p
  {
  }
}
