/**
 * What the publisher keeps over every run of enqueues, flushes and focus updates:
 * order and conservation, equivalence with unbatched publishing, and the tiers.
 */
module PublisherRuns {
  import opened Models
  import opened Publisher

  datatype Event =
    | Telemetry(payload: Payload)
    | Raw(item: RawItem)
    | Flush(at: int, delivered: nat)
    | Focus(members: set<string>)

  function Step(s: State, e: Event): State {
    match e
    case Telemetry(p) => Enqueued(s, p)
    case Raw(item) => RawEnqueued(s, item)
    case Flush(at, delivered) => Flushed(s, at, delivered)
    case Focus(members) => s.(focus := members)
  }

  function After(trace: seq<Event>, n: nat): State
    requires n <= |trace|
  {
    if n == 0 then INITIAL else Step(After(trace, n - 1), trace[n - 1])
  }

  // --------------------------------------------------- FIFO, conservation

  /** The telemetry item an event adds to the queue, if it is accepted. */
  function AcceptedBy(s: State, e: Event): seq<Payload> {
    if e.Telemetry? && e.payload.deviceId != "" && |s.queue| < QUEUE_CAPACITY then [e.payload] else []
  }

  /** The telemetry items a flush takes. */
  function TakenBy(s: State, e: Event): seq<Payload> {
    if e.Flush? then Taken(s) else []
  }

  function RawAcceptedBy(s: State, e: Event): seq<RawItem> {
    if e.Raw? && e.item.deviceId != "" && e.item.bytes != [] && |s.raw| < QUEUE_CAPACITY then [e.item] else []
  }

  function RawTakenBy(s: State, e: Event): seq<RawItem> {
    if e.Flush? then RawTaken(s) else []
  }

  /** Everything accepted, and everything taken, by the first `n` events, in order. */
  function Accepted(trace: seq<Event>, n: nat): seq<Payload>
    requires n <= |trace|
  {
    if n == 0 then [] else Accepted(trace, n - 1) + AcceptedBy(After(trace, n - 1), trace[n - 1])
  }

  function Left(trace: seq<Event>, n: nat): seq<Payload>
    requires n <= |trace|
  {
    if n == 0 then [] else Left(trace, n - 1) + TakenBy(After(trace, n - 1), trace[n - 1])
  }

  function RawAccepted(trace: seq<Event>, n: nat): seq<RawItem>
    requires n <= |trace|
  {
    if n == 0 then [] else RawAccepted(trace, n - 1) + RawAcceptedBy(After(trace, n - 1), trace[n - 1])
  }

  function RawLeft(trace: seq<Event>, n: nat): seq<RawItem>
    requires n <= |trace|
  {
    if n == 0 then [] else RawLeft(trace, n - 1) + RawTakenBy(After(trace, n - 1), trace[n - 1])
  }

  lemma Shift<T>(accepted: seq<T>, left: seq<T>, queue: seq<T>, more: seq<T>, taken: seq<T>, rest: seq<T>)
    requires accepted == left + queue && queue + more == taken + rest
    ensures accepted + more == left + taken + rest
  {
    assert accepted + more == left + (queue + more);
  }

  lemma StepConserves(s: State, e: Event, accepted: seq<Payload>, left: seq<Payload>)
    requires accepted == left + s.queue
    ensures accepted + AcceptedBy(s, e) == left + TakenBy(s, e) + Step(s, e).queue
  {
    assert s.queue + AcceptedBy(s, e) == TakenBy(s, e) + Step(s, e).queue;
    Shift(accepted, left, s.queue, AcceptedBy(s, e), TakenBy(s, e), Step(s, e).queue);
  }

  lemma RawStepConserves(s: State, e: Event, accepted: seq<RawItem>, left: seq<RawItem>)
    requires accepted == left + s.raw
    ensures accepted + RawAcceptedBy(s, e) == left + RawTakenBy(s, e) + Step(s, e).raw
  {
    assert s.raw + RawAcceptedBy(s, e) == RawTakenBy(s, e) + Step(s, e).raw;
    Shift(accepted, left, s.raw, RawAcceptedBy(s, e), RawTakenBy(s, e), Step(s, e).raw);
  }

  lemma {:induction false} QueuesBounded(trace: seq<Event>, n: nat)
    requires n <= |trace|
    ensures |After(trace, n).queue| <= QUEUE_CAPACITY && |After(trace, n).raw| <= QUEUE_CAPACITY
  {
    if n > 0 {
      QueuesBounded(trace, n - 1);
    }
  }

  lemma {:induction false} TelemetryConserves(trace: seq<Event>, n: nat)
    requires n <= |trace|
    ensures Accepted(trace, n) == Left(trace, n) + After(trace, n).queue
  {
    if n > 0 {
      TelemetryConserves(trace, n - 1);
      StepConserves(After(trace, n - 1), trace[n - 1], Accepted(trace, n - 1), Left(trace, n - 1));
    }
  }

  lemma {:induction false} RawConserves(trace: seq<Event>, n: nat)
    requires n <= |trace|
    ensures RawAccepted(trace, n) == RawLeft(trace, n) + After(trace, n).raw
  {
    if n > 0 {
      RawConserves(trace, n - 1);
      RawStepConserves(After(trace, n - 1), trace[n - 1], RawAccepted(trace, n - 1), RawLeft(trace, n - 1));
    }
  }

  /** Items leave in the order they were accepted, none is lost or repeated, and the queues stay bounded. */
  lemma QueuesConserve(trace: seq<Event>, n: nat)
    requires n <= |trace|
    ensures Accepted(trace, n) == Left(trace, n) + After(trace, n).queue && |After(trace, n).queue| <= QUEUE_CAPACITY
    ensures RawAccepted(trace, n) == RawLeft(trace, n) + After(trace, n).raw && |After(trace, n).raw| <= QUEUE_CAPACITY
  {
    QueuesBounded(trace, n);
    TelemetryConserves(trace, n);
    RawConserves(trace, n);
  }

  // ------------------------------------------------------------ tiers

  /** A liveness entry. */
  datatype Stamp = Stamp(deviceId: string, score: int)

  /** A pipeline sorted by purpose: snapshots, liveness entries, full messages and full raw frames, each in order. */
  datatype Kinds = Kinds(hsets: seq<Payload>, zadds: seq<Stamp>, fulls: seq<Payload>, rawFulls: seq<RawItem>)

  function WithCommand(k: Kinds, c: Command): Kinds {
    match c
    case HSet(p) => k.(hsets := k.hsets + [p])
    case ZAdd(d, score) => k.(zadds := k.zadds + [Stamp(d, score)])
    case PublishFull(p) => k.(fulls := k.fulls + [p])
    case PublishRawFull(item) => k.(rawFulls := k.rawFulls + [item])
    case _ => k
  }

  function KindsFrom(k: Kinds, cs: seq<Command>): Kinds {
    if cs == [] then k else WithCommand(KindsFrom(k, cs[..|cs| - 1]), cs[|cs| - 1])
  }

  function KindsOf(cs: seq<Command>): Kinds {
    KindsFrom(Kinds([], [], [], []), cs)
  }

  lemma {:induction false} KindsAppend(k: Kinds, a: seq<Command>, b: seq<Command>)
    ensures KindsFrom(k, a + b) == KindsFrom(KindsFrom(k, a), b)
  {
    if b == [] {
      assert a + b == a;
    } else {
      KindsAppend(k, a, b[..|b| - 1]);
      assert (a + b)[..|a + b| - 1] == a + b[..|b| - 1];
    }
  }

  lemma KindsSnoc(k: Kinds, cs: seq<Command>, c: Command)
    ensures KindsFrom(k, cs + [c]) == WithCommand(KindsFrom(k, cs), c)
  {
    assert (cs + [c])[..|cs|] == cs;
  }

  function FocusedOnly(items: seq<Payload>, focus: set<string>): seq<Payload> {
    if items == [] then []
    else
      var p := items[|items| - 1];
      FocusedOnly(items[..|items| - 1], focus) + if p.deviceId in focus then [p] else []
  }

  function RawFocusedOnly(items: seq<RawItem>, focus: set<string>): seq<RawItem> {
    if items == [] then []
    else
      var p := items[|items| - 1];
      RawFocusedOnly(items[..|items| - 1], focus) + if p.deviceId in focus then [p] else []
  }

  /** Liveness entries of items flushed at `now`, in whole seconds. */
  function Stamps(items: seq<Payload>, now: int): seq<Stamp> {
    seq(|items|, i requires 0 <= i < |items| => Stamp(items[i].deviceId, now / 1000))
  }

  lemma KindsOfItem(k: Kinds, p: Payload, focused: bool, due: bool, now: int)
    ensures KindsFrom(k, TelemetryCommands(p, focused, due, now)) ==
      k.(hsets := k.hsets + [p], zadds := k.zadds + [Stamp(p.deviceId, now / 1000)], fulls := if focused then k.fulls + [p] else k.fulls)
  {
    var two := [HSet(p), ZAdd(p.deviceId, now / 1000)];
    KindsSnoc(k, [], HSet(p));
    KindsSnoc(k, [HSet(p)], ZAdd(p.deviceId, now / 1000));
    assert [HSet(p)] + [ZAdd(p.deviceId, now / 1000)] == two && [] + [HSet(p)] == [HSet(p)];
    var three := two + if focused then [PublishFull(p)] else [];
    if focused {
      KindsSnoc(k, two, PublishFull(p));
    } else {
      assert three == two;
    }
    if due {
      KindsSnoc(k, three, PublishLite(LiteOf(p)));
    } else {
      assert TelemetryCommands(p, focused, due, now) == three;
    }
  }

  /** A telemetry batch writes every item once, in order, and sends it in full exactly when its drone is focused. */
  lemma {:induction false} TelemetryFanout(items: seq<Payload>, focus: set<string>, last: map<string, int>, now: int)
    ensures KindsOf(TelemetryBatch(items, focus, last, now).commands) == Kinds(items, Stamps(items, now), FocusedOnly(items, focus), [])
  {
    if items != [] {
      var n := |items| - 1;
      TelemetryFanout(items[..n], focus, last, now);
      var before, p := TelemetryBatch(items[..n], focus, last, now), items[n];
      var focused, due := p.deviceId in focus, Due(before.last, p.deviceId, now);
      FanoutOne(before.commands, items[..n], p, focus, focused, due, now);
      assert items == items[..n] + [p];
    }
  }

  lemma FanoutOne(before: seq<Command>, items: seq<Payload>, p: Payload, focus: set<string>, focused: bool, due: bool, now: int)
    requires focused == (p.deviceId in focus)
    requires KindsOf(before) == Kinds(items, Stamps(items, now), FocusedOnly(items, focus), [])
    ensures KindsOf(before + TelemetryCommands(p, focused, due, now)) ==
      Kinds(items + [p], Stamps(items + [p], now), FocusedOnly(items + [p], focus), [])
  {
    KindsAppend(Kinds([], [], [], []), before, TelemetryCommands(p, focused, due, now));
    KindsOfItem(KindsOf(before), p, focused, due, now);
    assert (items + [p])[..|items|] == items;
    assert Stamps(items + [p], now) == Stamps(items, now) + [Stamp(p.deviceId, now / 1000)];
  }

  lemma {:induction false} RawFanout(k: Kinds, items: seq<RawItem>, focus: set<string>, last: map<string, int>, now: int)
    ensures KindsFrom(k, RawBatch(items, focus, last, now).commands) == k.(rawFulls := k.rawFulls + RawFocusedOnly(items, focus))
  {
    if items == [] {
      assert k.rawFulls + [] == k.rawFulls;
    } else {
      var n := |items| - 1;
      RawFanout(k, items[..n], focus, last, now);
      var before, item := RawBatch(items[..n], focus, last, now), items[n];
      var focused, due := item.deviceId in focus, Due(before.last, item.deviceId, now);
      var sorted := KindsFrom(k, before.commands);
      KindsAppend(k, before.commands, RawCommands(item, focused, due));
      RawFanoutOne(sorted, item, focused, due);
      RawAdded(k, sorted, KindsFrom(sorted, RawCommands(item, focused, due)), RawFocusedOnly(items[..n], focus),
               if focused then [item] else []);
    }
  }

  lemma RawAdded(k: Kinds, before: Kinds, after: Kinds, done: seq<RawItem>, one: seq<RawItem>)
    requires before == k.(rawFulls := k.rawFulls + done) && after == before.(rawFulls := before.rawFulls + one)
    ensures after == k.(rawFulls := k.rawFulls + (done + one))
  {
    assert (k.rawFulls + done) + one == k.rawFulls + (done + one);
  }

  lemma RawFanoutOne(k: Kinds, item: RawItem, focused: bool, due: bool)
    ensures KindsFrom(k, RawCommands(item, focused, due)) == k.(rawFulls := k.rawFulls + if focused then [item] else [])
  {
    KindsSnoc(k, [], PublishRawFull(item));
    KindsSnoc(k, [], PublishRawLite(item));
    assert [] + [PublishRawFull(item)] == [PublishRawFull(item)] && [] + [PublishRawLite(item)] == [PublishRawLite(item)];
    assert k.rawFulls + [] == k.rawFulls;
  }

  /** A whole flush: one snapshot and one liveness entry per telemetry item, full messages exactly for focused drones. */
  lemma FlushFanout(s: State, now: int)
    ensures KindsOf(FlushCommands(s, now)) ==
      Kinds(Taken(s), Stamps(Taken(s), now), FocusedOnly(Taken(s), s.focus), RawFocusedOnly(RawTaken(s), s.focus))
  {
    TelemetryFanout(Taken(s), s.focus, s.lastLite, now);
    var telemetry := TelemetryBatch(Taken(s), s.focus, s.lastLite, now).commands;
    RawFanout(KindsOf(telemetry), RawTaken(s), s.focus, s.lastRawLite, now);
    KindsAppend(Kinds([], [], [], []), telemetry, RawBatch(RawTaken(s), s.focus, s.lastRawLite, now).commands);
  }

  // -------------------------------------------------- batching refines

  /** Publishing items one at a time, without queue or pipeline. */
  function Unbatched(states: map<string, Payload>, items: seq<Payload>): map<string, Payload> {
    if items == [] then states
    else
      var p := items[|items| - 1];
      Unbatched(states, items[..|items| - 1])[p.deviceId := p]
  }

  lemma {:induction false} UnbatchedAppend(states: map<string, Payload>, a: seq<Payload>, b: seq<Payload>)
    ensures Unbatched(states, a + b) == Unbatched(Unbatched(states, a), b)
  {
    if b == [] {
      assert a + b == a;
    } else {
      UnbatchedAppend(states, a, b[..|b| - 1]);
      assert (a + b)[..|a + b| - 1] == a + b[..|b| - 1];
    }
  }

  lemma UnbatchedSnoc(states: map<string, Payload>, items: seq<Payload>, p: Payload)
    ensures Unbatched(states, items + [p]) == Unbatched(states, items)[p.deviceId := p]
  {
    assert (items + [p])[..|items|] == items;
  }

  /** One more command, on the hash and on the sorted pipeline. */
  lemma OneSnapshot(start: map<string, Payload>, before: Redis, k: Kinds, c: Command)
    requires before.states == Unbatched(start, k.hsets)
    ensures Applied(before, c).states == Unbatched(start, WithCommand(k, c).hsets)
  {
    if c.HSet? {
      UnbatchedSnoc(start, k.hsets, c.payload);
    }
  }

  /** Only snapshot commands reach `drone:states`. */
  lemma {:induction false} StatesFromSnapshots(r: Redis, cs: seq<Command>)
    ensures AppliedAll(r, cs).states == Unbatched(r.states, KindsOf(cs).hsets)
  {
    if cs != [] {
      var n := |cs| - 1;
      StatesFromSnapshots(r, cs[..n]);
      OneSnapshot(r.states, AppliedAll(r, cs[..n]), KindsOf(cs[..n]), cs[n]);
    }
  }

  function Beats(heartbeats: map<string, int>, stamps: seq<Stamp>): map<string, int> {
    if stamps == [] then heartbeats
    else Beats(heartbeats, stamps[..|stamps| - 1])[stamps[|stamps| - 1].deviceId := stamps[|stamps| - 1].score]
  }

  lemma BeatsSnoc(heartbeats: map<string, int>, stamps: seq<Stamp>, stamp: Stamp)
    ensures Beats(heartbeats, stamps + [stamp]) == Beats(heartbeats, stamps)[stamp.deviceId := stamp.score]
  {
    assert (stamps + [stamp])[..|stamps|] == stamps;
  }

  /** One more command, on the sorted set and on the sorted pipeline. */
  lemma OneHeartbeat(start: map<string, int>, before: Redis, k: Kinds, c: Command)
    requires before.heartbeats == Beats(start, k.zadds)
    ensures Applied(before, c).heartbeats == Beats(start, WithCommand(k, c).zadds)
  {
    if c.ZAdd? {
      BeatsSnoc(start, k.zadds, Stamp(c.deviceId, c.score));
    }
  }

  /** Only liveness entries reach `drone:heartbeats`. */
  lemma {:induction false} HeartbeatsFromStamps(r: Redis, cs: seq<Command>)
    ensures AppliedAll(r, cs).heartbeats == Beats(r.heartbeats, KindsOf(cs).zadds)
  {
    if cs != [] {
      var n := |cs| - 1;
      HeartbeatsFromStamps(r, cs[..n]);
      OneHeartbeat(r.heartbeats, AppliedAll(r, cs[..n]), KindsOf(cs[..n]), cs[n]);
    }
  }

  lemma {:induction false} BeatsOfStamps(heartbeats: map<string, int>, items: seq<Payload>, now: int, d: string)
    ensures var beats := Beats(heartbeats, Stamps(items, now));
      if Mentions(items, d) then d in beats && beats[d] == now / 1000
      else (d in beats <==> d in heartbeats) && (d in heartbeats ==> beats[d] == heartbeats[d])
  {
    if items != [] {
      var n := |items| - 1;
      BeatsOfStamps(heartbeats, items[..n], now, d);
      assert Stamps(items, now)[..n] == Stamps(items[..n], now);
    }
  }

  /** A delivered flush sets the heartbeat of exactly the drones it took items of, to its own time in seconds. */
  lemma FlushStampsTaken(s: State, now: int, delivered: nat, d: string)
    requires delivered >= |FlushCommands(s, now)|
    ensures var beats, before := Flushed(s, now, delivered).redis.heartbeats, s.redis.heartbeats;
      if Mentions(Taken(s), d) then d in beats && beats[d] == now / 1000
      else (d in beats <==> d in before) && (d in before ==> beats[d] == before[d])
  {
    var cs := FlushCommands(s, now);
    assert cs[..Min(delivered, |cs|)] == cs;
    FlushFanout(s, now);
    HeartbeatsFromStamps(s.redis, cs);
    BeatsOfStamps(s.redis.heartbeats, Taken(s), now, d);
  }

  /** The flush, if the event is one, delivered its whole pipeline. */
  predicate Delivers(s: State, e: Event) {
    e.Flush? ==> e.delivered >= |FlushCommands(s, e.at)|
  }

  predicate AllDelivered(trace: seq<Event>, n: nat)
    requires n <= |trace|
  {
    n == 0 || (AllDelivered(trace, n - 1) && Delivers(After(trace, n - 1), trace[n - 1]))
  }

  lemma StepRefines(s: State, e: Event, left: seq<Payload>)
    requires Delivers(s, e) && s.redis.states == Unbatched(map[], left)
    ensures Step(s, e).redis.states == Unbatched(map[], left + TakenBy(s, e))
  {
    if e.Flush? {
      var cs := FlushCommands(s, e.at);
      assert cs[..Min(e.delivered, |cs|)] == cs;
      FlushFanout(s, e.at);
      StatesFromSnapshots(s.redis, cs);
      UnbatchedAppend(map[], left, Taken(s));
    } else {
      assert left + [] == left;
    }
  }

  /** While flushes succeed, `drone:states` is what unbatched publishing of the items taken so far would give. */
  lemma {:induction false} BatchingRefines(trace: seq<Event>, n: nat)
    requires n <= |trace| && AllDelivered(trace, n)
    ensures After(trace, n).redis.states == Unbatched(map[], Left(trace, n))
  {
    if n > 0 {
      BatchingRefines(trace, n - 1);
      StepRefines(After(trace, n - 1), trace[n - 1], Left(trace, n - 1));
    }
  }

  // ------------------------------------------------------------ draining

  function AfterFlushes(s: State, times: seq<int>): State {
    if times == [] then s else Flushed(AfterFlushes(s, times[..|times| - 1]), times[|times| - 1], 0)
  }

  /** What is left of a queue after `n` hundreds were taken from its front. */
  function Rest<T>(queue: seq<T>, n: nat): seq<T> {
    if |queue| <= 100 * n then [] else queue[100 * n..]
  }

  lemma RestOfRest<T>(queue: seq<T>, n: nat)
    ensures Rest(queue, n)[|Front(Rest(queue, n))|..] == Rest(queue, n + 1)
  {
  }

  /** Without new items every flush takes a hundred of each queue, or what is left. */
  lemma {:induction false} FlushesDrain(s: State, times: seq<int>)
    ensures AfterFlushes(s, times).queue == Rest(s.queue, |times|)
    ensures AfterFlushes(s, times).raw == Rest(s.raw, |times|)
  {
    if times != [] {
      FlushesDrain(s, times[..|times| - 1]);
      RestOfRest(s.queue, |times| - 1);
      RestOfRest(s.raw, |times| - 1);
    }
  }

  // ------------------------------------------------------ lite throttle

  predicate IsLite(c: Command, d: string) {
    c.PublishLite? && c.lite.deviceId == d
  }

  predicate IsRawLite(c: Command, d: string) {
    c.PublishRawLite? && c.item.deviceId == d
  }

  /** How many lite messages about drone `d` a pipeline has. */
  function Lites(cs: seq<Command>, d: string): nat {
    if cs == [] then 0 else Lites(cs[..|cs| - 1], d) + if IsLite(cs[|cs| - 1], d) then 1 else 0
  }

  function RawLites(cs: seq<Command>, d: string): nat {
    if cs == [] then 0 else RawLites(cs[..|cs| - 1], d) + if IsRawLite(cs[|cs| - 1], d) then 1 else 0
  }

  lemma {:induction false} LitesAppend(a: seq<Command>, b: seq<Command>, d: string)
    ensures Lites(a + b, d) == Lites(a, d) + Lites(b, d) && RawLites(a + b, d) == RawLites(a, d) + RawLites(b, d)
  {
    if b == [] {
      assert a + b == a;
    } else {
      LitesAppend(a, b[..|b| - 1], d);
      assert (a + b)[..|a + b| - 1] == a + b[..|b| - 1];
    }
  }

  lemma LitesSnoc(cs: seq<Command>, c: Command, d: string)
    ensures Lites(cs + [c], d) == Lites(cs, d) + if IsLite(c, d) then 1 else 0
    ensures RawLites(cs + [c], d) == RawLites(cs, d) + if IsRawLite(c, d) then 1 else 0
  {
    assert (cs + [c])[..|cs|] == cs;
  }

  lemma LitesOfItem(p: Payload, focused: bool, due: bool, now: int, d: string)
    ensures Lites(TelemetryCommands(p, focused, due, now), d) == if due && p.deviceId == d then 1 else 0
    ensures RawLites(TelemetryCommands(p, focused, due, now), d) == 0
  {
    var two := [HSet(p), ZAdd(p.deviceId, now / 1000)];
    LitesSnoc([], HSet(p), d);
    LitesSnoc([HSet(p)], ZAdd(p.deviceId, now / 1000), d);
    assert [HSet(p)] + [ZAdd(p.deviceId, now / 1000)] == two && [] + [HSet(p)] == [HSet(p)];
    var three := two + if focused then [PublishFull(p)] else [];
    if focused {
      LitesSnoc(two, PublishFull(p), d);
    } else {
      assert three == two;
    }
    if due {
      LitesSnoc(three, PublishLite(LiteOf(p)), d);
    } else {
      assert TelemetryCommands(p, focused, due, now) == three;
    }
  }

  predicate Mentions(items: seq<Payload>, d: string) {
    items != [] && (items[|items| - 1].deviceId == d || Mentions(items[..|items| - 1], d))
  }

  predicate RawMentions(items: seq<RawItem>, d: string) {
    items != [] && (items[|items| - 1].deviceId == d || RawMentions(items[..|items| - 1], d))
  }

  /** The remembered time of drone `d` after a batch at `now` that sent it a lite message, or did not. */
  predicate RemembersSent(before: map<string, int>, after: map<string, int>, d: string, now: int, sent: bool) {
    if sent then d in after && after[d] == now
    else (d in after <==> d in before) && (d in before ==> after[d] == before[d])
  }

  /** A batch sends at most one lite message per drone: one exactly when the drone occurs and was due. */
  lemma {:induction false} TelemetryLites(items: seq<Payload>, focus: set<string>, last: map<string, int>, now: int, d: string)
    ensures var b, sent := TelemetryBatch(items, focus, last, now), Mentions(items, d) && Due(last, d, now);
      && Lites(b.commands, d) == (if sent then 1 else 0) && RawLites(b.commands, d) == 0
      && RemembersSent(last, b.last, d, now, sent)
  {
    if items != [] {
      var n := |items| - 1;
      TelemetryLites(items[..n], focus, last, now, d);
      var before, p := TelemetryBatch(items[..n], focus, last, now), items[n];
      var due := Due(before.last, p.deviceId, now);
      LitesOfItem(p, p.deviceId in focus, due, now, d);
      LitesAppend(before.commands, TelemetryCommands(p, p.deviceId in focus, due, now), d);
    }
  }

  lemma LitesOfRaw(item: RawItem, focused: bool, due: bool, d: string)
    ensures RawLites(RawCommands(item, focused, due), d) == if !focused && due && item.deviceId == d then 1 else 0
    ensures Lites(RawCommands(item, focused, due), d) == 0
  {
    LitesSnoc([], PublishRawFull(item), d);
    LitesSnoc([], PublishRawLite(item), d);
    assert [] + [PublishRawFull(item)] == [PublishRawFull(item)] && [] + [PublishRawLite(item)] == [PublishRawLite(item)];
  }

  /** One more raw item, on the remembered times alone: whether the drone has been sent a lite message in this batch. */
  lemma RawLiteOne(last: map<string, int>, mid: map<string, int>, item: RawItem, focus: set<string>, now: int, d: string, mentioned: bool)
    requires RemembersSent(last, mid, d, now, d !in focus && mentioned && Due(last, d, now))
    ensures var sends := item.deviceId !in focus && Due(mid, item.deviceId, now);
      var before := d !in focus && mentioned && Due(last, d, now);
      var after := d !in focus && (item.deviceId == d || mentioned) && Due(last, d, now);
      && RemembersSent(last, if sends then mid[item.deviceId := now] else mid, d, now, after)
      && (after <==> before || (sends && item.deviceId == d)) && !(before && sends && item.deviceId == d)
  {
  }

  lemma {:induction false} RawBatchLites(items: seq<RawItem>, focus: set<string>, last: map<string, int>, now: int, d: string)
    ensures var b, sent := RawBatch(items, focus, last, now), d !in focus && RawMentions(items, d) && Due(last, d, now);
      && RawLites(b.commands, d) == (if sent then 1 else 0) && Lites(b.commands, d) == 0
      && RemembersSent(last, b.last, d, now, sent)
  {
    if items != [] {
      var n := |items| - 1;
      RawBatchLites(items[..n], focus, last, now, d);
      var before, item := RawBatch(items[..n], focus, last, now), items[n];
      var focused, due := item.deviceId in focus, Due(before.last, item.deviceId, now);
      LitesOfRaw(item, focused, due, d);
      LitesAppend(before.commands, RawCommands(item, focused, due), d);
      RawLiteOne(last, before.last, item, focus, now, d, RawMentions(items[..n], d));
    }
  }

  /** A flush that sends drone `d` a lite telemetry message. */
  predicate SendsLite(s: State, e: Event, d: string) {
    e.Flush? && Mentions(Taken(s), d) && Due(s.lastLite, d, e.at)
  }

  predicate SendsRawLite(s: State, e: Event, d: string) {
    e.Flush? && d !in s.focus && RawMentions(RawTaken(s), d) && Due(s.lastRawLite, d, e.at)
  }

  /** The lite messages of one step about one drone, by what was queued and when the last ones were sent. */
  lemma StepLites(s: State, e: Event, d: string)
    ensures e.Flush? ==> Lites(FlushCommands(s, e.at), d) == if SendsLite(s, e, d) then 1 else 0
    ensures e.Flush? ==> RawLites(FlushCommands(s, e.at), d) == if SendsRawLite(s, e, d) then 1 else 0
    ensures e.Flush? ==> RemembersSent(s.lastLite, Step(s, e).lastLite, d, e.at, SendsLite(s, e, d))
    ensures e.Flush? ==> RemembersSent(s.lastRawLite, Step(s, e).lastRawLite, d, e.at, SendsRawLite(s, e, d))
    ensures !e.Flush? ==> Step(s, e).lastLite == s.lastLite && Step(s, e).lastRawLite == s.lastRawLite
  {
    if e.Flush? {
      TelemetryLites(Taken(s), s.focus, s.lastLite, e.at, d);
      RawBatchLites(RawTaken(s), s.focus, s.lastRawLite, e.at, d);
      LitesAppend(TelemetryBatch(Taken(s), s.focus, s.lastLite, e.at).commands,
                  RawBatch(RawTaken(s), s.focus, s.lastRawLite, e.at).commands, d);
    }
  }

  /** Times of the lite telemetry messages about drone `d` in one step, once per message. */
  function LiteTimesOf(s: State, e: Event, d: string): seq<int> {
    if e.Flush? then seq(Lites(FlushCommands(s, e.at), d), _ => e.at) else []
  }

  function RawLiteTimesOf(s: State, e: Event, d: string): seq<int> {
    if e.Flush? then seq(RawLites(FlushCommands(s, e.at), d), _ => e.at) else []
  }

  function LiteTimes(trace: seq<Event>, n: nat, d: string): seq<int>
    requires n <= |trace|
  {
    if n == 0 then [] else LiteTimes(trace, n - 1, d) + LiteTimesOf(After(trace, n - 1), trace[n - 1], d)
  }

  function RawLiteTimes(trace: seq<Event>, n: nat, d: string): seq<int>
    requires n <= |trace|
  {
    if n == 0 then [] else RawLiteTimes(trace, n - 1, d) + RawLiteTimesOf(After(trace, n - 1), trace[n - 1], d)
  }

  /** Times at least one second apart. */
  predicate Throttled(times: seq<int>) {
    forall i, j :: 0 <= i < j < |times| ==> times[j] - times[i] >= LITE_INTERVAL_MS
  }

  ghost predicate Remembers(last: map<string, int>, d: string, times: seq<int>) {
    if times == [] then d !in last else d in last && last[d] == times[|times| - 1]
  }

  /** One step of a throttled channel, on times alone. */
  lemma ThrottleStep(times: seq<int>, last: map<string, int>, after: map<string, int>, d: string, now: int, count: nat, sent: bool)
    requires Throttled(times) && Remembers(last, d, times) && RemembersSent(last, after, d, now, sent)
    requires sent ==> Due(last, d, now)
    requires count == if sent then 1 else 0
    ensures Throttled(times + seq(count, _ => now)) && Remembers(after, d, times + seq(count, _ => now))
  {
    assert seq(count, _ => now) == if sent then [now] else [];
  }

  /**
   * Over any run, lite messages about one drone are at least a second apart, on both
   * channels, and the publisher remembers the last one.
   */
  lemma {:induction false} LitesThrottled(trace: seq<Event>, n: nat, d: string)
    requires n <= |trace|
    ensures Throttled(LiteTimes(trace, n, d)) && Remembers(After(trace, n).lastLite, d, LiteTimes(trace, n, d))
    ensures Throttled(RawLiteTimes(trace, n, d)) && Remembers(After(trace, n).lastRawLite, d, RawLiteTimes(trace, n, d))
  {
    if n > 0 {
      LitesThrottled(trace, n - 1, d);
      var s, e := After(trace, n - 1), trace[n - 1];
      LitesStep(s, e, d, LiteTimes(trace, n - 1, d), RawLiteTimes(trace, n - 1, d));
    }
  }

  lemma LitesStep(s: State, e: Event, d: string, times: seq<int>, rawTimes: seq<int>)
    requires Throttled(times) && Remembers(s.lastLite, d, times)
    requires Throttled(rawTimes) && Remembers(s.lastRawLite, d, rawTimes)
    ensures Throttled(times + LiteTimesOf(s, e, d)) && Remembers(Step(s, e).lastLite, d, times + LiteTimesOf(s, e, d))
    ensures Throttled(rawTimes + RawLiteTimesOf(s, e, d)) && Remembers(Step(s, e).lastRawLite, d, rawTimes + RawLiteTimesOf(s, e, d))
  {
    StepLites(s, e, d);
    if e.Flush? {
      ThrottleStep(times, s.lastLite, Step(s, e).lastLite, d, e.at, Lites(FlushCommands(s, e.at), d), SendsLite(s, e, d));
      ThrottleStep(rawTimes, s.lastRawLite, Step(s, e).lastRawLite, d, e.at, RawLites(FlushCommands(s, e.at), d), SendsRawLite(s, e, d));
    } else {
      assert times + [] == times && rawTimes + [] == rawTimes;
    }
  }

  /**
   * And they are not withheld: a flush that takes an item of a drone sends exactly one lite
   * message about it if none was sent in the preceding second, and none otherwise; the same
   * holds for raw frames of a drone that is not focused.
   */
  lemma LiteSentIffDue(trace: seq<Event>, n: nat, d: string)
    requires n < |trace| && trace[n].Flush?
    ensures var s, times := After(trace, n), LiteTimes(trace, n, d);
      Lites(FlushCommands(s, trace[n].at), d) ==
        if Mentions(Taken(s), d) && (times == [] || trace[n].at - times[|times| - 1] >= LITE_INTERVAL_MS) then 1 else 0
    ensures var s, times := After(trace, n), RawLiteTimes(trace, n, d);
      RawLites(FlushCommands(s, trace[n].at), d) ==
        if d !in s.focus && RawMentions(RawTaken(s), d) && (times == [] || trace[n].at - times[|times| - 1] >= LITE_INTERVAL_MS)
        then 1 else 0
  {
    LitesThrottled(trace, n, d);
    StepLites(After(trace, n), trace[n], d);
  }

  // ------------------------------------------------------- lite contents

  /** Item `k` is the first one of drone `d`. */
  predicate IsFirst(items: seq<Payload>, k: nat, d: string) {
    k < |items| && items[k].deviceId == d && forall j :: 0 <= j < k ==> items[j].deviceId != d
  }

  predicate IsFirstRaw(items: seq<RawItem>, k: nat, d: string) {
    k < |items| && items[k].deviceId == d && forall j :: 0 <= j < k ==> items[j].deviceId != d
  }

  /** The lite message reports the payload's own values. */
  predicate Reports(l: Lite, p: Payload) {
    && l.deviceId == p.deviceId && l.connected == p.connected && l.armed == p.readings.armed
    && l.flightMode == p.readings.flightMode && l.batteryPct == p.readings.batteryPct
    && l.lat == p.readings.lat && l.lon == p.readings.lon && l.altRelativeM == p.readings.altRelativeM
    && l.groundSpeedMs == p.readings.groundSpeedMs && l.headingDeg == p.readings.headingDeg
    && l.rollDeg == p.readings.rollDeg && l.pitchDeg == p.readings.pitchDeg && l.timestamp == p.timestamp
  }

  ghost predicate ReportsFirst(l: Lite, items: seq<Payload>) {
    exists k: nat :: IsFirst(items, k, l.deviceId) && Reports(l, items[k])
  }

  ghost predicate RepeatsFirst(item: RawItem, items: seq<RawItem>) {
    exists k: nat :: IsFirstRaw(items, k, item.deviceId) && items[k].bytes == item.bytes
  }

  lemma {:induction false} MentionsIff(items: seq<Payload>, d: string)
    ensures Mentions(items, d) <==> exists j :: 0 <= j < |items| && items[j].deviceId == d
  {
    if items != [] {
      MentionsIff(items[..|items| - 1], d);
    }
  }

  lemma {:induction false} RawMentionsIff(items: seq<RawItem>, d: string)
    ensures RawMentions(items, d) <==> exists j :: 0 <= j < |items| && items[j].deviceId == d
  {
    if items != [] {
      RawMentionsIff(items[..|items| - 1], d);
    }
  }

  /** Once an item of a drone was treated, the drone is not due again in the same batch. */
  lemma NotDueAgain(items: seq<Payload>, focus: set<string>, last: map<string, int>, now: int, d: string)
    ensures Mentions(items, d) ==> !Due(TelemetryBatch(items, focus, last, now).last, d, now)
  {
    TelemetryLites(items, focus, last, now, d);
  }

  lemma RawNotDueAgain(items: seq<RawItem>, focus: set<string>, last: map<string, int>, now: int, d: string)
    ensures RawMentions(items, d) && d !in focus ==> !Due(RawBatch(items, focus, last, now).last, d, now)
  {
    RawBatchLites(items, focus, last, now, d);
  }

  lemma ReportsFirstKept(l: Lite, items: seq<Payload>, p: Payload)
    requires ReportsFirst(l, items)
    ensures ReportsFirst(l, items + [p])
  {
    var k: nat :| IsFirst(items, k, l.deviceId) && Reports(l, items[k]);
    assert IsFirst(items + [p], k, l.deviceId);
  }

  lemma RepeatsFirstKept(item: RawItem, items: seq<RawItem>, p: RawItem)
    requires RepeatsFirst(item, items)
    ensures RepeatsFirst(item, items + [p])
  {
    var k: nat :| IsFirstRaw(items, k, item.deviceId) && items[k].bytes == item.bytes;
    assert IsFirstRaw(items + [p], k, item.deviceId);
  }

  lemma {:induction false} BatchReportsFirst(items: seq<Payload>, focus: set<string>, last: map<string, int>, now: int, c: Command)
    requires c in TelemetryBatch(items, focus, last, now).commands
    ensures c.PublishLite? ==> ReportsFirst(c.lite, items)
    ensures !c.PublishRawLite?
  {
    var n := |items| - 1;
    var before, p := TelemetryBatch(items[..n], focus, last, now), items[n];
    assert items == items[..n] + [p];
    if c in before.commands {
      BatchReportsFirst(items[..n], focus, last, now, c);
      if c.PublishLite? {
        ReportsFirstKept(c.lite, items[..n], p);
      }
    } else if c.PublishLite? {
      NotDueAgain(items[..n], focus, last, now, p.deviceId);
      MentionsIff(items[..n], p.deviceId);
      assert IsFirst(items, n, p.deviceId) && Reports(c.lite, p);
    }
  }

  lemma {:induction false} BatchRepeatsFirst(items: seq<RawItem>, focus: set<string>, last: map<string, int>, now: int, c: Command)
    requires c in RawBatch(items, focus, last, now).commands
    ensures c.PublishRawLite? ==> RepeatsFirst(c.item, items)
    ensures !c.PublishLite?
  {
    var n := |items| - 1;
    var before, p := RawBatch(items[..n], focus, last, now), items[n];
    assert items == items[..n] + [p];
    if c in before.commands {
      BatchRepeatsFirst(items[..n], focus, last, now, c);
      if c.PublishRawLite? {
        RepeatsFirstKept(c.item, items[..n], p);
      }
    } else if c.PublishRawLite? {
      RawNotDueAgain(items[..n], focus, last, now, p.deviceId);
      RawMentionsIff(items[..n], p.deviceId);
      assert IsFirstRaw(items, n, p.deviceId);
    }
  }

  /**
   * What the lite messages of a flush say: each one reports, field by field, the first item of
   * its drone that the flush took, and each raw one repeats the bytes of its drone's first frame.
   */
  lemma LitesReportFirst(s: State, now: int, c: Command)
    requires c in FlushCommands(s, now)
    ensures c.PublishLite? ==> ReportsFirst(c.lite, Taken(s))
    ensures c.PublishRawLite? ==> RepeatsFirst(c.item, RawTaken(s))
  {
    if c in TelemetryBatch(Taken(s), s.focus, s.lastLite, now).commands {
      BatchReportsFirst(Taken(s), s.focus, s.lastLite, now, c);
    } else {
      BatchRepeatsFirst(RawTaken(s), s.focus, s.lastRawLite, now, c);
    }
  }
}
