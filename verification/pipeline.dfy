/**
 * The ingestion service's event loop and heartbeat sweep: aggregator, filter and
 * publisher wired together, and what the wiring keeps about liveness.
 */
module Pipeline {
  import opened Wrappers
  import opened Models
  import Aggregator
  import Filter
  import Publisher
  import PublisherRuns
  import Resolver

  type Config = Filter.Config

  // ------------------------------------------------------ specification

  /** What one frame sends to the publisher: its bytes, and its snapshot if it was decoded and passes the filter. */
  function FrameEvents(c: Config, sent: map<string, Filter.Sent>, snapshot: Payload, bytes: Option<seq<bv8>>, known: bool, now: int)
    : seq<PublisherRuns.Event>
  {
    RawEvents(snapshot.deviceId, bytes)
    + if known && Filter.Publishes(c, Filter.LastOf(sent, snapshot.deviceId), snapshot, now) then [PublisherRuns.Telemetry(snapshot)] else []
  }

  function RawEvents(deviceId: string, bytes: Option<seq<bv8>>): seq<PublisherRuns.Event> {
    if deviceId != "" && bytes.Some? then [PublisherRuns.Raw(Publisher.RawItem(deviceId, bytes.value))] else []
  }

  function Telemetries(items: seq<Payload>): seq<PublisherRuns.Event> {
    if items == [] then [] else Telemetries(items[..|items| - 1]) + [PublisherRuns.Telemetry(items[|items| - 1])]
  }

  /** The publisher after a list of events. */
  function Folded(s: Publisher.State, events: seq<PublisherRuns.Event>): Publisher.State {
    if events == [] then s else PublisherRuns.Step(Folded(s, events[..|events| - 1]), events[|events| - 1])
  }

  // ------------------------------------------------------------ service

  class IngestionService {
    const ipResolver: Resolver.IPResolver
    const stateAggregator: Aggregator.StateAggregator
    const deadbandFilter: Filter.DeadbandFilter
    const redisPublisher: Publisher.RedisPublisher

    constructor (maxRateHz: int, distance: (real, real, real, real) -> real)
      ensures deadbandFilter.config == Filter.Config(Filter.MinInterval(maxRateHz), distance)
      ensures stateAggregator.states == map[] && redisPublisher.View() == Publisher.INITIAL
      ensures Valid() && deadbandFilter.State() == map[]
      ensures fresh(ipResolver) && fresh(stateAggregator) && fresh(deadbandFilter) && fresh(redisPublisher)
    {
      ipResolver := new Resolver.IPResolver();
      stateAggregator := new Aggregator.StateAggregator();
      deadbandFilter := new Filter.DeadbandFilter(maxRateHz, distance);
      redisPublisher := new Publisher.RedisPublisher(Publisher.Redis(map[], map[]));
    }

    ghost predicate Valid()
      reads deadbandFilter, stateAggregator
    {
      && deadbandFilter.Valid()
      && forall d :: d in stateAggregator.states ==> stateAggregator.states[d].deviceId == d
    }

    /** One received frame. System 0 and ground-station heartbeats are skipped; `bytes` is missing if serializing fails. */
    method HandleFrame(sysId: nat, fromGcs: bool, remoteIp: string, reply: Option<string>, bytes: Option<seq<bv8>>, msg: Message, now: int)
      requires Valid()
      modifies ipResolver, stateAggregator, deadbandFilter, redisPublisher
      ensures Valid()
      ensures sysId == 0 || fromGcs ==>
        unchanged(ipResolver) && unchanged(stateAggregator) && unchanged(deadbandFilter) && unchanged(redisPublisher)
      ensures !(sysId == 0 || fromGcs) ==>
        var d := Resolver.Answer(old(ipResolver.localCache), remoteIp, now, reply);
        var snapshot := Aggregator.Heard(old(stateAggregator.states), d, sysId, remoteIp, msg, now);
        var sent := old(deadbandFilter.State());
        && ipResolver.localCache == Resolver.Handled(old(ipResolver.localCache), Resolver.Resolved(remoteIp, now, now, now, reply))
        && stateAggregator.states == old(stateAggregator.states)[d := snapshot]
        && deadbandFilter.State() == (if msg.known then Filter.Offered(deadbandFilter.config, sent, snapshot, now) else sent)
        && redisPublisher.View() == Folded(old(redisPublisher.View()), FrameEvents(deadbandFilter.config, sent, snapshot, bytes, msg.known, now))
    {
      if sysId == 0 || fromGcs {
        return;
      }
      var deviceId := ipResolver.Resolve(remoteIp, now, reply, now);
      ghost var start, raw := redisPublisher.View(), RawEvents(deviceId, bytes);
      PublishRaw(deviceId, bytes);
      var snapshot, publish := Track(deviceId, sysId, remoteIp, msg, now);
      if publish {
        redisPublisher.PublishTelemetry(snapshot);
        FoldedAppend(start, raw, PublisherRuns.Telemetry(snapshot));
      } else {
        assert raw + [] == raw;
      }
    }

    /** The frame's bytes go out whether or not the message is known. */
    method PublishRaw(deviceId: string, bytes: Option<seq<bv8>>)
      modifies redisPublisher
      ensures redisPublisher.View() == Folded(old(redisPublisher.View()), RawEvents(deviceId, bytes))
    {
      FoldedSingle(redisPublisher.View());
      if deviceId != "" && bytes.Some? {
        redisPublisher.PublishRawFrame(deviceId, bytes.value);
      }
    }

    /** Folds the message into the drone's state and asks the filter about the snapshot. */
    method Track(deviceId: string, sysId: nat, remoteIp: string, msg: Message, now: int) returns (snapshot: Payload, publish: bool)
      requires Valid()
      modifies stateAggregator, deadbandFilter
      ensures Valid()
      ensures snapshot == Aggregator.Heard(old(stateAggregator.states), deviceId, sysId, remoteIp, msg, now)
      ensures snapshot.deviceId == deviceId
      ensures stateAggregator.states == old(stateAggregator.states)[deviceId := snapshot]
      ensures publish == (msg.known
        && Filter.Publishes(deadbandFilter.config, Filter.LastOf(old(deadbandFilter.State()), deviceId), snapshot, now))
      ensures deadbandFilter.State() ==
        if msg.known then Filter.Offered(deadbandFilter.config, old(deadbandFilter.State()), snapshot, now)
        else old(deadbandFilter.State())
    {
      var modified;
      snapshot, modified := stateAggregator.UpdateState(deviceId, sysId, remoteIp, msg, now);
      publish := false;
      if modified {
        publish := deadbandFilter.ShouldPublish(snapshot, now);
      }
    }

    /** One tick of the heartbeat sweep; `listed` is what it enqueued, in map order. */
    method SweepHeartbeats(now: int) returns (listed: seq<Payload>)
      requires Valid()
      modifies stateAggregator, redisPublisher
      ensures Valid()
      ensures stateAggregator.states == Aggregator.Swept(old(stateAggregator.states), now, Aggregator.OFFLINE_AFTER_MS)
      ensures Lists(listed, old(stateAggregator.states), now)
      ensures redisPublisher.View() == Folded(old(redisPublisher.View()), Telemetries(listed))
    {
      listed := stateAggregator.CheckHeartbeats(Aggregator.OFFLINE_AFTER_MS, now);
      ListsFromSweep(listed, old(stateAggregator.states), now);
      EnqueueAll(listed);
    }

    method EnqueueAll(listed: seq<Payload>)
      modifies redisPublisher
      ensures redisPublisher.View() == Folded(old(redisPublisher.View()), Telemetries(listed))
    {
      ghost var start := redisPublisher.View();
      for i := 0 to |listed|
        invariant redisPublisher.View() == Folded(start, Telemetries(listed[..i]))
      {
        redisPublisher.PublishTelemetry(listed[i]);
        assert listed[..i + 1][..i] == listed[..i];
        FoldedAppend(start, Telemetries(listed[..i]), PublisherRuns.Telemetry(listed[i]));
      }
      assert listed[..|listed|] == listed;
    }
  }

  lemma FoldedSingle(s: Publisher.State)
    ensures Folded(s, []) == s
    ensures forall e :: Folded(s, [e]) == PublisherRuns.Step(s, e)
  {
    forall e
      ensures Folded(s, [e]) == PublisherRuns.Step(s, e)
    {
      assert [e][..0] == [];
    }
  }

  lemma FoldedAppend(s: Publisher.State, events: seq<PublisherRuns.Event>, e: PublisherRuns.Event)
    ensures Folded(s, events + [e]) == PublisherRuns.Step(Folded(s, events), e)
  {
    assert (events + [e])[..|events|] == events;
  }

  /** A sweep lists the drones it marks, each once, with their new state. */
  ghost predicate Lists(listed: seq<Payload>, states: map<string, Payload>, now: int) {
    var expired := Aggregator.Expired(states, now, Aggregator.OFFLINE_AFTER_MS);
    && (forall i :: 0 <= i < |listed| ==>
         listed[i].deviceId in expired && listed[i] == states[listed[i].deviceId].(connected := false))
    && (forall d :: d in expired ==> exists i :: 0 <= i < |listed| && listed[i].deviceId == d)
  }

  lemma ListsFromSweep(listed: seq<Payload>, states: map<string, Payload>, now: int)
    requires forall d :: d in states ==> states[d].deviceId == d
    requires var after := Aggregator.Swept(states, now, Aggregator.OFFLINE_AFTER_MS);
      && (forall d :: d in Aggregator.Expired(states, now, Aggregator.OFFLINE_AFTER_MS) ==> after[d] in listed)
      && (forall p :: p in listed ==>
           p.deviceId in Aggregator.Expired(states, now, Aggregator.OFFLINE_AFTER_MS) && p == after[p.deviceId])
    ensures Lists(listed, states, now)
  {
    var after := Aggregator.Swept(states, now, Aggregator.OFFLINE_AFTER_MS);
    forall d | d in Aggregator.Expired(states, now, Aggregator.OFFLINE_AFTER_MS)
      ensures exists i :: 0 <= i < |listed| && listed[i].deviceId == d
    {
      assert after[d] in listed && after[d].deviceId == d;
    }
  }
}
