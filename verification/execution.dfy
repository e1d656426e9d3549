/**
 * The ingestion service at work: whatever frames, ticks, flushes and focus updates it is
 * given, in whatever order, its objects go through the states of the liveness model.
 */
module Execution {
  import opened Wrappers
  import opened Models
  import Filter
  import PublisherRuns
  import Resolver
  import opened Pipeline
  import opened Liveness

  /** What the event loop and the background loops hand to the service's objects. */
  datatype Input =
    | FrameIn(sysId: nat, fromGcs: bool, remoteIp: string, reply: Option<string>, bytes: Option<seq<bv8>>, msg: Message, at: int)
    | TickIn(at: int)
    | FlushIn(at: int, delivered: nat)
    | FocusIn(members: Option<seq<string>>)

  /** The objects hold what state `s` says. */
  ghost predicate Shows(service: IngestionService, s: System)
    reads service.stateAggregator, service.deadbandFilter, service.redisPublisher
  {
    && service.Valid()
    && service.stateAggregator.states == s.states
    && service.deadbandFilter.State() == s.sent
    && service.redisPublisher.View() == Published(s)
  }

  /** The publisher's state after an event is its state before with the emission handed to it. */
  lemma PublishedStep(c: Config, s: System, e: Event)
    ensures Published(Step(c, s, e)) == Folded(Published(s), Emission(c, s, e))
  {
    LogFolds(s.log, Emission(c, s, e));
  }

  /** A flush or a focus update is one event of the publisher. */
  lemma PublishedOther(c: Config, s: System, p: PublisherRuns.Event)
    ensures Published(Step(c, s, Other(p))) == PublisherRuns.Step(Published(s), p)
  {
    PublishedSnoc(s.log, p, Published(s));
  }

  /** A frame that is not skipped is one step of the model; a skipped one changes nothing. */
  method HandleFrame(service: IngestionService, input: Input, ghost s: System) returns (ghost event: Option<Event>)
    requires input.FrameIn? && Shows(service, s)
    modifies service.ipResolver, service.stateAggregator, service.deadbandFilter, service.redisPublisher
    ensures event.None? <==> input.sysId == 0 || input.fromGcs
    ensures event.None? ==> Shows(service, s)
    ensures event.Some? ==> Proper(s, event.value) && Shows(service, Step(service.deadbandFilter.config, s, event.value))
    ensures event.Some? ==> event.value == Frame(
      Resolver.Answer(old(service.ipResolver.localCache), input.remoteIp, input.at, input.reply),
      input.sysId, input.remoteIp, input.msg, input.bytes, input.at)
  {
    ghost var d := Resolver.Answer(service.ipResolver.localCache, input.remoteIp, input.at, input.reply);
    service.HandleFrame(input.sysId, input.fromGcs, input.remoteIp, input.reply, input.bytes, input.msg, input.at);
    event := None;
    if !(input.sysId == 0 || input.fromGcs) {
      event := Some(Frame(d, input.sysId, input.remoteIp, input.msg, input.bytes, input.at));
      PublishedStep(service.deadbandFilter.config, s, event.value);
    }
  }

  method HandleTick(service: IngestionService, at: int, ghost s: System) returns (ghost event: Event)
    requires Shows(service, s)
    modifies service.stateAggregator, service.redisPublisher
    ensures event.Tick? && event.at == at && Proper(s, event) && Shows(service, Step(service.deadbandFilter.config, s, event))
  {
    var listed := service.SweepHeartbeats(at);
    event := Tick(listed, at);
    PublishedStep(service.deadbandFilter.config, s, event);
  }

  method HandleFlush(service: IngestionService, at: int, delivered: nat, ghost s: System) returns (ghost event: Event)
    requires Shows(service, s)
    modifies service.redisPublisher
    ensures event == Other(PublisherRuns.Flush(at, delivered)) && Shows(service, Step(service.deadbandFilter.config, s, event))
  {
    service.redisPublisher.FlushBatch(at, delivered);
    event := Other(PublisherRuns.Flush(at, delivered));
    PublishedOther(service.deadbandFilter.config, s, event.e);
  }

  /** A failed read of the focus set changes nothing. */
  method HandleFocus(service: IngestionService, members: Option<seq<string>>, ghost s: System) returns (ghost event: Option<Event>)
    requires Shows(service, s)
    modifies service.redisPublisher
    ensures event == if members.None? then None else Some(Other(PublisherRuns.Focus(set d | d in members.value)))
    ensures Shows(service, if event.None? then s else Step(service.deadbandFilter.config, s, event.value))
  {
    service.redisPublisher.SyncFocusSetOnce(members);
    event := None;
    if members.Some? {
      event := Some(Other(PublisherRuns.Focus(set d | d in members.value)));
      PublishedOther(service.deadbandFilter.config, s, event.value.e);
    }
  }

  ghost predicate StepsProperly(c: Config, states: seq<System>, trace: seq<Event>, i: nat) {
    i < |trace| && i + 1 < |states| && Proper(states[i], trace[i]) && states[i + 1] == Step(c, states[i], trace[i])
  }

  /** Each state follows from the one before by its event. */
  ghost predicate Chain(c: Config, states: seq<System>, trace: seq<Event>) {
    |states| == |trace| + 1 && forall i: nat :: i < |trace| ==> StepsProperly(c, states, trace, i)
  }

  lemma ChainSnoc(c: Config, states: seq<System>, trace: seq<Event>, e: Event)
    requires Chain(c, states, trace) && Proper(states[|trace|], e)
    ensures Chain(c, states + [Step(c, states[|trace|], e)], trace + [e])
  {
    var more, longer := states + [Step(c, states[|trace|], e)], trace + [e];
    forall i: nat | i < |longer|
      ensures StepsProperly(c, more, longer, i)
    {
      assert i < |trace| ==> StepsProperly(c, states, trace, i);
    }
  }

  /** A chain from the start is a run of the model exactly while its clock is in order and its queue has room. */
  lemma ChainIsRun(c: Config, states: seq<System>, trace: seq<Event>)
    requires Chain(c, states, trace) && states[0] == START
    ensures IsRun(c, states, trace) <==> forall i: nat :: i < |trace| ==> InTimeWithRoom(c, states[i], trace[i])
  {
    forall i: nat | i < |trace|
      ensures Follows(c, states, trace, i) <==> InTimeWithRoom(c, states[i], trace[i])
    {
      assert StepsProperly(c, states, trace, i);
    }
  }

  method Handle(service: IngestionService, input: Input, ghost s: System) returns (ghost event: Option<Event>)
    requires Shows(service, s)
    modifies service.ipResolver, service.stateAggregator, service.deadbandFilter, service.redisPublisher
    ensures event.None? ==> Shows(service, s)
    ensures event.Some? ==> Proper(s, event.value) && Shows(service, Step(service.deadbandFilter.config, s, event.value))
  {
    match input
    case FrameIn(_, _, _, _, _, _, _) =>
      event := HandleFrame(service, input, s);
    case TickIn(at) =>
      ghost var tick := HandleTick(service, at, s);
      event := Some(tick);
    case FlushIn(at, delivered) =>
      ghost var flush := HandleFlush(service, at, delivered, s);
      event := Some(flush);
    case FocusIn(members) =>
      event := HandleFocus(service, members, s);
  }

  /** The service's loops over any schedule: its objects end in the last state of a chain from where they began. */
  method Serve(service: IngestionService, inputs: seq<Input>, ghost s: System)
    returns (ghost states: seq<System>, ghost trace: seq<Event>)
    requires Shows(service, s)
    modifies service.ipResolver, service.stateAggregator, service.deadbandFilter, service.redisPublisher
    ensures Chain(service.deadbandFilter.config, states, trace) && states[0] == s
    ensures Shows(service, states[|trace|]) && |trace| <= |inputs|
  {
    states, trace := [s], [];
    for n := 0 to |inputs|
      invariant Chain(service.deadbandFilter.config, states, trace) && states[0] == s
      invariant Shows(service, states[|trace|]) && |trace| <= n
    {
      ghost var event := Handle(service, inputs[n], states[|trace|]);
      if event.Some? {
        ChainSnoc(service.deadbandFilter.config, states, trace, event.value);
        states := states + [Step(service.deadbandFilter.config, states[|trace|], event.value)];
        trace := trace + [event.value];
      }
    }
  }

  /** A new service begins at the start of the model. */
  method Begin(maxRateHz: int, distance: (real, real, real, real) -> real) returns (service: IngestionService)
    ensures fresh(service) && Shows(service, START)
    ensures fresh(service.ipResolver) && fresh(service.stateAggregator)
    ensures fresh(service.deadbandFilter) && fresh(service.redisPublisher)
    ensures service.deadbandFilter.config.minIntervalMs <= Filter.MAX_INTERVAL_MS
  {
    service := new IngestionService(maxRateHz, distance);
  }
}
