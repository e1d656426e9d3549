/**
 * The Redis publisher: two bounded queues, a batched flush that turns queued items
 * into one pipeline of commands, and the focus list that selects full-rate drones.
 */
module Publisher {
  import opened Wrappers
  import opened Models

  const QUEUE_CAPACITY: nat := 2000
  const BATCH_LIMIT: nat := 100
  const LITE_INTERVAL_MS: int := 1000

  datatype RawItem = RawItem(deviceId: string, bytes: seq<bv8>)

  /** The reduced payload of the lite channel. */
  datatype Lite = Lite(deviceId: string, connected: bool, armed: bool, flightMode: string, batteryPct: int,
                       lat: real, lon: real, altRelativeM: real, groundSpeedMs: real, headingDeg: real,
                       rollDeg: real, pitchDeg: real, timestamp: int)

  function LiteOf(p: Payload): Lite {
    var r := p.readings;
    Lite(p.deviceId, p.connected, r.armed, r.flightMode, r.batteryPct, r.lat, r.lon, r.altRelativeM,
         r.groundSpeedMs, r.headingDeg, r.rollDeg, r.pitchDeg, p.timestamp)
  }

  datatype Command =
    | HSet(payload: Payload)
    | ZAdd(deviceId: string, score: int)
    | PublishFull(payload: Payload)
    | PublishLite(lite: Lite)
    | PublishRawFull(item: RawItem)
    | PublishRawLite(item: RawItem)

  /** The hash `drone:states` and the sorted set `drone:heartbeats`. */
  datatype Redis = Redis(states: map<string, Payload>, heartbeats: map<string, int>)

  function Applied(r: Redis, c: Command): Redis {
    match c
    case HSet(p) => r.(states := r.states[p.deviceId := p])
    case ZAdd(d, score) => r.(heartbeats := r.heartbeats[d := score])
    case _ => r
  }

  function AppliedAll(r: Redis, cs: seq<Command>): Redis {
    if cs == [] then r else Applied(AppliedAll(r, cs[..|cs| - 1]), cs[|cs| - 1])
  }

  // -------------------------------------------------------- one flush

  predicate Due(last: map<string, int>, d: string, now: int) {
    d !in last || now - last[d] >= LITE_INTERVAL_MS
  }

  /** Commands of a flush so far, and the times of the last lite messages. */
  datatype Batch = Batch(commands: seq<Command>, last: map<string, int>)

  function TelemetryCommands(p: Payload, focused: bool, due: bool, now: int): seq<Command> {
    [HSet(p), ZAdd(p.deviceId, now / 1000)]
    + (if focused then [PublishFull(p)] else [])
    + (if due then [PublishLite(LiteOf(p))] else [])
  }

  function TelemetryBatch(items: seq<Payload>, focus: set<string>, last: map<string, int>, now: int): Batch {
    if items == [] then Batch([], last)
    else
      var before := TelemetryBatch(items[..|items| - 1], focus, last, now);
      var p := items[|items| - 1];
      var due := Due(before.last, p.deviceId, now);
      Batch(before.commands + TelemetryCommands(p, p.deviceId in focus, due, now),
            if due then before.last[p.deviceId := now] else before.last)
  }

  function RawCommands(item: RawItem, focused: bool, due: bool): seq<Command> {
    if focused then [PublishRawFull(item)] else if due then [PublishRawLite(item)] else []
  }

  function RawBatch(items: seq<RawItem>, focus: set<string>, last: map<string, int>, now: int): Batch {
    if items == [] then Batch([], last)
    else
      var before := RawBatch(items[..|items| - 1], focus, last, now);
      var item := items[|items| - 1];
      var focused, due := item.deviceId in focus, Due(before.last, item.deviceId, now);
      Batch(before.commands + RawCommands(item, focused, due),
            if !focused && due then before.last[item.deviceId := now] else before.last)
  }

  /** One more item of a batch. */
  lemma TelemetryStep(items: seq<Payload>, n: nat, focus: set<string>, last: map<string, int>, now: int)
    requires n < |items|
    ensures var before, p := TelemetryBatch(items[..n], focus, last, now), items[n];
      var due := Due(before.last, p.deviceId, now);
      TelemetryBatch(items[..n + 1], focus, last, now) ==
        Batch(before.commands + TelemetryCommands(p, p.deviceId in focus, due, now),
              if due then before.last[p.deviceId := now] else before.last)
  {
    assert items[..n + 1][..n] == items[..n];
  }

  lemma RawStep(items: seq<RawItem>, n: nat, focus: set<string>, last: map<string, int>, now: int)
    requires n < |items|
    ensures var before, item := RawBatch(items[..n], focus, last, now), items[n];
      var focused, due := item.deviceId in focus, Due(before.last, item.deviceId, now);
      RawBatch(items[..n + 1], focus, last, now) ==
        Batch(before.commands + RawCommands(item, focused, due),
              if !focused && due then before.last[item.deviceId := now] else before.last)
  {
    assert items[..n + 1][..n] == items[..n];
  }

  function Min(a: nat, b: nat): nat {
    if a <= b then a else b
  }

  /** The publisher's collections and the server it writes to. */
  datatype State = State(queue: seq<Payload>, raw: seq<RawItem>, focus: set<string>,
                         lastLite: map<string, int>, lastRawLite: map<string, int>, redis: Redis)

  const INITIAL := State([], [], {}, map[], map[], Redis(map[], map[]))

  function Enqueued(s: State, p: Payload): State {
    if p.deviceId != "" && |s.queue| < QUEUE_CAPACITY then s.(queue := s.queue + [p]) else s
  }

  function RawEnqueued(s: State, item: RawItem): State {
    if item.deviceId != "" && item.bytes != [] && |s.raw| < QUEUE_CAPACITY then s.(raw := s.raw + [item]) else s
  }

  function Front<T>(queue: seq<T>): seq<T> {
    queue[..Min(|queue|, BATCH_LIMIT)]
  }

  /** The items a flush takes from the front of each queue. */
  function Taken(s: State): seq<Payload> {
    Front(s.queue)
  }

  function RawTaken(s: State): seq<RawItem> {
    Front(s.raw)
  }

  function FlushCommands(s: State, now: int): seq<Command> {
    TelemetryBatch(Taken(s), s.focus, s.lastLite, now).commands + RawBatch(RawTaken(s), s.focus, s.lastRawLite, now).commands
  }

  /** After a flush of which the first `delivered` commands reach the server. */
  function Flushed(s: State, now: int, delivered: nat): State {
    var commands := FlushCommands(s, now);
    State(s.queue[|Taken(s)|..], s.raw[|RawTaken(s)|..], s.focus,
          TelemetryBatch(Taken(s), s.focus, s.lastLite, now).last,
          RawBatch(RawTaken(s), s.focus, s.lastRawLite, now).last,
          AppliedAll(s.redis, commands[..Min(delivered, |commands|)]))
  }

  class RedisPublisher {
    var telemetryChan: seq<Payload>
    var rawChan: seq<RawItem>
    var focusMap: map<string, bool>
    var lastLiteSent: map<string, int>
    var lastRawLiteSent: map<string, int>
    /** The server behind the client. */
    var redis: Redis

    constructor (server: Redis)
      ensures View() == INITIAL.(redis := server)
    {
      telemetryChan, rawChan, focusMap, lastLiteSent, lastRawLiteSent, redis := [], [], map[], map[], map[], server;
    }

    function View(): State
      reads this
    {
      State(telemetryChan, rawChan, Focus(), lastLiteSent, lastRawLiteSent, redis)
    }

    function Focus(): set<string>
      reads this`focusMap
    {
      set d | d in focusMap && focusMap[d]
    }

    method PublishTelemetry(payload: Payload)
      modifies this`telemetryChan
      ensures View() == Enqueued(old(View()), payload)
    {
      if payload.deviceId == "" {
        return;
      }
      if |telemetryChan| < QUEUE_CAPACITY {
        telemetryChan := telemetryChan + [payload];
      }
    }

    method PublishRawFrame(deviceId: string, rawBytes: seq<bv8>)
      modifies this`rawChan
      ensures View() == RawEnqueued(old(View()), RawItem(deviceId, rawBytes))
    {
      if deviceId == "" || |rawBytes| == 0 {
        return;
      }
      if |rawChan| < QUEUE_CAPACITY {
        rawChan := rawChan + [RawItem(deviceId, rawBytes)];
      }
    }

    predicate IsFocused(deviceId: string)
      reads this
    {
      deviceId in focusMap && focusMap[deviceId]
    }

    /** First loop of a flush: telemetry items. */
    method FlushTelemetry(now: int) returns (pipe: seq<Command>)
      modifies this`telemetryChan, this`lastLiteSent
      ensures var batch := TelemetryBatch(Front(old(telemetryChan)), Focus(), old(lastLiteSent), now);
        pipe == batch.commands && lastLiteSent == batch.last
      ensures telemetryChan == old(telemetryChan)[|Front(old(telemetryChan))|..]
    {
      pipe := [];
      var telemetryCount := 0;
      ghost var all, focus := telemetryChan, Focus();
      while |telemetryChan| > 0 && telemetryCount < BATCH_LIMIT
        invariant 0 <= telemetryCount <= Min(|all|, BATCH_LIMIT)
        invariant telemetryChan == all[telemetryCount..]
        invariant TelemetryBatch(all[..telemetryCount], focus, old(lastLiteSent), now) == Batch(pipe, lastLiteSent)
        decreases |telemetryChan|
      {
        var item := telemetryChan[0];
        telemetryChan := telemetryChan[1..];
        TelemetryStep(all, telemetryCount, focus, old(lastLiteSent), now);
        telemetryCount := telemetryCount + 1;
        var commands := PipeTelemetry(item, now);
        pipe := pipe + commands;
      }
    }

    /** One telemetry item: snapshot, liveness, full message if focused, lite message if due. */
    method PipeTelemetry(item: Payload, now: int) returns (pipe: seq<Command>)
      modifies this`lastLiteSent
      ensures pipe == TelemetryCommands(item, IsFocused(item.deviceId), Due(old(lastLiteSent), item.deviceId, now), now)
      ensures lastLiteSent ==
        if Due(old(lastLiteSent), item.deviceId, now) then old(lastLiteSent)[item.deviceId := now] else old(lastLiteSent)
    {
      pipe := [HSet(item)];
      pipe := pipe + [ZAdd(item.deviceId, now / 1000)];
      if IsFocused(item.deviceId) {
        pipe := pipe + [PublishFull(item)];
      }
      if item.deviceId !in lastLiteSent || now - lastLiteSent[item.deviceId] >= LITE_INTERVAL_MS {
        lastLiteSent := lastLiteSent[item.deviceId := now];
        pipe := pipe + [PublishLite(LiteOf(item))];
      }
    }

    /** Second loop of a flush: raw frames, behind the telemetry commands. */
    method FlushRaw(now: int) returns (pipe: seq<Command>)
      modifies this`rawChan, this`lastRawLiteSent
      ensures var batch := RawBatch(Front(old(rawChan)), Focus(), old(lastRawLiteSent), now);
        pipe == batch.commands && lastRawLiteSent == batch.last
      ensures rawChan == old(rawChan)[|Front(old(rawChan))|..]
    {
      pipe := [];
      var rawCount := 0;
      ghost var all, focus := rawChan, Focus();
      while |rawChan| > 0 && rawCount < BATCH_LIMIT
        invariant 0 <= rawCount <= Min(|all|, BATCH_LIMIT)
        invariant rawChan == all[rawCount..]
        invariant RawBatch(all[..rawCount], focus, old(lastRawLiteSent), now) == Batch(pipe, lastRawLiteSent)
        decreases |rawChan|
      {
        var rawItem := rawChan[0];
        rawChan := rawChan[1..];
        RawStep(all, rawCount, focus, old(lastRawLiteSent), now);
        ghost var before, due := pipe, Due(lastRawLiteSent, rawItem.deviceId, now);
        rawCount := rawCount + 1;

        if IsFocused(rawItem.deviceId) {
          pipe := pipe + [PublishRawFull(rawItem)];
        } else if rawItem.deviceId !in lastRawLiteSent || now - lastRawLiteSent[rawItem.deviceId] >= LITE_INTERVAL_MS {
          lastRawLiteSent := lastRawLiteSent[rawItem.deviceId := now];
          pipe := pipe + [PublishRawLite(rawItem)];
        }
        assert pipe == before + RawCommands(rawItem, rawItem.deviceId in focus, due);
      }
    }

    /** One pipeline for everything taken; `delivered` commands of it reach the server. */
    method FlushBatch(now: int, delivered: nat)
      modifies this
      ensures View() == Flushed(old(View()), now, delivered)
    {
      var pipe := FlushTelemetry(now);
      var rawPipe := FlushRaw(now);
      pipe := pipe + rawPipe;
      if |pipe| > 0 {
        redis := AppliedAll(redis, pipe[..Min(delivered, |pipe|)]);
      }
    }

    /** Shutdown: the queues are drained, but the context is already cancelled, so nothing is delivered. */
    method FlushRemaining(clock: nat -> int)
      modifies this
      ensures telemetryChan == [] && rawChan == [] && redis == old(redis)
    {
      var n := 0;
      while |telemetryChan| > 0 || |rawChan| > 0
        invariant redis == old(redis)
        decreases |telemetryChan| + |rawChan|
      {
        FlushBatch(clock(n), 0);
        n := n + 1;
      }
    }

    /** Makes the focus list exactly the members read; a failed read leaves it alone. */
    method SyncFocusSetOnce(members: Option<seq<string>>)
      modifies this`focusMap
      ensures members.None? ==> focusMap == old(focusMap)
      ensures members.Some? ==> View().focus == set d | d in members.value
      ensures members.Some? ==> focusMap.Keys == set d | d in members.value
    {
      if members.None? {
        return;
      }
      var currentMap: map<string, bool> := map[];
      for i := 0 to |members.value|
        invariant forall d :: d in currentMap <==> d in members.value[..i]
        invariant forall d :: d in currentMap ==> currentMap[d] && d in focusMap && focusMap[d]
      {
        currentMap := currentMap[members.value[i] := true];
        focusMap := focusMap[members.value[i] := true];
      }
      var rest := focusMap.Keys;
      while rest != {}
        invariant rest <= focusMap.Keys
        invariant forall d :: d in currentMap ==> d in focusMap && focusMap[d]
        invariant forall d :: d in focusMap && d !in rest ==> d in currentMap
        decreases rest
      {
        var devId :| devId in rest;
        rest := rest - {devId};
        if devId !in currentMap || !currentMap[devId] {
          focusMap := focusMap - {devId};
        }
      }
      assert members.value[..|members.value|] == members.value;
    }
  }
}
