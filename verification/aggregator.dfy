/**
 * The state aggregator: one payload per drone, folded from its frames, and the
 * heartbeat sweep that marks silent drones as disconnected.
 */
module Aggregator {
  import opened Wrappers
  import opened Models

  const OFFLINE_AFTER_MS: int := 10000
  const SWEEP_EVERY_MS: int := 2000

  /** The payload a first frame starts from. */
  function NewPayload(deviceId: string, sysId: nat, vpnIp: string): Payload {
    Payload(deviceId, sysId, vpnIp, true, 0, 0, INITIAL_READINGS)
  }

  /** The drone's payload after a frame: heard now, connected, and decoded if the message is known. */
  function Heard(states: map<string, Payload>, deviceId: string, sysId: nat, vpnIp: string, msg: Message, now: int): Payload {
    var payload := if deviceId in states then states[deviceId] else NewPayload(deviceId, sysId, vpnIp);
    payload.(sysId := sysId, vpnIp := vpnIp, timestamp := now, lastHeartbeat := now, connected := true,
             readings := if msg.known then msg.decode(payload.readings) else payload.readings)
  }

  /** Connected drones whose last frame is older than the timeout. */
  function Expired(states: map<string, Payload>, now: int, timeout: int): set<string> {
    set d | d in states && states[d].connected && now - states[d].timestamp > timeout
  }

  function Swept(states: map<string, Payload>, now: int, timeout: int): map<string, Payload> {
    map d | d in states :: if d in Expired(states, now, timeout) then states[d].(connected := false) else states[d]
  }

  class StateAggregator {
    var states: map<string, Payload>

    constructor ()
      ensures states == map[]
    {
      states := map[];
    }

    method UpdateState(deviceId: string, sysId: nat, vpnIp: string, msg: Message, now: int)
      returns (snapshot: Payload, modified: bool)
      modifies this
      ensures snapshot == Heard(old(states), deviceId, sysId, vpnIp, msg, now) && modified == msg.known
      ensures states == old(states)[deviceId := snapshot]
    {
      if deviceId !in states {
        states := states[deviceId := NewPayload(deviceId, sysId, vpnIp)];
      }
      var payload := states[deviceId];
      payload := payload.(sysId := sysId, vpnIp := vpnIp);
      payload := payload.(timestamp := now, lastHeartbeat := now, connected := true);
      modified := msg.known;
      if modified {
        payload := payload.(readings := msg.decode(payload.readings));
      }
      states := states[deviceId := payload];
      snapshot := payload;
    }

    method GetSnapshot(deviceId: string) returns (snapshot: Option<Payload>)
      ensures snapshot == if deviceId in states then Some(states[deviceId]) else None
    {
      snapshot := if deviceId in states then Some(states[deviceId]) else None;
    }

    /** Marks silent drones and lists their snapshots, each drone once, in map order. */
    method CheckHeartbeats(timeout: int, now: int) returns (disconnected: seq<Payload>)
      requires forall d :: d in states ==> states[d].deviceId == d
      modifies this
      ensures states == Swept(old(states), now, timeout)
      ensures forall d :: d in Expired(old(states), now, timeout) ==> states[d] in disconnected
      ensures forall p :: p in disconnected ==> p.deviceId in Expired(old(states), now, timeout) && p == states[p.deviceId]
      ensures forall i, j :: 0 <= i < j < |disconnected| ==> disconnected[i].deviceId != disconnected[j].deviceId
    {
      disconnected := [];
      var rest := states.Keys;
      ghost var before := states;
      while rest != {}
        invariant SweepProgress(before, now, timeout, states, rest, disconnected)
        decreases rest
      {
        var d :| d in rest;
        var payload := states[d];
        SweepOne(before, now, timeout, states, rest, disconnected, d);
        if payload.connected && now - payload.timestamp > timeout {
          payload := payload.(connected := false);
          states := states[d := payload];
          disconnected := disconnected + [payload];
        }
        rest := rest - {d};
      }
      assert states == Swept(before, now, timeout);
    }
  }

  /** The sweep has treated every drone outside `rest`. */
  ghost predicate SweepProgress(before: map<string, Payload>, now: int, timeout: int,
                                states: map<string, Payload>, rest: set<string>, listed: seq<Payload>) {
    && rest <= before.Keys == states.Keys
    && (forall d :: d in before ==> before[d].deviceId == d)
    && (forall d :: d in before ==> states[d] == if d in rest then before[d] else Swept(before, now, timeout)[d])
    && (forall d :: d in Expired(before, now, timeout) && d !in rest ==> states[d] in listed)
    && (forall p :: p in listed ==> p.deviceId in Expired(before, now, timeout) && p.deviceId !in rest && p == states[p.deviceId])
    && (forall i, j :: 0 <= i < j < |listed| ==> listed[i].deviceId != listed[j].deviceId)
  }

  lemma SweepOne(before: map<string, Payload>, now: int, timeout: int,
                 states: map<string, Payload>, rest: set<string>, listed: seq<Payload>, d: string)
    requires SweepProgress(before, now, timeout, states, rest, listed) && d in rest
    ensures if d in Expired(before, now, timeout) then
              var offline := states[d].(connected := false);
              SweepProgress(before, now, timeout, states[d := offline], rest - {d}, listed + [offline])
            else SweepProgress(before, now, timeout, states, rest - {d}, listed)
  {
    assert forall i :: 0 <= i < |listed| ==> listed[i] in listed;
  }

  // -------------------------------------------------------------- traces

  datatype Event =
    | Frame(deviceId: string, sysId: nat, vpnIp: string, msg: Message, at: int)
    | Sweep(at: int)

  function Handled(states: map<string, Payload>, e: Event): map<string, Payload> {
    match e
    case Frame(d, sysId, ip, msg, at) => states[d := Heard(states, d, sysId, ip, msg, at)]
    case Sweep(at) => Swept(states, at, OFFLINE_AFTER_MS)
  }

  function After(trace: seq<Event>, n: nat): map<string, Payload>
    requires n <= |trace|
  {
    if n == 0 then map[] else Handled(After(trace, n - 1), trace[n - 1])
  }

  predicate FrameOf(trace: seq<Event>, i: nat, d: string) {
    i < |trace| && trace[i].Frame? && trace[i].deviceId == d
  }

  predicate SweepAt(trace: seq<Event>, i: nat) {
    i < |trace| && trace[i].Sweep?
  }

  /** The sweep at position `i` reports drone `d` as offline. */
  predicate Announced(trace: seq<Event>, i: nat, d: string) {
    SweepAt(trace, i) && d in Expired(After(trace, i), trace[i].at, OFFLINE_AFTER_MS)
  }

  /** Frame `f` is the last one of drone `d` before position `n`. */
  predicate IsLastFrame(trace: seq<Event>, n: nat, d: string, f: nat) {
    f < n && FrameOf(trace, f, d) && forall m: nat :: f < m < n ==> !FrameOf(trace, m, d)
  }

  ghost predicate AnnouncedBetween(trace: seq<Event>, f: nat, n: nat, d: string) {
    exists m: nat :: f < m < n && Announced(trace, m, d)
  }

  predicate Ordered(trace: seq<Event>) {
    forall i, j :: 0 <= i <= j < |trace| ==> trace[i].at <= trace[j].at
  }

  /** A drone's payload carries the time of its last frame, and is connected until it is announced. */
  ghost predicate Tracks(trace: seq<Event>, n: nat, d: string, f: nat)
    requires n <= |trace|
  {
    && IsLastFrame(trace, n, d, f) && d in After(trace, n)
    && After(trace, n)[d].deviceId == d && After(trace, n)[d].timestamp == trace[f].at
    && (After(trace, n)[d].connected <==> !AnnouncedBetween(trace, f, n, d))
  }

  lemma {:induction false} TableTracks(trace: seq<Event>, n: nat, d: string)
    requires n <= |trace|
    ensures if d in After(trace, n) then exists f: nat :: Tracks(trace, n, d, f)
            else forall f: nat :: f < n ==> !FrameOf(trace, f, d)
  {
    if n > 0 {
      TableTracks(trace, n - 1, d);
      if FrameOf(trace, n - 1, d) {
        DeviceIdKept(trace, n - 1, d);
        assert Tracks(trace, n, d, n - 1);
      } else if d in After(trace, n - 1) {
        var f: nat :| Tracks(trace, n - 1, d, f);
        assert Announced(trace, n - 1, d) ==> AnnouncedBetween(trace, f, n, d);
        assert AnnouncedBetween(trace, f, n - 1, d) ==> AnnouncedBetween(trace, f, n, d);
        assert Tracks(trace, n, d, f);
      }
    }
  }

  lemma {:induction false} DeviceIdKept(trace: seq<Event>, n: nat, d: string)
    requires n <= |trace|
    ensures d in After(trace, n) ==> After(trace, n)[d].deviceId == d
  {
    if n > 0 {
      DeviceIdKept(trace, n - 1, d);
    }
  }

  // ------------------------------------------------- what a payload holds

  /** The known messages of drone `d` among the first `n` events, in order. */
  function KnownMessages(trace: seq<Event>, n: nat, d: string): seq<Message>
    requires n <= |trace|
  {
    if n == 0 then []
    else KnownMessages(trace, n - 1, d) + if FrameOf(trace, n - 1, d) && trace[n - 1].msg.known then [trace[n - 1].msg] else []
  }

  /** Messages applied one after the other. */
  function DecodedAll(messages: seq<Message>, readings: Readings): Readings {
    if messages == [] then readings else messages[|messages| - 1].decode(DecodedAll(messages[..|messages| - 1], readings))
  }

  lemma DecodedSnoc(messages: seq<Message>, m: Message, readings: Readings)
    ensures DecodedAll(messages + [m], readings) == m.decode(DecodedAll(messages, readings))
  {
    assert (messages + [m])[..|messages|] == messages;
  }

  /** A drone's readings before its first known message. */
  predicate FactoryReadings(r: Readings) {
    && !r.armed && r.flightMode == "STABILIZE" && r.fixType == 3 && r.batteryPct == 100 && r.voltageMv == 0
    && r.lat == 0.0 && r.lon == 0.0 && r.altRelativeM == 0.0 && r.groundSpeedMs == 0.0
    && r.headingDeg == 0.0 && r.rollDeg == 0.0 && r.pitchDeg == 0.0
  }

  /**
   * Over every trace, a drone's readings are its own known messages applied in order to the
   * factory readings; unknown messages, frames of other drones and sweeps change none of them.
   */
  lemma {:induction false} ReadingsAreHistory(trace: seq<Event>, n: nat, d: string)
    requires n <= |trace|
    ensures FactoryReadings(INITIAL_READINGS)
    ensures if d in After(trace, n) then After(trace, n)[d].readings == DecodedAll(KnownMessages(trace, n, d), INITIAL_READINGS)
            else KnownMessages(trace, n, d) == []
  {
    if n > 0 {
      ReadingsAreHistory(trace, n - 1, d);
      if FrameOf(trace, n - 1, d) && trace[n - 1].msg.known {
        DecodedSnoc(KnownMessages(trace, n - 1, d), trace[n - 1].msg, INITIAL_READINGS);
      } else {
        assert KnownMessages(trace, n, d) == KnownMessages(trace, n - 1, d);
      }
    }
  }

  /** A drone's system id, address and heartbeat are those of its last frame, decodable or not. */
  ghost predicate LabelledBy(trace: seq<Event>, n: nat, d: string, f: nat)
    requires n <= |trace|
  {
    && IsLastFrame(trace, n, d, f) && d in After(trace, n)
    && var p, frame := After(trace, n)[d], trace[f];
      p.deviceId == d && p.sysId == frame.sysId && p.vpnIp == frame.vpnIp
      && p.lastHeartbeat == frame.at && p.timestamp == frame.at
  }

  lemma {:induction false} LabelsAreLastFrame(trace: seq<Event>, n: nat, d: string)
    requires n <= |trace|
    ensures if d in After(trace, n) then exists f: nat :: LabelledBy(trace, n, d, f)
            else forall f: nat :: f < n ==> !FrameOf(trace, f, d)
  {
    if n > 0 {
      var p := n - 1;
      LabelsAreLastFrame(trace, p, d);
      if FrameOf(trace, p, d) {
        DeviceIdKept(trace, p, d);
        assert LabelledBy(trace, n, d, p);
      } else if d in After(trace, p) {
        var f: nat :| LabelledBy(trace, p, d, f);
        assert LabelledBy(trace, n, d, f);
      }
    }
  }

  // -------------------------------------------------------- announcements

  /**
   * A sweep announces a drone exactly when its last frame is more than ten seconds old and
   * no sweep since that frame has announced it: nobody heard within ten seconds is
   * announced, and each outage is announced at most once.
   */
  lemma AnnouncedIff(trace: seq<Event>, n: nat, d: string)
    requires n < |trace| && trace[n].Sweep?
    ensures Announced(trace, n, d) <==>
      exists f: nat :: IsLastFrame(trace, n, d, f)
        && trace[n].at - trace[f].at > OFFLINE_AFTER_MS && !AnnouncedBetween(trace, f, n, d)
  {
    TableTracks(trace, n, d);
    if f: nat :| IsLastFrame(trace, n, d, f) {
      assert FrameOf(trace, f, d);
      assert d in After(trace, n);
      var g: nat :| Tracks(trace, n, d, g);
      assert forall h: nat :: IsLastFrame(trace, n, d, h) ==> h == g by {
        forall h: nat | IsLastFrame(trace, n, d, h)
          ensures h == g
        {
          assert h < g ==> !FrameOf(trace, g, d);
          assert g < h ==> !FrameOf(trace, h, d);
        }
      }
    }
  }

  /** Between two announcements of a drone there is a frame of it. */
  lemma AnnouncedOncePerOutage(trace: seq<Event>, m: nat, n: nat, d: string)
    requires m < n < |trace| && Announced(trace, m, d) && Announced(trace, n, d)
    ensures exists f: nat :: m < f < n && FrameOf(trace, f, d)
  {
    AnnouncedIff(trace, n, d);
    var f: nat :| IsLastFrame(trace, n, d, f) && !AnnouncedBetween(trace, f, n, d);
    assert f >= m;
  }

  /** Within two seconds after event `i` there is a sweep, if the trace lasts that long. */
  ghost predicate SweepFollows(trace: seq<Event>, i: nat) {
    i < |trace| && trace[|trace| - 1].at >= trace[i].at + SWEEP_EVERY_MS ==>
      exists j: nat :: i < j && SweepAt(trace, j) && trace[j].at <= trace[i].at + SWEEP_EVERY_MS
  }

  ghost predicate SweepsRegular(trace: seq<Event>) {
    forall i: nat :: SweepFollows(trace, i)
  }

  /** From any event at or before time `t`, some sweep falls into the two seconds after `t`. */
  lemma {:induction false} SweepSoonAfter(trace: seq<Event>, i: nat, t: int) returns (j: nat)
    requires Ordered(trace) && SweepsRegular(trace) && i < |trace| && trace[i].at <= t
    requires trace[|trace| - 1].at >= t + SWEEP_EVERY_MS
    ensures i < j && SweepAt(trace, j) && t < trace[j].at <= t + SWEEP_EVERY_MS
    decreases |trace| - i
  {
    assert SweepFollows(trace, i);
    j :| i < j && SweepAt(trace, j) && trace[j].at <= trace[i].at + SWEEP_EVERY_MS;
    if trace[j].at <= t {
      j := SweepSoonAfter(trace, j, t);
    }
  }

  /** A drone silent for twelve seconds after a frame has been announced within them. */
  lemma SilenceAnnounced(trace: seq<Event>, f: nat, d: string) returns (m: nat)
    requires Ordered(trace) && SweepsRegular(trace) && FrameOf(trace, f, d)
    requires trace[|trace| - 1].at >= trace[f].at + OFFLINE_AFTER_MS + SWEEP_EVERY_MS
    requires forall g: nat :: f < g && FrameOf(trace, g, d) ==> trace[g].at > trace[f].at + OFFLINE_AFTER_MS + SWEEP_EVERY_MS
    ensures f < m && Announced(trace, m, d)
    ensures trace[f].at + OFFLINE_AFTER_MS < trace[m].at <= trace[f].at + OFFLINE_AFTER_MS + SWEEP_EVERY_MS
  {
    var j := SweepSoonAfter(trace, f, trace[f].at + OFFLINE_AFTER_MS);
    assert IsLastFrame(trace, j, d, f);
    AnnouncedIff(trace, j, d);
    if AnnouncedBetween(trace, f, j, d) {
      m :| f < m < j && Announced(trace, m, d);
      AnnouncedIff(trace, m, d);
      var g: nat :| IsLastFrame(trace, m, d, g) && trace[m].at - trace[g].at > OFFLINE_AFTER_MS;
      assert g == f;
    } else {
      m := j;
    }
  }
}
