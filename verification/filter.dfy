/**
 * The deadband filter: which snapshots of a drone are published. Sending happens at
 * once on a first sight or a critical change, never faster than the minimum interval
 * otherwise, and at the latest after the maximum interval.
 */
module Filter {
  import opened Wrappers
  import opened Models

  const MAX_INTERVAL_MS: int := 2000

  /** The configured minimum interval and the ground distance in metres between two positions. */
  datatype Config = Config(minIntervalMs: int, distance: (real, real, real, real) -> real)

  /** `NewDeadbandFilter`: a rate that is not positive falls back to 20 Hz; the interval is truncated to whole milliseconds. */
  function MinInterval(maxRateHz: int): (ms: int)
    ensures 0 <= ms <= 1000
    ensures maxRateHz > 0 ==> ms * maxRateHz <= 1000 < (ms + 1) * maxRateHz
    ensures maxRateHz <= 0 ==> ms == 50
  {
    var hz := if maxRateHz > 0 then maxRateHz else 20;
    DivisionBounds(1000, hz);
    1000 / hz
  }

  lemma DivisionBounds(n: nat, d: int)
    requires d > 0
    ensures 0 <= n / d <= n
    ensures n / d * d <= n < (n / d + 1) * d
  {
    var q, r := n / d, n % d;
    assert n == d * q + r && 0 <= r < d;
    assert q * d == d * q && (q + 1) * d == q * d + d;
    QuotientAtMost(q, d);
  }

  lemma {:induction false} QuotientAtMost(q: int, d: int)
    requires q >= 0 && d >= 1
    ensures q <= q * d
  {
    if q > 0 {
      QuotientAtMost(q - 1, d);
      assert q * d == (q - 1) * d + d;
    }
  }

  function Abs(x: real): real {
    if x < 0.0 then -x else x
  }

  /** Shortest angle between two headings. */
  function HeadingDiff(h1: real, h2: real): (d: real) {
    var diff := Abs(h1 - h2);
    if diff > 180.0 then 360.0 - diff else diff
  }

  /** On compass headings the difference is symmetric, at most half a turn, and zero exactly for equal directions. */
  lemma HeadingDiffIsAngle(h1: real, h2: real)
    requires 0.0 <= h1 <= 360.0 && 0.0 <= h2 <= 360.0
    ensures 0.0 <= HeadingDiff(h1, h2) <= 180.0 && HeadingDiff(h1, h2) == HeadingDiff(h2, h1)
    ensures HeadingDiff(h1, h2) == 0.0 <==> h1 == h2 || Abs(h1 - h2) == 360.0
    ensures forall turns: int :: HeadingDiff(h1, h2) <= Apart(h1, h2, turns)
    ensures exists turns: int :: HeadingDiff(h1, h2) == Apart(h1, h2, turns)
  {
    var d := h1 - h2;
    var turns := if d > 180.0 then -1 else if d < -180.0 then 1 else 0;
    assert HeadingDiff(h1, h2) == Apart(h1, h2, turns);
    forall t: int
      ensures HeadingDiff(h1, h2) <= Apart(h1, h2, t)
    {
      if t >= 2 || t <= -2 {
        assert t >= 2 ==> 360.0 * t as real >= 720.0;
        assert t <= -2 ==> 360.0 * t as real <= -720.0;
      }
    }
  }

  /** Distance between two headings after whole turns of one of them. */
  function Apart(h1: real, h2: real, turns: int): real {
    Abs(h1 - h2 + 360.0 * turns as real)
  }

  /** Two's complement difference of 32-bit numbers, as Go computes it. */
  function Minus32(a: int, b: int): int {
    var d := (a - b) % 0x1_0000_0000;
    if d >= 0x8000_0000 then d - 0x1_0000_0000 else d
  }

  // ----------------------------------------------------- when to publish

  predicate SameCritical(a: Payload, b: Payload) {
    && a.connected == b.connected
    && a.readings.flightMode == b.readings.flightMode
    && a.readings.armed == b.readings.armed
    && a.readings.fixType == b.readings.fixType
  }

  /** Every quantity is closer to the last published one than its threshold. */
  predicate WithinDeadband(c: Config, last: Readings, now: Readings) {
    && c.distance(last.lat, last.lon, now.lat, now.lon) < 0.2
    && Abs(now.altRelativeM - last.altRelativeM) < 0.1
    && Abs(now.groundSpeedMs - last.groundSpeedMs) < 0.2
    && HeadingDiff(last.headingDeg, now.headingDeg) < 1.0
    && Abs(now.rollDeg - last.rollDeg) < 0.8
    && Abs(now.pitchDeg - last.pitchDeg) < 0.8
    && Minus32(now.batteryPct, last.batteryPct) == 0
    && -100 < now.voltageMv - last.voltageMv < 100
  }

  datatype Sent = Sent(payload: Payload, at: int)

  /** The decision, from the last published snapshot of the same drone. */
  predicate Publishes(c: Config, last: Option<Sent>, snapshot: Payload, now: int) {
    snapshot.deviceId != "" &&
    match last
    case None => true
    case Some(sent) =>
      || !SameCritical(snapshot, sent.payload)
      || (now - sent.at >= c.minIntervalMs
          && (now - sent.at >= MAX_INTERVAL_MS || !WithinDeadband(c, sent.payload.readings, snapshot.readings)))
  }

  function LastOf(sent: map<string, Sent>, d: string): Option<Sent> {
    if d in sent then Some(sent[d]) else None
  }

  /** The table of last published snapshots after one sample. */
  function Offered(c: Config, sent: map<string, Sent>, snapshot: Payload, now: int): map<string, Sent> {
    if Publishes(c, LastOf(sent, snapshot.deviceId), snapshot, now) then sent[snapshot.deviceId := Sent(snapshot, now)] else sent
  }

  class DeadbandFilter {
    const config: Config
    var lastSent: map<string, Payload>
    var lastSentTime: map<string, int>

    constructor (maxRateHz: int, distance: (real, real, real, real) -> real)
      ensures config == Config(MinInterval(maxRateHz), distance)
      ensures Valid() && State() == map[]
    {
      config := Config(MinInterval(maxRateHz), distance);
      lastSent, lastSentTime := map[], map[];
    }

    ghost predicate Valid()
      reads this
    {
      lastSent.Keys == lastSentTime.Keys
    }

    ghost function State(): map<string, Sent>
      reads this
      requires Valid()
    {
      map d | d in lastSent :: Sent(lastSent[d], lastSentTime[d])
    }

    method ShouldPublish(snapshot: Payload, now: int) returns (publish: bool)
      requires Valid()
      modifies this
      ensures Valid()
      ensures publish == Publishes(config, LastOf(old(State()), snapshot.deviceId), snapshot, now)
      ensures State() == Offered(config, old(State()), snapshot, now)
    {
      if snapshot.deviceId == "" {
        return false;
      }
      if snapshot.deviceId !in lastSent {
        MarkSent(snapshot, now);
        return true;
      }
      var last := lastSent[snapshot.deviceId];
      var lastTime := lastSentTime[snapshot.deviceId];
      assert LastOf(State(), snapshot.deviceId) == Some(Sent(last, lastTime));
      var reading, prior := snapshot.readings, last.readings;

      if reading.flightMode != prior.flightMode || reading.armed != prior.armed
         || snapshot.connected != last.connected || reading.fixType != prior.fixType {
        MarkSent(snapshot, now);
        return true;
      }
      if now - lastTime < config.minIntervalMs {
        return false;
      }
      if now - lastTime >= MAX_INTERVAL_MS {
        MarkSent(snapshot, now);
        return true;
      }
      if config.distance(prior.lat, prior.lon, reading.lat, reading.lon) >= 0.2 {
        MarkSent(snapshot, now);
        return true;
      }
      if Abs(reading.altRelativeM - prior.altRelativeM) >= 0.1 {
        MarkSent(snapshot, now);
        return true;
      }
      if Abs(reading.groundSpeedMs - prior.groundSpeedMs) >= 0.2 {
        MarkSent(snapshot, now);
        return true;
      }
      if HeadingDiff(prior.headingDeg, reading.headingDeg) >= 1.0 {
        MarkSent(snapshot, now);
        return true;
      }
      if Abs(reading.rollDeg - prior.rollDeg) >= 0.8 || Abs(reading.pitchDeg - prior.pitchDeg) >= 0.8 {
        MarkSent(snapshot, now);
        return true;
      }
      var batteryStep, voltageStep := Minus32(reading.batteryPct, prior.batteryPct), reading.voltageMv - prior.voltageMv;
      if batteryStep >= 1 || -batteryStep >= 1 || voltageStep >= 100 || -voltageStep >= 100 {
        MarkSent(snapshot, now);
        return true;
      }
      publish := false;
    }

    method MarkSent(snapshot: Payload, now: int)
      requires Valid()
      modifies this
      ensures Valid() && State() == old(State())[snapshot.deviceId := Sent(snapshot, now)]
    {
      lastSent := lastSent[snapshot.deviceId := snapshot];
      lastSentTime := lastSentTime[snapshot.deviceId := now];
    }
  }

  // ------------------------------------------------------------- traces

  /** One snapshot offered to the filter at one time. */
  datatype Sample = Sample(payload: Payload, at: int)

  /** The table after the first `n` samples of a trace. */
  ghost function After(c: Config, trace: seq<Sample>, n: nat): map<string, Sent>
    requires n <= |trace|
  {
    if n == 0 then map[] else Offered(c, After(c, trace, n - 1), trace[n - 1].payload, trace[n - 1].at)
  }

  ghost predicate PublishedAt(c: Config, trace: seq<Sample>, i: nat)
    requires i < |trace|
  {
    Publishes(c, LastOf(After(c, trace, i), trace[i].payload.deviceId), trace[i].payload, trace[i].at)
  }

  predicate Of(trace: seq<Sample>, i: nat, d: string) {
    i < |trace| && trace[i].payload.deviceId == d
  }

  /** Sample `j` is the last published one of drone `d` before sample `n`. */
  ghost predicate IsLastPublished(c: Config, trace: seq<Sample>, n: nat, d: string, j: nat)
    requires n <= |trace|
  {
    && j < n && Of(trace, j, d) && PublishedAt(c, trace, j)
    && forall m: nat :: j < m < n && Of(trace, m, d) ==> !PublishedAt(c, trace, m)
  }

  /** The table holds, for each drone, exactly its last published sample. */
  lemma {:induction false} TableIsHistory(c: Config, trace: seq<Sample>, n: nat, d: string)
    requires n <= |trace|
    ensures match LastOf(After(c, trace, n), d)
      case None => forall m: nat :: m < n && Of(trace, m, d) ==> !PublishedAt(c, trace, m)
      case Some(sent) => exists j: nat :: IsLastPublished(c, trace, n, d, j) && sent == Sent(trace[j].payload, trace[j].at)
  {
    if n > 0 {
      TableIsHistory(c, trace, n - 1, d);
      if Of(trace, n - 1, d) && PublishedAt(c, trace, n - 1) {
        assert IsLastPublished(c, trace, n, d, n - 1);
      } else if d in After(c, trace, n - 1) {
        var j: nat :| IsLastPublished(c, trace, n - 1, d, j) && After(c, trace, n - 1)[d] == Sent(trace[j].payload, trace[j].at);
        assert IsLastPublished(c, trace, n, d, j);
      }
    }
  }

  /**
   * No creeping drift: a sample is suppressed exactly when an earlier sample of the drone was
   * published, none since, it shares that one's critical fields, and it is either too soon
   * after it or within every threshold of it (not of some unpublished sample in between).
   */
  lemma SuppressedIffClose(c: Config, trace: seq<Sample>, i: nat)
    requires i < |trace| && trace[i].payload.deviceId != ""
    ensures !PublishedAt(c, trace, i) <==>
      exists j: nat :: IsLastPublished(c, trace, i, trace[i].payload.deviceId, j)
        && SameCritical(trace[i].payload, trace[j].payload)
        && (var elapsed := trace[i].at - trace[j].at;
            elapsed < c.minIntervalMs
            || (elapsed < MAX_INTERVAL_MS && WithinDeadband(c, trace[j].payload.readings, trace[i].payload.readings)))
  {
    var d := trace[i].payload.deviceId;
    TableIsHistory(c, trace, i, d);
    if j: nat :| IsLastPublished(c, trace, i, d, j) {
      LastPublishedUnique(c, trace, i, d);
    }
  }

  /** The field is a 32-bit number. */
  predicate IsInt32(n: int) {
    -0x8000_0000 <= n < 0x8000_0000
  }

  /**
   * The same by the numbers: what a suppressed sample has in common with the last published one.
   * In particular any other flight mode, arming, fix, connection or battery percentage publishes,
   * the last once the minimum interval is over.
   */
  lemma SuppressedByNumbers(c: Config, trace: seq<Sample>, i: nat)
    requires i < |trace| && trace[i].payload.deviceId != ""
    requires forall k :: 0 <= k < |trace| ==> IsInt32(trace[k].payload.readings.batteryPct)
    ensures !PublishedAt(c, trace, i) <==>
      exists j: nat :: IsLastPublished(c, trace, i, trace[i].payload.deviceId, j)
        && (var p, q, elapsed := trace[i].payload, trace[j].payload, trace[i].at - trace[j].at;
            var r, l := p.readings, q.readings;
            var turn := if r.headingDeg >= l.headingDeg then r.headingDeg - l.headingDeg else l.headingDeg - r.headingDeg;
            && p.connected == q.connected && r.flightMode == l.flightMode && r.armed == l.armed && r.fixType == l.fixType
            && (elapsed < c.minIntervalMs
                || (&& elapsed < 2000
                    && c.distance(l.lat, l.lon, r.lat, r.lon) < 0.2
                    && -0.1 < r.altRelativeM - l.altRelativeM < 0.1
                    && -0.2 < r.groundSpeedMs - l.groundSpeedMs < 0.2
                    && (turn < 1.0 || turn > 359.0)
                    && -0.8 < r.rollDeg - l.rollDeg < 0.8
                    && -0.8 < r.pitchDeg - l.pitchDeg < 0.8
                    && r.batteryPct == l.batteryPct
                    && -100 < r.voltageMv - l.voltageMv < 100)))
  {
    SuppressedIffClose(c, trace, i);
  }

  /** A snapshot without a name is never published and never remembered. */
  lemma UnnamedNeverPublished(c: Config, trace: seq<Sample>, i: nat)
    requires i < |trace| && trace[i].payload.deviceId == ""
    ensures !PublishedAt(c, trace, i) && After(c, trace, i + 1) == After(c, trace, i)
  {
  }

  lemma LastPublishedUnique(c: Config, trace: seq<Sample>, n: nat, d: string)
    requires n <= |trace|
    ensures forall j: nat, k: nat :: IsLastPublished(c, trace, n, d, j) && IsLastPublished(c, trace, n, d, k) ==> j == k
  {
  }

  predicate Ordered(trace: seq<Sample>) {
    forall i, j :: 0 <= i <= j < |trace| ==> trace[i].at <= trace[j].at
  }

  /** If samples `i` and `j` of drone `d` are more than `g` apart, another one lies between. */
  ghost predicate NoGap(trace: seq<Sample>, d: string, g: int, i: nat, j: nat) {
    i < j && Of(trace, i, d) && Of(trace, j, d) && trace[j].at - trace[i].at > g ==>
      exists m: nat :: i < m < j && Of(trace, m, d)
  }

  /** Samples of drone `d` arrive at most `g` apart. */
  ghost predicate Spaced(trace: seq<Sample>, d: string, g: int) {
    forall i: nat, j: nat :: NoGap(trace, d, g, i, j)
  }

  /** The last sample of drone `d` in `from..n`. */
  ghost function Latest(trace: seq<Sample>, from: nat, n: nat, d: string): (m: nat)
    requires from < n <= |trace| && Of(trace, from, d)
    ensures from <= m < n && Of(trace, m, d)
    ensures forall k: nat :: m < k < n ==> !Of(trace, k, d)
  {
    if Of(trace, n - 1, d) then n - 1 else Latest(trace, from, n - 1, d)
  }

  /**
   * Bounded silence: when samples of a drone arrive at most `g` apart, each of them comes
   * less than the maximum interval plus `g` after the last publication before it.
   */
  lemma SilenceBounded(c: Config, trace: seq<Sample>, d: string, g: int, i: nat, j: nat)
    requires Ordered(trace) && Spaced(trace, d, g) && d != ""
    requires c.minIntervalMs <= MAX_INTERVAL_MS
    requires j < |trace| && Of(trace, j, d) && IsLastPublished(c, trace, j, d, i)
    ensures trace[j].at - trace[i].at < MAX_INTERVAL_MS + g
  {
    var m := Latest(trace, i, j, d);
    assert NoGap(trace, d, g, m, j);
    if m != i {
      assert IsLastPublished(c, trace, m, d, i);
      SuppressedIffClose(c, trace, m);
      LastPublishedUnique(c, trace, m, d);
    }
  }

  /** Published although no critical field changed. */
  ghost predicate Ordinary(c: Config, trace: seq<Sample>, i: nat)
    requires i < |trace|
  {
    && PublishedAt(c, trace, i)
    && exists j: nat :: IsLastPublished(c, trace, i, trace[i].payload.deviceId, j) && SameCritical(trace[i].payload, trace[j].payload)
  }

  /** `picks` are increasing positions of ordinary publications of `d`, after one publication of any kind. */
  ghost predicate Picks(c: Config, trace: seq<Sample>, d: string, picks: seq<nat>) {
    && (forall k :: 0 <= k < |picks| ==> picks[k] < |trace| && Of(trace, picks[k], d) && PublishedAt(c, trace, picks[k]))
    && (forall k, l :: 0 <= k < l < |picks| ==> picks[k] < picks[l])
    && (forall k :: 1 <= k < |picks| ==> Ordinary(c, trace, picks[k]))
  }

  /** An ordinary publication is at least the minimum interval after any earlier publication. */
  lemma OrdinaryGap(c: Config, trace: seq<Sample>, d: string, i: nat, j: nat)
    requires Ordered(trace) && i < j < |trace| && Of(trace, i, d) && Of(trace, j, d)
    requires PublishedAt(c, trace, i) && Ordinary(c, trace, j)
    ensures trace[j].at - trace[i].at >= c.minIntervalMs
  {
    var last: nat :| IsLastPublished(c, trace, j, d, last) && SameCritical(trace[j].payload, trace[last].payload);
    TableIsHistory(c, trace, j, d);
    LastPublishedUnique(c, trace, j, d);
    assert i <= last;
  }

  function Intervals(n: nat, ms: int): int {
    if n == 0 then 0 else Intervals(n - 1, ms) + ms
  }

  lemma {:induction false} IntervalsIsProduct(n: nat, ms: int)
    ensures Intervals(n, ms) == n * ms
  {
    if n > 0 {
      IntervalsIsProduct(n - 1, ms);
    }
  }

  lemma {:induction false} SpacedTimes(times: seq<int>, ms: int)
    requires |times| > 0 && AtLeastApart(times, ms)
    ensures Intervals(|times| - 1, ms) <= times[|times| - 1] - times[0]
  {
    var n := |times| - 1;
    if n > 0 {
      SpacedTimes(times[..n], ms);
    }
  }

  lemma SpacedWindow(times: seq<int>, ms: int, n: nat)
    requires |times| == n + 1 && AtLeastApart(times, ms)
    ensures n * ms <= times[n] - times[0]
  {
    SpacedTimes(times, ms);
    IntervalsIsProduct(n, ms);
  }

  /** Times of some samples of a trace. */
  function TimesOf(trace: seq<Sample>, picks: seq<nat>): (times: seq<int>)
    requires forall k :: 0 <= k < |picks| ==> picks[k] < |trace|
    ensures |times| == |picks| && forall k :: 0 <= k < |picks| ==> times[k] == trace[picks[k]].at
  {
    seq(|picks|, k requires 0 <= k < |picks| => trace[picks[k]].at)
  }

  lemma PickGap(c: Config, trace: seq<Sample>, d: string, picks: seq<nat>, k: nat, l: nat)
    requires Ordered(trace) && Picks(c, trace, d, picks) && k < l < |picks|
    ensures trace[picks[l]].at - trace[picks[k]].at >= c.minIntervalMs
  {
    OrdinaryGap(c, trace, d, picks[k], picks[l]);
  }

  predicate AtLeastApart(times: seq<int>, ms: int) {
    forall k, l :: 0 <= k < l < |times| ==> times[l] - times[k] >= ms
  }

  lemma PicksApart(c: Config, trace: seq<Sample>, d: string, picks: seq<nat>)
    requires Ordered(trace) && Picks(c, trace, d, picks)
    ensures AtLeastApart(TimesOf(trace, picks), c.minIntervalMs)
  {
    var times := TimesOf(trace, picks);
    forall k, l | 0 <= k < l < |times|
      ensures times[l] - times[k] >= c.minIntervalMs
    {
      PickGap(c, trace, d, picks, k, l);
    }
  }

  /**
   * Rate bound: `n` ordinary publications within a window of length `W`, counted from any
   * publication, satisfy n * minInterval <= W, whatever critical ones come between.
   */
  lemma RateBounded(c: Config, trace: seq<Sample>, d: string, picks: seq<nat>)
    requires Ordered(trace) && Picks(c, trace, d, picks) && |picks| > 0
    ensures (|picks| - 1) * c.minIntervalMs <= trace[picks[|picks| - 1]].at - trace[picks[0]].at
  {
    PicksApart(c, trace, d, picks);
    SpacedWindow(TimesOf(trace, picks), c.minIntervalMs, |picks| - 1);
  }

  // ------------------------------------------------- one drone at a time

  /** Samples of drone `d` among the first `n`. */
  function Only(trace: seq<Sample>, n: nat, d: string): seq<Sample>
    requires n <= |trace|
  {
    if n == 0 then [] else Only(trace, n - 1, d) + if Of(trace, n - 1, d) then [trace[n - 1]] else []
  }

  /** Decisions about drone `d` among the first `n` samples. */
  ghost function Decisions(c: Config, trace: seq<Sample>, n: nat, d: string): seq<bool>
    requires n <= |trace|
  {
    if n == 0 then [] else Decisions(c, trace, n - 1, d) + if Of(trace, n - 1, d) then [PublishedAt(c, trace, n - 1)] else []
  }

  lemma {:induction false} PrefixDecides(c: Config, a: seq<Sample>, b: seq<Sample>, n: nat, d: string)
    requires n <= |a| && n <= |b| && a[..n] == b[..n]
    ensures After(c, a, n) == After(c, b, n) && Decisions(c, a, n, d) == Decisions(c, b, n, d)
  {
    if n > 0 {
      assert a[..n - 1] == a[..n][..n - 1] == b[..n - 1];
      assert a[n - 1] == a[..n][n - 1] == b[n - 1];
      PrefixDecides(c, a, b, n - 1, d);
    }
  }

  /** What the filter decides about one drone does not depend on the samples of the others. */
  lemma {:induction false} DronesIndependent(c: Config, trace: seq<Sample>, n: nat, d: string)
    requires n <= |trace|
    ensures var own := Only(trace, n, d);
      && Decisions(c, trace, n, d) == Decisions(c, own, |own|, d)
      && LastOf(After(c, trace, n), d) == LastOf(After(c, own, |own|), d)
  {
    if n > 0 {
      DronesIndependent(c, trace, n - 1, d);
      var before, own := Only(trace, n - 1, d), Only(trace, n, d);
      if Of(trace, n - 1, d) {
        assert own[..|before|] == before == before[..|before|];
        PrefixDecides(c, own, before, |before|, d);
        assert own == before + [trace[n - 1]] && Of(own, |before|, d);
        assert PublishedAt(c, own, |before|) == PublishedAt(c, trace, n - 1);
        assert LastOf(After(c, trace, n), d) ==
          if PublishedAt(c, trace, n - 1) then Some(Sent(trace[n - 1].payload, trace[n - 1].at)) else LastOf(After(c, trace, n - 1), d);
      } else {
        assert own == before;
      }
    }
  }
}
