/**
 * The adaptive video streamer on the drone: each link probe gives a target tier, a worse
 * one is taken at once, a better one only after three probes in a row.
 */
module Video {
  const RECOVERY_PROBES: nat := 3

  /** Tiers run from 1, the best, to 4. */
  type Tier = t: int | 1 <= t <= 4 witness 1

  datatype Settings = Settings(bitrate: int, fps: int)

  function SettingsOf(tier: Tier): Settings {
    if tier == 1 then Settings(2500000, 30)
    else if tier == 2 then Settings(1500000, 25)
    else if tier == 3 then Settings(800000, 20)
    else Settings(400000, 15)
  }

  function EvaluateTargetTier(rtt: int, loss: int): (tier: Tier) {
    if loss > 8 || rtt > 250 then 4
    else if loss > 3 || rtt > 120 then 3
    else if rtt > 60 then 2
    else 1
  }

  /** A worse link never gets a better tier, and a tier with less quality has less bitrate and fewer frames. */
  lemma TargetMonotone(rtt: int, loss: int, rtt': int, loss': int)
    requires rtt <= rtt' && loss <= loss'
    ensures EvaluateTargetTier(rtt, loss) <= EvaluateTargetTier(rtt', loss')
    ensures var good, bad := SettingsOf(EvaluateTargetTier(rtt, loss)), SettingsOf(EvaluateTargetTier(rtt', loss'));
      && good.bitrate >= bad.bitrate && good.fps >= bad.fps
      && (good == bad <==> EvaluateTargetTier(rtt, loss) == EvaluateTargetTier(rtt', loss'))
  {
  }

  /** Which measurements give at most each tier: round trip in milliseconds, loss in percent. */
  lemma TierLimits(rtt: int, loss: int)
    ensures EvaluateTargetTier(rtt, loss) == 1 <==> rtt <= 60 && loss <= 3
    ensures EvaluateTargetTier(rtt, loss) <= 2 <==> rtt <= 120 && loss <= 3
    ensures EvaluateTargetTier(rtt, loss) <= 3 <==> rtt <= 250 && loss <= 8
  {
  }

  // ------------------------------------------------------ specification

  /** One round of the main loop: the pipeline was found dead and restarted, or the link was probed. */
  datatype Event = Restart | Probe(rtt: int, loss: int)

  datatype State = State(tier: Tier, settings: Settings, stable: nat)

  const INITIAL := State(1, SettingsOf(1), 0)

  function Target(e: Event): Tier
    requires e.Probe?
  {
    EvaluateTargetTier(e.rtt, e.loss)
  }

  function Step(s: State, e: Event): State {
    if e.Restart? then s
    else if Target(e) > s.tier then State(Target(e), SettingsOf(Target(e)), 0)
    else if Target(e) == s.tier then s.(stable := 0)
    else if s.stable + 1 >= RECOVERY_PROBES then State(Target(e), SettingsOf(Target(e)), 0)
    else s.(stable := s.stable + 1)
  }

  function After(trace: seq<Event>, n: nat): State
    requires n <= |trace|
  {
    if n == 0 then INITIAL else Step(After(trace, n - 1), trace[n - 1])
  }

  class AdaptiveStreamer {
    var currentTier: Tier
    var currentBitrate: int
    var currentFps: int
    var stableCount: nat
    /** Settings of the pipelines started so far. */
    var started: seq<Settings>

    constructor ()
      ensures View() == INITIAL && started == []
    {
      currentTier, currentBitrate, currentFps, stableCount, started := 1, 2500000, 30, 0, [];
    }

    function View(): State
      reads this
    {
      State(currentTier, Settings(currentBitrate, currentFps), stableCount)
    }

    method ApplyDynamicBitrate(newTier: Tier)
      modifies this`currentTier, this`currentBitrate, this`currentFps
      ensures View() == old(View()).(tier := newTier, settings := SettingsOf(newTier))
    {
      var targetBitrate, targetFps;
      match newTier {
        case 1 => targetBitrate, targetFps := 2500000, 30;
        case 2 => targetBitrate, targetFps := 1500000, 25;
        case 3 => targetBitrate, targetFps := 800000, 20;
        case _ => targetBitrate, targetFps := 400000, 15;
      }
      currentTier, currentBitrate, currentFps := newTier, targetBitrate, targetFps;
    }

    method StartStreamingPipeline()
      modifies this`started
      ensures started == old(started) + [View().settings]
    {
      started := started + [Settings(currentBitrate, currentFps)];
    }

    method Adapt(rtt: int, loss: int)
      modifies this`currentTier, this`currentBitrate, this`currentFps, this`stableCount
      ensures View() == Step(old(View()), Probe(rtt, loss))
    {
      var targetTier := EvaluateTargetTier(rtt, loss);
      if targetTier > currentTier {
        stableCount := 0;
        ApplyDynamicBitrate(targetTier);
      } else if targetTier < currentTier {
        stableCount := stableCount + 1;
        if stableCount >= RECOVERY_PROBES {
          stableCount := 0;
          ApplyDynamicBitrate(targetTier);
        }
      } else {
        stableCount := 0;
      }
    }

    /** The main loop over a list of rounds, from the script's start. */
    method Watch(trace: seq<Event>)
      requires View() == INITIAL
      modifies this
      ensures View() == After(trace, |trace|)
      ensures started == old(started) + Pipelines(trace, |trace|)
    {
      StartStreamingPipeline();
      for i := 0 to |trace|
        invariant View() == After(trace, i)
        invariant started == old(started) + Pipelines(trace, i)
      {
        match trace[i]
        case Restart => StartStreamingPipeline();
        case Probe(rtt, loss) => Adapt(rtt, loss);
      }
    }
  }

  // ---------------------------------------------------------------- runs

  /** Settings of the first pipeline and of each restarted one. */
  function Pipelines(trace: seq<Event>, n: nat): seq<Settings>
    requires n <= |trace|
  {
    if n == 0 then [INITIAL.settings]
    else Pipelines(trace, n - 1) + if trace[n - 1].Restart? then [After(trace, n - 1).settings] else []
  }

  function Probes(trace: seq<Event>, n: nat): nat
    requires n <= |trace|
  {
    if n == 0 then 0 else Probes(trace, n - 1) + if trace[n - 1].Probe? then 1 else 0
  }

  predicate ProbeAt(trace: seq<Event>, i: nat) {
    i < |trace| && trace[i].Probe?
  }

  /** Round `i` raises the quality. */
  predicate UpgradedAt(trace: seq<Event>, i: nat) {
    i < |trace| && After(trace, i + 1).tier < After(trace, i).tier
  }

  /** Round `i` is a probe that finds the link better than the tier in use. */
  predicate BetterAt(trace: seq<Event>, i: nat) {
    ProbeAt(trace, i) && Target(trace[i]) < After(trace, i).tier
  }

  function Upgrades(trace: seq<Event>, n: nat): nat
    requires n <= |trace|
  {
    if n == 0 then 0 else Upgrades(trace, n - 1) + if UpgradedAt(trace, n - 1) then 1 else 0
  }

  /** Bitrate and frame rate are those of the tier, also for restarted pipelines, and at most two better probes are pending. */
  lemma {:induction false} SettingsMatch(trace: seq<Event>, n: nat)
    requires n <= |trace|
    ensures After(trace, n).settings == SettingsOf(After(trace, n).tier)
    ensures After(trace, n).stable < RECOVERY_PROBES
  {
    if n > 0 {
      SettingsMatch(trace, n - 1);
    }
  }

  /** After every probe the video is no better than the link just measured allows. */
  lemma NeverAboveTarget(trace: seq<Event>, n: nat)
    requires ProbeAt(trace, n)
    ensures After(trace, n + 1).tier >= Target(trace[n])
    ensures Target(trace[n]) >= After(trace, n).tier ==> After(trace, n + 1).tier == Target(trace[n])
  {
  }

  /** The encoder after a probe that found the link worse than the tier in use, by the numbers. */
  lemma WorseLinkSettings(trace: seq<Event>, n: nat)
    requires ProbeAt(trace, n) && Target(trace[n]) > After(trace, n).tier
    ensures var p := trace[n];
      After(trace, n + 1).settings ==
        if p.rtt > 250 || p.loss > 8 then Settings(400000, 15)
        else if p.rtt > 120 || p.loss > 3 then Settings(800000, 20)
        else Settings(1500000, 25)
  {
    TierLimits(trace[n].rtt, trace[n].loss);
  }

  /** Only restarts in `from..to`. */
  predicate OnlyRestarts(trace: seq<Event>, from: nat, to: nat) {
    forall k: nat :: from <= k < to ==> !ProbeAt(trace, k)
  }

  lemma {:induction false} RestartsChangeNothing(trace: seq<Event>, from: nat, to: nat)
    requires from <= to <= |trace| && OnlyRestarts(trace, from, to)
    ensures After(trace, to) == After(trace, from)
  {
    if from < to {
      RestartsChangeNothing(trace, from, to - 1);
      assert !ProbeAt(trace, to - 1);
    }
  }

  /** Rounds `i`, `j` and `n` are successive probes, all better than one and the same tier. */
  predicate ThirdBetter(trace: seq<Event>, i: nat, j: nat, n: nat) {
    && i < j < n && OnlyRestarts(trace, i + 1, j) && OnlyRestarts(trace, j + 1, n)
    && BetterAt(trace, i) && BetterAt(trace, j) && BetterAt(trace, n)
    && After(trace, i).tier == After(trace, j).tier == After(trace, n).tier
  }

  /** Probe `j` is the last one before `n`, and the count stood at `before` in front of it. */
  predicate PendingFrom(trace: seq<Event>, n: nat, j: nat, before: nat) {
    && j < n <= |trace| && BetterAt(trace, j) && OnlyRestarts(trace, j + 1, n)
    && After(trace, j).tier == After(trace, n).tier && After(trace, j).stable == before
  }

  /** A pending count goes back to the probe that raised it. */
  lemma {:induction false} PendingHasProbe(trace: seq<Event>, n: nat) returns (j: nat)
    requires n <= |trace| && After(trace, n).stable > 0
    ensures PendingFrom(trace, n, j, After(trace, n).stable - 1)
  {
    j := n - 1;
    if !ProbeAt(trace, n - 1) {
      j := PendingHasProbe(trace, n - 1);
    }
  }

  /** Quality rises exactly on the third probe in a row that is better than the tier in use. */
  lemma UpgradeIffThirdBetter(trace: seq<Event>, n: nat)
    requires n < |trace|
    ensures UpgradedAt(trace, n) <==> exists i: nat, j: nat :: ThirdBetter(trace, i, j, n)
  {
    if UpgradedAt(trace, n) {
      SettingsMatch(trace, n);
      var j := PendingHasProbe(trace, n);
      var i := PendingHasProbe(trace, j);
      assert ThirdBetter(trace, i, j, n);
    }
    forall i: nat, j: nat | ThirdBetter(trace, i, j, n)
      ensures UpgradedAt(trace, n)
    {
      SettingsMatch(trace, i);
      RestartsChangeNothing(trace, i + 1, j);
      RestartsChangeNothing(trace, j + 1, n);
    }
  }

  /** Upgrades are at most a third of the probes. */
  lemma {:induction false} UpgradesBounded(trace: seq<Event>, n: nat)
    requires n <= |trace|
    ensures 3 * Upgrades(trace, n) + After(trace, n).stable <= Probes(trace, n)
  {
    if n > 0 {
      UpgradesBounded(trace, n - 1);
      SettingsMatch(trace, n - 1);
    }
  }

  /** Three successive probes with the same target always settle on it. */
  lemma SteadyLinkSettles(trace: seq<Event>, i: nat, j: nat, n: nat)
    requires i < j < n && ProbeAt(trace, i) && ProbeAt(trace, j) && ProbeAt(trace, n)
    requires OnlyRestarts(trace, i + 1, j) && OnlyRestarts(trace, j + 1, n)
    requires Target(trace[i]) == Target(trace[j]) == Target(trace[n])
    ensures After(trace, n + 1).tier == Target(trace[n])
  {
    RestartsChangeNothing(trace, i + 1, j);
    RestartsChangeNothing(trace, j + 1, n);
  }
}
