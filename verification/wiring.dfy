/**
 * The modules inside the running service: on every run the aggregator's table and the
 * filter's table are those of the modules alone on the frames that reach them, so what is
 * proved about their traces holds in the pipeline.
 */
module Wiring {
  import opened Wrappers
  import opened Models
  import Aggregator
  import Filter
  import opened Pipeline
  import opened Liveness

  // ----------------------------------------------------------- aggregator

  /** What an event is to the aggregator. */
  function Heard(e: Event): seq<Aggregator.Event> {
    match e
    case Frame(d, sysId, ip, msg, _, at) => [Aggregator.Frame(d, sysId, ip, msg, at)]
    case Tick(_, at) => [Aggregator.Sweep(at)]
    case Other(_) => []
  }

  function HeardAll(trace: seq<Event>, n: nat): seq<Aggregator.Event>
    requires n <= |trace|
  {
    if n == 0 then [] else HeardAll(trace, n - 1) + Heard(trace[n - 1])
  }

  lemma {:induction false} AggregatorPrefix(events: seq<Aggregator.Event>, e: Aggregator.Event, n: nat)
    requires n <= |events|
    ensures Aggregator.After(events + [e], n) == Aggregator.After(events, n)
  {
    if n > 0 {
      AggregatorPrefix(events, e, n - 1);
    }
  }

  lemma AggregatorSnoc(events: seq<Aggregator.Event>, e: Aggregator.Event)
    ensures Aggregator.After(events + [e], |events| + 1) == Aggregator.Handled(Aggregator.After(events, |events|), e)
  {
    AggregatorPrefix(events, e, |events|);
  }

  /** In every run the tracked states are the aggregator's own on the frames and sweeps so far. */
  lemma {:induction false} StatesAreAggregated(c: Config, states: seq<System>, trace: seq<Event>, n: nat)
    requires IsRun(c, states, trace) && n <= |trace|
    ensures states[n].states == Aggregator.After(HeardAll(trace, n), |HeardAll(trace, n)|)
  {
    if n > 0 {
      var p := n - 1;
      StatesAreAggregated(c, states, trace, p);
      assert Follows(c, states, trace, p);
      var before := HeardAll(trace, p);
      if trace[p].Other? {
        assert HeardAll(trace, n) == before;
      } else {
        assert HeardAll(trace, n) == before + [Heard(trace[p])[0]];
        AggregatorSnoc(before, Heard(trace[p])[0]);
      }
    }
  }

  // --------------------------------------------------------------- filter

  /** What an event offers to the filter: the snapshot of a decoded frame. */
  function Offer(s: System, e: Event): seq<Filter.Sample> {
    if e.Frame? && e.msg.known then [Filter.Sample(Snapshot(s, e), e.at)] else []
  }

  function Offers(states: seq<System>, trace: seq<Event>, n: nat): seq<Filter.Sample>
    requires n <= |trace| && n <= |states|
  {
    if n == 0 then [] else Offers(states, trace, n - 1) + Offer(states[n - 1], trace[n - 1])
  }

  lemma FilterSnoc(c: Config, samples: seq<Filter.Sample>, sample: Filter.Sample)
    ensures Filter.After(c, samples + [sample], |samples| + 1) ==
      Filter.Offered(c, Filter.After(c, samples, |samples|), sample.payload, sample.at)
    ensures Filter.After(c, samples + [sample], |samples|) == Filter.After(c, samples, |samples|)
  {
    assert (samples + [sample])[..|samples|] == samples == samples[..|samples|];
    Filter.PrefixDecides(c, samples + [sample], samples, |samples|, "");
  }

  /** In every run the filter's table is its own on the decoded snapshots so far. */
  lemma {:induction false} SentIsFiltered(c: Config, states: seq<System>, trace: seq<Event>, n: nat)
    requires IsRun(c, states, trace) && n <= |trace|
    ensures states[n].sent == Filter.After(c, Offers(states, trace, n), |Offers(states, trace, n)|)
  {
    if n > 0 {
      var p := n - 1;
      SentIsFiltered(c, states, trace, p);
      assert Follows(c, states, trace, p);
      var before, offer := Offers(states, trace, p), Offer(states[p], trace[p]);
      if offer == [] {
        assert Offers(states, trace, n) == before;
      } else {
        assert Offers(states, trace, n) == before + [offer[0]];
        FilterSnoc(c, before, offer[0]);
      }
    }
  }

  /**
   * A frame's snapshot is queued exactly when its message is known and the filter, on the decoded
   * snapshots so far and this one, publishes it.
   */
  lemma QueuedIffPublished(c: Config, states: seq<System>, trace: seq<Event>, n: nat)
    requires IsRun(c, states, trace) && n < |trace| && trace[n].Frame?
    ensures var before, sample := Offers(states, trace, n), Filter.Sample(Snapshot(states[n], trace[n]), trace[n].at);
      Items(c, states[n], trace[n]) ==
        if trace[n].msg.known && Filter.PublishedAt(c, before + [sample], |before|) then [sample.payload] else []
  {
    SentIsFiltered(c, states, trace, n);
    FilterSnoc(c, Offers(states, trace, n), Filter.Sample(Snapshot(states[n], trace[n]), trace[n].at));
  }
}
