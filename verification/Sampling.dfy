/** Where the rates of a delivery service come from: the counters of its caches, pass after pass
    (`traffic_monitor/ds/stat.go`). */
module Sampling {
  import opened Core
  import opened Totals
  import opened DsStats
  import opened Aggregation
  import opened PerSecond
  import LastStats
  import Rates

  /** The times of the precomputed results, the caches that report a service, and the names of caches. */
  datatype Inputs = Inputs(
    times: map<CacheName, LastStats.Precomputed>, reporting: map<CacheName, bool>,
    groups: map<CacheName, CacheGroupName>, types: map<CacheName, CacheType>)

  function CountedBy(s: CacheStats): LastStats.Counters {
    LastStats.Counters(s.outBytes, s.status2xx, s.status3xx, s.status4xx, s.status5xx)
  }

  function AllCounters(caches: map<CacheName, CacheStats>): map<CacheName, LastStats.Counters> {
    map c | c in caches :: CountedBy(caches[c])
  }

  /** The rates are those of the samples that the caches get, and their sums. */
  ghost predicate Sampled(caches: map<CacheName, CacheStats>, last: LastStats.Caches, last': LastStats.Caches,
                          r: ServiceRates, inputs: Inputs)
  {
    && (forall c :: LastStats.Updated(last, last', r.kbps, AllCounters(caches), inputs.times, c))
    && forall counter ::
         LastStats.TotalsOf(LastStats.Summed(r.groups, r.kinds, r.total), LastStats.Reporting(last', inputs.reporting),
                            inputs.groups, inputs.types, counter)
  }

  method Sample(caches: map<CacheName, CacheStats>, last: LastStats.Caches, inputs: Inputs)
      returns (last': LastStats.Caches, r: ServiceRates)
    ensures Sampled(caches, last, last', r, inputs)
  {
    var kbps;
    last', kbps := LastStats.UpdateCaches(last, AllCounters(caches), inputs.times);
    var summed := LastStats.AddLastDSStatTotals(last', inputs.reporting, inputs.groups, inputs.types);
    r := ServiceRates(kbps, summed.groups, summed.kinds, summed.total);
  }

  /** What is published of a service shows the rates that its own counters make. */
  ghost predicate RatesAreRight(v: StatValue, last: LastStats.Caches, last': LastStats.Caches, inputs: Inputs) {
    exists r :: HasRates(v, r) && Sampled(v.caches, last, last', r, inputs)
  }

  /** Writing the bandwidths does not change what is sampled. */
  lemma {:induction false} KbpsKeepCounters(m: map<CacheName, CacheStats>, m': map<CacheName, CacheStats>, kbps: map<CacheName, real>)
    requires AllKbps(m, m', kbps)
    ensures AllCounters(m') == AllCounters(m)
  {
  }

  lemma {:induction false} PublishedRates(v: StatValue, before: map<CacheName, CacheStats>, last: LastStats.Caches,
                                          last': LastStats.Caches, r: ServiceRates, inputs: Inputs)
    requires HasRates(v, r) && Sampled(before, last, last', r, inputs) && AllKbps(before, v.caches, r.kbps)
    ensures RatesAreRight(v, last, last', inputs)
  {
    KbpsKeepCounters(before, v.caches, r.kbps);
    assert Sampled(v.caches, last, last', r, inputs);
  }

  type LastAll = map<DeliveryServiceName, LastStats.Caches>

  function LastOf(last: LastAll, d: DeliveryServiceName): LastStats.Caches {
    if d in last then last[d] else map[]
  }

  /** The same for all services. */
  datatype AllInputs = AllInputs(
    times: map<CacheName, LastStats.Precomputed>, reporting: map<DeliveryServiceName, map<CacheName, bool>>,
    groups: map<CacheName, CacheGroupName>, types: map<CacheName, CacheType>)
  {
    function Of(d: DeliveryServiceName): Inputs {
      Inputs(times, if d in reporting then reporting[d] else map[], groups, types)
    }
  }

  /** The services that are published show right rates; what was last seen of any other stays. */
  ghost predicate AllRatesRight(published: StatValues, last: LastAll, last': LastAll, inputs: AllInputs) {
    && (forall d | d in published :: RatesAreRight(published[d], LastOf(last, d), LastOf(last', d), inputs.Of(d)))
    && forall d | d !in published :: LastOf(last', d) == LastOf(last, d)
  }

  // ---------- All services ----------

  /** The services but those in `todo` had their samples, and the others keep what was last seen. */
  ghost predicate SampledBut(view: StatValues, last: LastAll, last': LastAll, rates: AllRates, inputs: AllInputs,
                             todo: set<DeliveryServiceName>)
  {
    forall d :: HadSample(view, last, last', rates, inputs, todo, d)
  }

  ghost predicate HadSample(view: StatValues, last: LastAll, last': LastAll, rates: AllRates, inputs: AllInputs,
                            todo: set<DeliveryServiceName>, d: DeliveryServiceName)
  {
    if d in view && d !in todo then
      d in rates && Sampled(view[d].caches, LastOf(last, d), LastOf(last', d), rates[d], inputs.Of(d))
    else
      LastOf(last', d) == LastOf(last, d)
  }

  lemma {:induction false} SampleStep(view: StatValues, last: LastAll, now: LastAll, rates: AllRates, inputs: AllInputs,
                                      todo: set<DeliveryServiceName>, d: DeliveryServiceName, next: LastStats.Caches,
                                      r: ServiceRates)
    requires SampledBut(view, last, now, rates, inputs, todo) && d in todo && d in view
    requires Sampled(view[d].caches, LastOf(now, d), next, r, inputs.Of(d))
    ensures SampledBut(view, last, now[d := next], rates[d := r], inputs, todo - {d})
  {
    assert HadSample(view, last, now, rates, inputs, todo, d);
    var now', rates', todo' := now[d := next], rates[d := r], todo - {d};
    forall e
      ensures HadSample(view, last, now', rates', inputs, todo', e)
    {
      assert HadSample(view, last, now, rates, inputs, todo, e);
    }
  }

  /** Once the rates are written, what is published shows them. */
  lemma {:induction false} AllPublished(st: State, st': State, last: LastAll, last': LastAll, rates: AllRates, inputs: AllInputs)
    requires AllWritten(st, st', rates) && SampledBut(ViewOf(st), last, last', rates, inputs, {})
    ensures AllRatesRight(ViewOf(st'), last, last', inputs)
  {
    forall d
      ensures d in st'.ds ==> RatesAreRight(ViewOf(st')[d], LastOf(last, d), LastOf(last', d), inputs.Of(d))
      ensures d !in st'.ds ==> LastOf(last', d) == LastOf(last, d)
    {
      assert HadSample(ViewOf(st), last, last', rates, inputs, {}, d);
      if d in st.ds {
        assert Written(st, st', d, rates[d]);
        WrittenShows(st, st', d, rates[d]);
        PublishedRates(ViewOf(st')[d], ViewOf(st)[d].caches, LastOf(last, d), LastOf(last', d), rates[d], inputs.Of(d));
      }
    }
  }

  // ---------- Over a run of passes ----------

  /** What a pass published, and what it had last seen before and after. */
  datatype Outcome = Outcome(published: StatValues, last: LastAll, last': LastAll, inputs: AllInputs)

  /** Each outcome starts with what the one before it left, the first one with nothing. */
  ghost predicate IsSeries(outcomes: seq<Outcome>) {
    && (outcomes != [] ==> outcomes[0].last == map[])
    && (forall i | 0 < i < |outcomes| :: outcomes[i].last == outcomes[i - 1].last')
    && forall i | 0 <= i < |outcomes| :: IsOutcome(outcomes[i])
  }

  ghost predicate IsOutcome(o: Outcome) {
    AllRatesRight(o.published, o.last, o.last', o.inputs)
  }

  function LastIn(outcomes: seq<Outcome>): LastAll {
    if outcomes == [] then map[] else outcomes[|outcomes| - 1].last'
  }

  lemma {:induction false} SeriesMore(outcomes: seq<Outcome>, o: Outcome)
    requires IsSeries(outcomes) && IsOutcome(o) && o.last == LastIn(outcomes)
    ensures IsSeries(outcomes + [o])
  {
  }

  ghost predicate IsShown(published: StatValues, d: DeliveryServiceName, c: CacheName) {
    d in published && c in published[d].caches
  }

  /** The cache is published with the service, and has a result of a time. */
  ghost predicate HasPoll(o: Outcome, d: DeliveryServiceName, c: CacheName) {
    IsShown(o.published, d, c) && c in o.inputs.times
  }

  /** What was published of the counters of a cache. */
  ghost function PollOf(o: Outcome, d: DeliveryServiceName, c: CacheName): LastStats.Poll
    requires HasPoll(o, d, c)
  {
    var s := o.published[d].caches[c];
    LastStats.Poll(LastStats.Counters(s.outBytes, s.status2xx, s.status3xx, s.status4xx, s.status5xx), o.inputs.times[c].time)
  }

  ghost function PollsOf(outcomes: seq<Outcome>, d: DeliveryServiceName, c: CacheName): seq<LastStats.Poll> {
    if outcomes == [] then []
    else
      var o := outcomes[|outcomes| - 1];
      PollsOf(outcomes[..|outcomes| - 1], d, c) + if HasPoll(o, d, c) then [PollOf(o, d, c)] else []
  }

  lemma {:induction false} RunMore(last: LastStats.LastStatsData, polls: seq<LastStats.Poll>, p: LastStats.Poll)
    ensures LastStats.RunStats(last, polls + [p])
      == LastStats.AddLastStats(LastStats.RunStats(last, polls), p.counters, p.time).0
    decreases polls
  {
    if polls == [] {
      assert [] + [p] == [p] && [p][1..] == [];
    } else {
      assert (polls + [p])[1..] == polls[1..] + [p];
      RunMore(LastStats.AddLastStats(last, polls[0].counters, polls[0].time).0, polls[1..], p);
    }
  }

  lemma {:induction false} OutcomeStep(o: Outcome, d: DeliveryServiceName, c: CacheName)
    requires IsOutcome(o)
    ensures LastStats.At(LastOf(o.last', d), c) ==
      var before := LastStats.At(LastOf(o.last, d), c);
      if HasPoll(o, d, c) then LastStats.AddLastStats(before, PollOf(o, d, c).counters, PollOf(o, d, c).time).0 else before
  {
    if d in o.published {
      var v := o.published[d];
      assert RatesAreRight(v, LastOf(o.last, d), LastOf(o.last', d), o.inputs.Of(d));
      var r :| HasRates(v, r) && Sampled(v.caches, LastOf(o.last, d), LastOf(o.last', d), r, o.inputs.Of(d));
      assert LastStats.Updated(LastOf(o.last, d), LastOf(o.last', d), r.kbps, AllCounters(v.caches), o.inputs.times, c);
    }
  }

  lemma {:induction false} LastBefore(outcomes: seq<Outcome>, d: DeliveryServiceName, c: CacheName)
    requires IsSeries(outcomes) && outcomes != []
    requires var before := outcomes[..|outcomes| - 1]; before != [] ==>
      LastStats.At(LastOf(before[|before| - 1].last', d), c) == LastStats.RunStats(LastStats.ZERO, PollsOf(before, d, c))
    ensures IsSeries(outcomes[..|outcomes| - 1])
    ensures LastStats.At(LastOf(outcomes[|outcomes| - 1].last, d), c)
      == LastStats.RunStats(LastStats.ZERO, PollsOf(outcomes[..|outcomes| - 1], d, c))
  {
    var n := |outcomes| - 1;
    if n > 0 {
      assert outcomes[..n][n - 1] == outcomes[n - 1];
    }
  }

  /** What was last seen of a cache is the run over what was published of its counters. */
  lemma {:induction false} LastIsRun(outcomes: seq<Outcome>, d: DeliveryServiceName, c: CacheName)
    requires IsSeries(outcomes) && outcomes != []
    ensures LastStats.At(LastOf(outcomes[|outcomes| - 1].last', d), c) == LastStats.RunStats(LastStats.ZERO, PollsOf(outcomes, d, c))
  {
    var n := |outcomes| - 1;
    var before, o := outcomes[..n], outcomes[n];
    if n > 0 {
      LastIsRun(before, d, c);
    }
    LastBefore(outcomes, d, c);
    OutcomeStep(o, d, c);
    if HasPoll(o, d, c) {
      RunMore(LastStats.ZERO, PollsOf(before, d, c), PollOf(o, d, c));
    } else {
      assert PollsOf(before, d, c) + [] == PollsOf(before, d, c);
    }
  }

  /** The last sample of the cache is an error: some counter of it fell, or it came late. */
  ghost predicate EndsInError(outcomes: seq<Outcome>, d: DeliveryServiceName, c: CacheName)
    requires outcomes != []
  {
    var before, o := outcomes[..|outcomes| - 1], outcomes[|outcomes| - 1];
    HasPoll(o, d, c) && exists counter ::
      LastStats.IsFallOrLate(LastStats.Of(LastStats.RunStats(LastStats.ZERO, PollsOf(before, d, c)), counter),
                             LastStats.ValueOf(PollOf(o, d, c).counters, counter), PollOf(o, d, c).time)
  }

  lemma {:induction false} BandwidthStep(o: Outcome, d: DeliveryServiceName, c: CacheName)
    requires IsOutcome(o)
    requires IsShown(o.published, d, c)
    requires HasPoll(o, d, c) ==>
      !LastStats.AddLastStats(LastStats.At(LastOf(o.last, d), c), PollOf(o, d, c).counters, PollOf(o, d, c).time).1
    ensures o.published[d].caches[c].kbps * 125.0 == LastStats.At(LastOf(o.last', d), c).bytes.perSec
  {
    var v := o.published[d];
    assert RatesAreRight(v, LastOf(o.last, d), LastOf(o.last', d), o.inputs.Of(d));
    var r :| HasRates(v, r) && Sampled(v.caches, LastOf(o.last, d), LastOf(o.last', d), r, o.inputs.Of(d));
    assert LastStats.Updated(LastOf(o.last, d), LastOf(o.last', d), r.kbps, AllCounters(v.caches), o.inputs.times, c);
  }

  /** From end to end: in every run of passes the bandwidth that is published of a cache is the rate of the run over the
      bytes that were published of it in earlier passes and this one, which is that of their last rise; unless its last
      sample is an error, which leaves the bandwidth as it was. */
  lemma {:induction false} BandwidthIsRateOfRun(outcomes: seq<Outcome>, d: DeliveryServiceName, c: CacheName)
    requires IsSeries(outcomes) && outcomes != []
    requires IsShown(outcomes[|outcomes| - 1].published, d, c) && !EndsInError(outcomes, d, c)
    ensures outcomes[|outcomes| - 1].published[d].caches[c].kbps * 125.0
      == Rates.Run(Rates.ZERO, LastStats.SamplesOf(PollsOf(outcomes, d, c), LastStats.Bytes)).perSec
  {
    PublishedBandwidth(outcomes, d, c);
    LastStats.EachCounterRunsAlone(LastStats.ZERO, PollsOf(outcomes, d, c), LastStats.Bytes);
  }

  lemma {:induction false} PublishedBandwidth(outcomes: seq<Outcome>, d: DeliveryServiceName, c: CacheName)
    requires IsSeries(outcomes) && outcomes != []
    requires IsShown(outcomes[|outcomes| - 1].published, d, c) && !EndsInError(outcomes, d, c)
    ensures outcomes[|outcomes| - 1].published[d].caches[c].kbps * 125.0
      == LastStats.RunStats(LastStats.ZERO, PollsOf(outcomes, d, c)).bytes.perSec
  {
    LastIsRun(outcomes, d, c);
    NoErrorAtEnd(outcomes, d, c);
    BandwidthStep(outcomes[|outcomes| - 1], d, c);
  }

  lemma {:induction false} NoErrorAtEnd(outcomes: seq<Outcome>, d: DeliveryServiceName, c: CacheName)
    requires IsSeries(outcomes) && outcomes != [] && !EndsInError(outcomes, d, c)
    ensures var o := outcomes[|outcomes| - 1];
      HasPoll(o, d, c) ==>
        !LastStats.AddLastStats(LastStats.At(LastOf(o.last, d), c), PollOf(o, d, c).counters, PollOf(o, d, c).time).1
  {
    var n := |outcomes| - 1;
    if n > 0 {
      LastIsRun(outcomes[..n], d, c);
    }
    LastBefore(outcomes, d, c);
  }
}
