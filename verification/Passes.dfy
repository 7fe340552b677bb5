/** Making delivery service stats again and again from precomputed stats, with the rates that are written into the
    same maps afterwards (`traffic_monitor/ds/stat.go`). */
module Passes {
  import opened Core
  import opened Totals
  import opened DsStats
  import opened Aggregation
  import opened Counters
  import opened CreateStats
  import opened PerSecond
  import opened Sampling
  import Flags
  import LastStats
  import Rounds

  // ---------- Rates ----------

  lemma {:induction false} RatesAreNoCounters(m: map<string, CacheStats>, m': map<string, CacheStats>,
                                              rates: map<string, LastStats.LastStatsData>)
    requires AllRated(m, m', rates)
    ensures Same(Raw(m), Raw(m'), ZERO)
  {
    assert CountersOf(ZERO) == ZERO;
    forall k
      ensures Get(Raw(m), k, ZERO) == Get(Raw(m'), k, ZERO)
    {
      if k in rates {
        RatedIsNoCounter(Get(m, k, ZERO), m'[k], rates[k]);
      }
    }
  }

  lemma {:induction false} RatedIsNoCounter(s: CacheStats, s': CacheStats, l: LastStats.LastStatsData)
    requires Rated(s, s', l)
    ensures CountersOf(s') == CountersOf(s)
  {
  }

  lemma {:induction false} KbpsAreNoCounters(m: map<CacheName, CacheStats>, m': map<CacheName, CacheStats>, kbps: map<CacheName, real>)
    requires AllKbps(m, m', kbps)
    ensures Same(Raw(m), Raw(m'), ZERO)
  {
  }

  lemma {:induction false} RatesStep(st: State, now: State, d: DeliveryServiceName, m: Maps, total: CacheStats, r: ServiceRates)
    requires d in now.ds && now.ds[d].ref in now.cells && OnlyFlagsAndRates(st, now)
    requires Replacing(now, d, m, total, r)
    ensures OnlyFlagsAndRates(st, Replaced(now, d, m, total))
  {
    var before := now.cells[now.ds[d].ref];
    RatesAreNoCounters(before.groups, m.groups, r.groups);
    RatesAreNoCounters(before.types, m.types, r.kinds);
    KbpsAreNoCounters(before.caches, m.caches, r.kbps);
    RatedIsNoCounter(now.ds[d].total, total, r.total);
    FlagsAndRatesStep(st, now, d, m, total);
  }

  /** The rates of all services but those in `todo` are made and written, and nothing else is changed. */
  ghost predicate RatesSoFar(st: State, now: State, last: LastAll, last': LastAll, rates: AllRates, inputs: AllInputs,
                             todo: set<DeliveryServiceName>)
  {
    && (forall d | d in st.ds :: st.ds[d].ref in st.cells) && OnlyFlagsAndRates(st, now)
    && (Separate(st.ds) ==> WrittenBut(st, now, rates, todo) && SampledBut(ViewOf(st), last, last', rates, inputs, todo))
  }

  lemma {:induction false} NoRatesSoFar(st: State, last: LastAll, inputs: AllInputs)
    requires forall d | d in st.ds :: st.ds[d].ref in st.cells
    ensures RatesSoFar(st, st, last, last, map[], inputs, st.ds.Keys)
  {
  }

  lemma {:induction false} ServiceStep(st: State, now: State, last: LastAll, last': LastAll, rates: AllRates,
                                       inputs: AllInputs, todo: set<DeliveryServiceName>, d: DeliveryServiceName,
                                       next: LastStats.Caches, r: ServiceRates, m: Maps, total: CacheStats)
    requires RatesSoFar(st, now, last, last', rates, inputs, todo) && d in todo && d in now.ds && now.ds[d].ref in now.cells
    requires Sampled(now.cells[now.ds[d].ref].caches, LastOf(last', d), next, r, inputs.Of(d))
    requires Replacing(now, d, m, total, r)
    ensures RatesSoFar(st, Replaced(now, d, m, total), last, last'[d := next], rates[d := r], inputs, todo - {d})
  {
    RatesStep(st, now, d, m, total, r);
    if Separate(st.ds) {
      assert HadTurn(st, now, rates, todo, d);
      OwnIsWritten(st, now, d, m, total, r);
      WriteStep(st, now, rates, todo, d, m, total, r);
      SampleStep(ViewOf(st), last, last', rates, inputs, todo, d, next, r);
    }
  }

  lemma {:induction false} AllDone(st: State, now: State, last: LastAll, last': LastAll, rates: AllRates, inputs: AllInputs)
    requires RatesSoFar(st, now, last, last', rates, inputs, {}) && Separate(st.ds)
    ensures AllWritten(st, now, rates) && SampledBut(ViewOf(st), last, last', rates, inputs, {})
  {
    forall d | d in st.ds
      ensures Written(st, now, d, rates[d])
    {
      assert HadTurn(st, now, rates, {}, d);
    }
  }

  /** Makes the rates of every service from its counters, and writes them into its maps and its total. */
  method AddPerSecStats(memory: Memory, dsStats: Stats, last: LastAll, inputs: AllInputs)
      returns (dsStats': Stats, last': LastAll, ghost rates: AllRates)
    requires forall d | d in dsStats :: dsStats[d].ref in memory.cells
    modifies memory`cells
    ensures var st, now := State(old(memory.cells), dsStats), State(memory.cells, dsStats');
      && OnlyFlagsAndRates(st, now)
      && (Separate(dsStats) ==> AllWritten(st, now, rates) && SampledBut(ViewOf(st), last, last', rates, inputs, {}))
  {
    dsStats', last', rates := dsStats, last, map[];
    ghost var st := State(memory.cells, dsStats);
    NoRatesSoFar(st, last, inputs);
    var todo := dsStats.Keys;
    while todo != {}
      invariant todo <= dsStats.Keys
      invariant RatesSoFar(st, State(memory.cells, dsStats'), last, last', rates, inputs, todo)
      decreases todo
    {
      var d :| d in todo;
      dsStats', last', rates := AddDSPerSecStats(memory, dsStats', d, last', inputs, st, last, rates, todo);
      todo := todo - {d};
    }
    if Separate(dsStats) {
      AllDone(st, State(memory.cells, dsStats'), last, last', rates, inputs);
    }
  }

  /** The rates of one service. */
  method AddDSPerSecStats(memory: Memory, dsStats: Stats, d: DeliveryServiceName, last: LastAll, inputs: AllInputs, ghost st: State,
                          ghost last0: LastAll, ghost rates: AllRates, ghost todo: set<DeliveryServiceName>)
      returns (dsStats': Stats, last': LastAll, ghost rates': AllRates)
    requires RatesSoFar(st, State(memory.cells, dsStats), last0, last, rates, inputs, todo) && d in todo && d in st.ds
    modifies memory`cells
    ensures RatesSoFar(st, State(memory.cells, dsStats'), last0, last', rates', inputs, todo - {d})
  {
    ghost var now := State(memory.cells, dsStats);
    var stat := dsStats[d];
    var next, r := Sample(memory.cells[stat.ref].caches, LastOf(last, d), inputs.Of(d));
    var m, total := RatedMaps(memory.cells[stat.ref], stat.total, r);
    ServiceStep(st, now, last0, last, rates, inputs, todo, d, next, r, m, total);
    memory.cells := memory.cells[stat.ref := m];
    dsStats', last', rates' := dsStats[d := Stat(total, stat.ref)], last[d := next], rates[d := r];
  }

  // ---------- Runs ----------

  /** One call of `CreateStats`: the precomputed stats of that time and when each came, what Traffic Ops said then, the
      available caches and their services, and the caches that report each service. */
  datatype Pass = Pass(
    pre: Precomputed, times: map<CacheName, LastStats.Precomputed>, t: TOData,
    caches: map<CacheName, bool>, services: map<CacheName, seq<DeliveryServiceName>>,
    reporting: map<DeliveryServiceName, map<CacheName, bool>>)

  function InputsOf(p: Pass): AllInputs {
    AllInputs(p.times, p.reporting, p.t.serverCachegroups, p.t.serverTypes)
  }

  ghost predicate Kept(cells0: Cells, cells: Cells) {
    cells0.Keys <= cells.Keys && forall r | r in cells0 :: SameCounters(cells0[r], cells[r])
  }

  /** The counters of the inputs are balanced, whatever rates were written. */
  lemma {:induction false} StaysBalanced(cells0: Cells, cells: Cells, pre: Precomputed, t: TOData)
    requires Kept(cells0, cells) && BalancedInputs(RawCells(cells0), RawPre(pre), t)
    requires forall p | Present(pre, p) :: At(pre, p).ref in cells0
    ensures BalancedInputs(RawCells(cells), RawPre(pre), t)
  {
    RawSlots(pre, t);
    forall p | Included(RawPre(pre), t, p)
      ensures Balanced(VisitOf(RawCells(cells), RawPre(pre), t, p))
    {
      var v0, v := VisitOf(RawCells(cells0), RawPre(pre), t, p), VisitOf(RawCells(cells), RawPre(pre), t, p);
      forall dim
        ensures Same(Breakdown(v.value, dim), map[NameOf(v, dim) := v.value.total], ZERO)
      {
        assert Balanced(v0) && SameCounters(cells0[At(pre, p).ref], cells[At(pre, p).ref]);
        SameSymmetric(Breakdown(v0.value, dim), Breakdown(v.value, dim));
        SameTransitive(Breakdown(v.value, dim), Breakdown(v0.value, dim), map[NameOf(v, dim) := v.value.total]);
      }
    }
  }

  lemma {:induction false} KeptOn(cells0: Cells, before: Cells, aggregated: Cells, after: Cells)
    requires Kept(cells0, before) && before.Keys <= aggregated.Keys && aggregated.Keys == after.Keys
    requires KeepCounters(before, aggregated)
    requires forall r | r in aggregated :: SameCounters(aggregated[r], after[r])
    ensures Kept(cells0, after)
  {
    forall r | r in cells0
      ensures SameCounters(cells0[r], after[r])
    {
      SameCountersTransitive(cells0[r], before[r], aggregated[r]);
      SameCountersTransitive(cells0[r], aggregated[r], after[r]);
    }
  }

  /** What a pass needs: its precomputed stats are there, apart, balanced in counters, and no service that Traffic Ops does
      not know is reported by two of the servers of which one counts anything. */
  ghost predicate Sound(cells0: Cells, p: Pass) {
    && Apart(p.pre) && (forall q | Present(p.pre, q) :: At(p.pre, q).ref in cells0)
    && Rounds.SharedAreZero(RawPre(p.pre), p.t) && BalancedInputs(RawCells(cells0), RawPre(p.pre), p.t)
  }

  /** What a pass publishes: every service is right in its counters, and its total has the flag iff there is an available
      cache for it or a precomputed stat with the flag. */
  ghost predicate AllRight(published: StatValues, p: Pass) {
    && (forall d | d in published :: RightCounters(published[d], p.pre, p.t, d))
    && (forall d | d in published :: published[d].total.isAvailable <==> Flags.IsToBeFlagged(p.pre, p.t, p.caches, p.services, d))
  }

  lemma {:induction false} FlagsStay(st: State, st': State, p: Pass, rates: AllRates)
    requires AllWritten(st, st', rates) && Flags.FlagsAreRight(st, p.pre, p.t, p.caches, p.services)
    ensures forall d | d in st'.ds :: ViewOf(st')[d].total.isAvailable <==> Flags.IsToBeFlagged(p.pre, p.t, p.caches, p.services, d)
  {
    forall d | d in st'.ds
      ensures ViewOf(st')[d].total.isAvailable <==> Flags.IsToBeFlagged(p.pre, p.t, p.caches, p.services, d)
    {
      assert Written(st, st', d, rates[d]);
      assert Flags.HasFlag(st, d) <==> Flags.IsToBeFlagged(p.pre, p.t, p.caches, p.services, d);
    }
  }

  lemma {:induction false} PassIsRight(cells0: Cells, before: Cells, st: State, st': State, p: Pass, rates: AllRates)
    requires Sound(cells0, p) && Kept(cells0, before) && ResultOf(before, st, p.pre, p.t) && OnlyFlagsAndRates(st, st')
    requires Extends(before, st) && AllWritten(st, st', rates)
    requires Flags.FlagsAreRight(st, p.pre, p.t, p.caches, p.services)
    ensures Kept(cells0, st'.cells) && AllRight(ViewOf(st'), p)
  {
    StaysBalanced(cells0, before, p.pre, p.t);
    KeptOn(cells0, before, st.cells, st'.cells);
    forall d | d in st'.ds
      ensures RightCounters(ViewOf(st')[d], p.pre, p.t, d)
    {
      FlagsAndRatesKeepCounters(st, st', p.pre, p.t, d);
    }
    FlagsStay(st, st', p, rates);
  }

  /** One pass; all that was there keeps its counters, also the maps of a server that a service took over. */
  method RunPass(memory: Memory, p: Pass, last: LastAll, ghost cells0: Cells) returns (o: Outcome)
    requires memory.Valid() && Sound(cells0, p) && Kept(cells0, memory.cells)
    modifies memory
    ensures memory.Valid() && Kept(cells0, memory.cells)
    ensures IsRight(o, p) && IsOutcome(o) && o.last == last
  {
    ghost var before := memory.cells;
    var stats := memory.CreateStats(p.pre, p.t, p.caches, p.services);
    ghost var st := State(memory.cells, stats);
    var dsStats, last', rates := AddPerSecStats(memory, stats, last, InputsOf(p));
    ghost var now := State(memory.cells, dsStats);
    PassIsRight(cells0, before, st, now, p, rates);
    AllPublished(st, now, last, last', rates, InputsOf(p));
    o := Outcome(ViewOf(State(memory.cells, dsStats)), last, last', InputsOf(p));
  }

  ghost predicate IsRight(o: Outcome, p: Pass) {
    AllRight(o.published, p) && o.inputs == InputsOf(p)
  }

  // ---------- What is published ----------

  /** The caches that report a service in a pass, with what was last seen of them. */
  ghost function ReportingIn(o: Outcome, p: Pass, d: DeliveryServiceName): LastStats.Caches
  {
    var caches := LastOf(o.last', d);
    map c | c in caches && d in p.reporting && c in p.reporting[d] && p.reporting[d][c] :: caches[c]
  }

  /** Those of them in a cachegroup, and of a type. */
  ghost function ReportingGroup(o: Outcome, p: Pass, d: DeliveryServiceName, g: CacheGroupName): LastStats.Caches
  {
    var caches := ReportingIn(o, p, d);
    map c | c in caches && c in p.t.serverCachegroups && p.t.serverCachegroups[c] == g :: caches[c]
  }

  ghost function ReportingKind(o: Outcome, p: Pass, d: DeliveryServiceName, k: CacheType): LastStats.Caches
  {
    var caches := ReportingIn(o, p, d);
    map c | c in caches && c in p.t.serverTypes && p.t.serverTypes[c] == k :: caches[c]
  }

  /** The published rates are the sums over the caches. */
  ghost predicate ShowsSums(s: CacheStats, caches: LastStats.Caches) {
    && s.kbps * 125.0 == LastStats.SumOf(caches, LastStats.Bytes).perSec
    && s.tps2xx == LastStats.SumOf(caches, LastStats.Status2xx).perSec && s.tps3xx == LastStats.SumOf(caches, LastStats.Status3xx).perSec
    && s.tps4xx == LastStats.SumOf(caches, LastStats.Status4xx).perSec && s.tps5xx == LastStats.SumOf(caches, LastStats.Status5xx).perSec
    && s.tpsTotal == s.tps2xx + s.tps3xx + s.tps4xx + s.tps5xx
  }

  lemma {:induction false} SumsAreShown(s: CacheStats, l: LastStats.LastStatsData, caches: LastStats.Caches)
    requires ShowsRates(s, l) && forall counter :: LastStats.Pick(l, counter) == LastStats.SumOf(caches, counter)
    ensures ShowsSums(s, caches)
  {
    assert LastStats.Pick(l, LastStats.Bytes) == LastStats.SumOf(caches, LastStats.Bytes);
    assert LastStats.Pick(l, LastStats.Status2xx) == LastStats.SumOf(caches, LastStats.Status2xx);
    assert LastStats.Pick(l, LastStats.Status3xx) == LastStats.SumOf(caches, LastStats.Status3xx);
    assert LastStats.Pick(l, LastStats.Status4xx) == LastStats.SumOf(caches, LastStats.Status4xx);
    assert LastStats.Pick(l, LastStats.Status5xx) == LastStats.SumOf(caches, LastStats.Status5xx);
  }

  /** The sums by name of the last stats. */
  lemma {:induction false} PartsAreSums(parts: map<string, LastStats.LastStatsData>, m: LastStats.Caches, names: map<CacheName, string>, k: string)
    requires forall counter :: LastStats.Breakdown(parts, m, names, counter)
    ensures forall counter ::
      LastStats.Pick(Get(parts, k, LastStats.ZERO), counter) == LastStats.SumOf(LastStats.Named(m, names, Some(k)), counter)
  {
    forall counter
      ensures LastStats.Pick(Get(parts, k, LastStats.ZERO), counter) == LastStats.SumOf(LastStats.Named(m, names, Some(k)), counter)
    {
      assert LastStats.Breakdown(parts, m, names, counter);
    }
  }

  /** The rates are made for the caches that report the service, with the names that Traffic Ops gives. */
  ghost predicate AreSums(r: ServiceRates, m: LastStats.Caches, t: TOData, counter: LastStats.Counter) {
    && LastStats.Pick(r.total, counter) == LastStats.SumOf(m, counter)
    && LastStats.Breakdown(r.groups, m, t.serverCachegroups, counter) && LastStats.Breakdown(r.kinds, m, t.serverTypes, counter)
  }

  lemma {:induction false} SampledAreSums(caches: map<CacheName, CacheStats>, last: LastStats.Caches, r: ServiceRates,
                                          o: Outcome, p: Pass, d: DeliveryServiceName)
    requires Sampled(caches, last, LastOf(o.last', d), r, InputsOf(p).Of(d))
    ensures forall counter :: AreSums(r, ReportingIn(o, p, d), p.t, counter)
  {
    var m := ReportingIn(o, p, d);
    assert LastStats.Reporting(LastOf(o.last', d), InputsOf(p).Of(d).reporting) == m;
    forall counter
      ensures AreSums(r, m, p.t, counter)
    {
      assert LastStats.TotalsOf(LastStats.Summed(r.groups, r.kinds, r.total), m, p.t.serverCachegroups, p.t.serverTypes, counter);
    }
  }

  lemma {:induction false} RatesOf(o: Outcome, p: Pass, d: DeliveryServiceName) returns (r: ServiceRates)
    requires IsOutcome(o) && o.inputs == InputsOf(p) && d in o.published
    ensures HasRates(o.published[d], r) && forall counter :: AreSums(r, ReportingIn(o, p, d), p.t, counter)
  {
    r := RatesAt(o.published[d], LastOf(o.last, d), LastOf(o.last', d), o.inputs.Of(d));
    SampledAreSums(o.published[d].caches, LastOf(o.last, d), r, o, p, d);
  }

  lemma {:induction false} RatesAt(v: StatValue, last: LastStats.Caches, last': LastStats.Caches, inputs: Inputs) returns (r: ServiceRates)
    requires RatesAreRight(v, last, last', inputs)
    ensures HasRates(v, r) && Sampled(v.caches, last, last', r, inputs)
  {
    r :| HasRates(v, r) && Sampled(v.caches, last, last', r, inputs);
  }

  /** What every pass publishes of a service: the rates of its total are the sums over the caches that report it. */
  lemma {:induction false} PublishedTotal(o: Outcome, p: Pass, d: DeliveryServiceName)
    requires IsOutcome(o) && o.inputs == InputsOf(p) && d in o.published
    ensures ShowsSums(o.published[d].total, ReportingIn(o, p, d))
  {
    var r := RatesOf(o, p, d);
    forall counter
      ensures LastStats.Pick(r.total, counter) == LastStats.SumOf(ReportingIn(o, p, d), counter)
    {
      assert AreSums(r, ReportingIn(o, p, d), p.t, counter);
    }
    SumsAreShown(o.published[d].total, r.total, ReportingIn(o, p, d));
  }

  /** Those of a cachegroup whose reporting caches have any rate are the sums over just these. */
  lemma {:induction false} PublishedGroup(o: Outcome, p: Pass, d: DeliveryServiceName, g: CacheGroupName, counter: LastStats.Counter)
    requires IsOutcome(o) && o.inputs == InputsOf(p) && d in o.published
    requires LastStats.SumOf(ReportingGroup(o, p, d, g), counter) != LastStats.NOTHING
    ensures g in o.published[d].groups && ShowsSums(o.published[d].groups[g], ReportingGroup(o, p, d, g))
  {
    var r := RatesOf(o, p, d);
    var m := ReportingIn(o, p, d);
    assert LastStats.Named(m, p.t.serverCachegroups, Some(g)) == ReportingGroup(o, p, d, g);
    forall c
      ensures LastStats.Breakdown(r.groups, m, p.t.serverCachegroups, c)
    {
      assert AreSums(r, m, p.t, c);
    }
    PartIsShown(o.published[d].groups, r.groups, m, p.t.serverCachegroups, g, counter);
  }

  /** And so are those of a type. */
  lemma {:induction false} PublishedKind(o: Outcome, p: Pass, d: DeliveryServiceName, k: CacheType, counter: LastStats.Counter)
    requires IsOutcome(o) && o.inputs == InputsOf(p) && d in o.published
    requires LastStats.SumOf(ReportingKind(o, p, d, k), counter) != LastStats.NOTHING
    ensures k in o.published[d].types && ShowsSums(o.published[d].types[k], ReportingKind(o, p, d, k))
  {
    var r := RatesOf(o, p, d);
    var m := ReportingIn(o, p, d);
    assert LastStats.Named(m, p.t.serverTypes, Some(k)) == ReportingKind(o, p, d, k);
    forall c
      ensures LastStats.Breakdown(r.kinds, m, p.t.serverTypes, c)
    {
      assert AreSums(r, m, p.t, c);
    }
    PartIsShown(o.published[d].types, r.kinds, m, p.t.serverTypes, k, counter);
  }

  /** The caches that get a sample in a pass are those that are published with the service and have a result, with its time. */
  lemma {:induction false} SampleTimes(o: Outcome, p: Pass, d: DeliveryServiceName, c: CacheName)
    requires IsOutcome(o) && o.inputs == InputsOf(p) && d in o.published
    ensures LastStats.At(LastOf(o.last', d), c) ==
      var before, v := LastStats.At(LastOf(o.last, d), c), o.published[d];
      if c in v.caches && c in p.times then LastStats.AddLastStats(before, PollOf(o, d, c).counters, p.times[c].time).0 else before
  {
    OutcomeStep(o, d, c);
  }

  lemma {:induction false} PartIsShown(shown: map<string, CacheStats>, parts: map<string, LastStats.LastStatsData>,
                                       m: LastStats.Caches, names: map<CacheName, string>, k: string,
                                       counter: LastStats.Counter)
    requires forall j | j in parts :: j in shown && ShowsRates(shown[j], parts[j])
    requires forall c :: LastStats.Breakdown(parts, m, names, c)
    requires LastStats.SumOf(LastStats.Named(m, names, Some(k)), counter) != LastStats.NOTHING
    ensures k in shown && ShowsSums(shown[k], LastStats.Named(m, names, Some(k)))
  {
    PartsAreSums(parts, m, names, k);
    if k in parts {
      SumsAreShown(shown[k], parts[k], LastStats.Named(m, names, Some(k)));
    } else {
      LastStats.PickOfZero(counter);
      assert false;
    }
  }

  // ---------- All passes ----------

  ghost predicate AllSound(cells0: Cells, passes: seq<Pass>) {
    forall i | 0 <= i < |passes| :: Sound(cells0, passes[i])
  }

  /** The first elements of `b` are each in a relation to those of `a`. */
  ghost predicate Each<A(!new), B(!new)>(related: (A, B) -> bool, a: seq<A>, b: seq<B>) {
    |a| <= |b| && forall i | 0 <= i < |a| :: related(a[i], b[i])
  }

  lemma {:induction false} EachMore<A(!new), B(!new)>(related: (A, B) -> bool, a: seq<A>, b: seq<B>, x: A)
    requires |a| < |b| && Each(related, a, b) && related(x, b[|a|])
    ensures Each(related, a + [x], b)
  {
  }

  lemma {:induction false} KeptItself(cells: Cells)
    ensures Kept(cells, cells)
  {
  }

  /** In every run of passes every service that is published is right in its counters, its flag and its rates, which follow
      from the counters of all passes so far: no pass spoils the inputs of a later one. Each pass has its own precomputed
      stats, of servers that may have been there in earlier passes or not. The maps of all of them are taken to be in memory
      from the start. */
  method RunPasses(memory: Memory, passes: seq<Pass>) returns (outcomes: seq<Outcome>)
    requires memory.Valid() && AllSound(memory.cells, passes)
    modifies memory
    ensures |outcomes| == |passes| && Each(IsRight, outcomes, passes) && IsSeries(outcomes)
    ensures Kept(old(memory.cells), memory.cells)
  {
    outcomes := [];
    ghost var cells0 := memory.cells;
    KeptItself(cells0);
    for i := 0 to |passes|
      invariant memory.Valid() && Kept(cells0, memory.cells)
      invariant |outcomes| == i && Each(IsRight, outcomes, passes) && IsSeries(outcomes)
    {
      assert Sound(cells0, passes[i]);
      var o := RunPass(memory, passes[i], LastIn(outcomes), cells0);
      EachMore(IsRight, outcomes, passes, o);
      SeriesMore(outcomes, o);
      outcomes := outcomes + [o];
    }
  }
}
