/** What flags and rates that are written into the maps of delivery service stats leave alone
    (`traffic_monitor/ds/stat.go`). */
module Counters {
  import opened Core
  import opened Totals
  import opened DsStats
  import opened Aggregation

  /** The stats without the flag, which is also set before the aggregation, and the rates, which are set after it. */
  function CountersOf(a: CacheStats): CacheStats {
    a.(isAvailable := false, kbps := 0.0, tps5xx := 0.0, tps4xx := 0.0, tps3xx := 0.0, tps2xx := 0.0, tpsTotal := 0.0)
  }

  function Raw(m: map<string, CacheStats>): map<string, CacheStats> {
    map k | k in m :: CountersOf(m[k])
  }

  function RawMaps(m: Maps): Maps {
    Maps(Raw(m.groups), Raw(m.types), Raw(m.caches))
  }

  ghost function RawCells(cells: Cells): Cells {
    map r | r in cells :: RawMaps(cells[r])
  }

  function RawStats(ds: Stats): Stats {
    map d | d in ds :: Stat(CountersOf(ds[d].total), ds[d].ref)
  }

  function RawPre(pre: Precomputed): Precomputed {
    map s | s in pre :: RawStats(pre[s])
  }

  ghost function RawState(st: State): State {
    State(RawCells(st.cells), RawStats(st.ds))
  }

  function RawValue(v: StatValue): StatValue {
    StatValue(CountersOf(v.total), Raw(v.groups), Raw(v.types), Raw(v.caches))
  }

  lemma {:induction false} CountersOfSum(a: CacheStats, b: CacheStats)
    ensures CountersOf(Sum(a, b)) == Sum(CountersOf(a), CountersOf(b))
  {
  }

  lemma {:induction false} RawOfEntry(m: map<string, CacheStats>, k: string, more: map<string, CacheStats>)
    ensures Raw(AddEntry(m, k, more)) == AddEntry(Raw(m), k, Raw(more))
  {
    assert CountersOf(ZERO) == ZERO;
    var a, b := Get(m, k, ZERO), Get(more, k, ZERO);
    CountersOfSum(a, b);
    assert Get(Raw(m), k, ZERO) == CountersOf(a) && Get(Raw(more), k, ZERO) == CountersOf(b);
  }

  lemma {:induction false} RawOfMaps(cells: Cells, r: Ref)
    ensures MapsAt(RawCells(cells), r) == RawMaps(MapsAt(cells, r))
  {
    assert Raw(map[]) == map[];
  }

  lemma {:induction false} RawSlots(pre: Precomputed, t: TOData)
    ensures forall p :: Included(RawPre(pre), t, p) <==> Included(pre, t, p)
    ensures forall p :: Present(RawPre(pre), p) <==> Present(pre, p)
    ensures forall p | Present(pre, p) :: At(RawPre(pre), p) == Stat(CountersOf(At(pre, p).total), At(pre, p).ref)
  {
  }

  lemma {:induction false} RawOfAddMaps(m: Maps, more: Maps, server: CacheName, group: CacheGroupName, kind: CacheType)
    ensures RawMaps(AddMaps(m, more, server, group, kind)) == AddMaps(RawMaps(m), RawMaps(more), server, group, kind)
  {
    RawOfEntry(m.groups, group, more.groups);
    RawOfEntry(m.types, kind, more.types);
    RawOfEntry(m.caches, server, more.caches);
  }

  lemma {:induction false} RawOfUpdate(st: State, r: Ref, m: Maps, d: DeliveryServiceName, total: CacheStats)
    ensures RawState(State(st.cells[r := m], st.ds[d := Stat(total, r)]))
      == State(RawCells(st.cells)[r := RawMaps(m)], RawStats(st.ds)[d := Stat(CountersOf(total), r)])
  {
  }

  lemma {:induction false} RawAddMore(st: State, d: DeliveryServiceName, stat: Stat, server: CacheName,
                                      group: CacheGroupName, kind: CacheType)
    requires d in st.ds
    ensures RawState(AddMore(st, d, stat, server, group, kind))
      == AddMore(RawState(st), d, Stat(CountersOf(stat.total), stat.ref), server, group, kind)
  {
    var mine := st.ds[d];
    var m, more := MapsAt(st.cells, mine.ref), MapsAt(st.cells, stat.ref);
    RawOfMaps(st.cells, mine.ref);
    RawOfMaps(st.cells, stat.ref);
    RawOfAddMaps(m, more, server, group, kind);
    CountersOfSum(mine.total, stat.total);
    RawOfUpdate(st, mine.ref, AddMaps(m, more, server, group, kind), d, Sum(mine.total, stat.total));
  }

  /** Aggregating commutes with leaving flags and rates out. */
  lemma {:induction false} RawAddStat(st: State, pre: Precomputed, t: TOData, p: Slot)
    requires Included(pre, t, p)
    ensures Included(RawPre(pre), t, p)
    ensures RawState(AddStat(st, pre, t, p)) == AddStat(RawState(st), RawPre(pre), t, p)
  {
    RawSlots(pre, t);
    if p.ds in st.ds {
      RawAddMore(st, p.ds, At(pre, p), p.server, t.serverCachegroups[p.server], t.serverTypes[p.server]);
    } else {
      var stat := At(pre, p);
      assert RawStats(st.ds[p.ds := stat]) == RawStats(st.ds)[p.ds := Stat(CountersOf(stat.total), stat.ref)];
    }
  }

  lemma {:induction false} RawAddStats(st: State, pre: Precomputed, t: TOData, order: seq<Slot>)
    requires Slots(order, pre, t)
    ensures Slots(order, RawPre(pre), t)
    ensures RawState(AddStats(st, pre, t, order)) == AddStats(RawState(st), RawPre(pre), t, order)
  {
    RawSlots(pre, t);
    if order != [] {
      var before, p := order[..|order| - 1], order[|order| - 1];
      RawAddStats(st, pre, t, before);
      RawAddStat(AddStats(st, pre, t, before), pre, t, p);
    }
  }

  lemma {:induction false} RawOfValue(cells: Cells, st: Stat)
    ensures ValueOf(RawCells(cells), Stat(CountersOf(st.total), st.ref)) == RawValue(ValueOf(cells, st))
  {
    RawOfMaps(cells, st.ref);
  }

  lemma {:induction false} RawReady(cells0: Cells, st0: State, pre: Precomputed, t: TOData, order: seq<Slot>)
    requires Ready(cells0, st0, pre, t) && Covers(order, pre, t)
    ensures Ready(RawCells(cells0), RawState(st0), RawPre(pre), t) && Covers(order, RawPre(pre), t)
  {
    RawSlots(pre, t);
    forall p | Present(pre, p)
      ensures MapsAt(RawCells(st0.cells), At(pre, p).ref) == MapsAt(RawCells(cells0), At(pre, p).ref)
    {
      RawOfMaps(st0.cells, At(pre, p).ref);
      RawOfMaps(cells0, At(pre, p).ref);
    }
  }

  /** In counters, the stat is the sum over the servers that report the service, in total and by each breakdown. */
  ghost predicate RightCounters(v: StatValue, pre: Precomputed, t: TOData, d: DeliveryServiceName) {
    Correct(RawValue(v), RawPre(pre), t, d)
  }

  /** The stats created in advance have no counters. */
  ghost predicate NoCounters(st: State) {
    forall d | d in st.ds :: SameStat(EMPTY, RawValue(ValueOf(st.cells, st.ds[d])))
  }

  lemma {:induction false} RawStarts(st: State)
    requires NoCounters(st)
    ensures Starts(ViewOf(RawState(st)))
  {
    forall d | d in st.ds
      ensures SameStat(EMPTY, ViewOf(RawState(st))[d])
    {
      RawOfValue(st.cells, st.ds[d]);
    }
  }

  lemma {:induction false} AggregatedCounters(cells0: Cells, st0: State, pre: Precomputed, t: TOData, order: seq<Slot>,
                                              d: DeliveryServiceName)
    requires Ready(cells0, st0, pre, t) && Covers(order, pre, t) && BalancedInputs(RawCells(cells0), RawPre(pre), t)
    requires NoCounters(st0)
    requires d in AddStats(st0, pre, t, order).ds
    ensures var st := AddStats(st0, pre, t, order); RightCounters(ValueOf(st.cells, st.ds[d]), pre, t, d)
  {
    var st := AddStats(st0, pre, t, order);
    RawReady(cells0, st0, pre, t, order);
    RawAddStats(st0, pre, t, order);
    RawStarts(st0);
    TotalsAreCorrect(RawCells(cells0), RawState(st0), RawPre(pre), t, order, d);
    RawOfValue(st.cells, st.ds[d]);
  }

  // ---------- Flags and rates ----------

  /** The maps have the same counters, but for empty entries. */
  ghost predicate SameCounters(m: Maps, m': Maps) {
    && Same(Raw(m.groups), Raw(m'.groups), ZERO)
    && Same(Raw(m.types), Raw(m'.types), ZERO)
    && Same(Raw(m.caches), Raw(m'.caches), ZERO)
  }

  lemma {:induction false} SameTransitive(a: map<string, CacheStats>, b: map<string, CacheStats>, c: map<string, CacheStats>)
    requires Same(a, b, ZERO) && Same(b, c, ZERO)
    ensures Same(a, c, ZERO)
  {
    forall k
      ensures Get(a, k, ZERO) == Get(c, k, ZERO)
    {
      assert Get(a, k, ZERO) == Get(b, k, ZERO);
    }
  }

  lemma {:induction false} SameCountersTransitive(a: Maps, b: Maps, c: Maps)
    requires SameCounters(a, b) && SameCounters(b, c)
    ensures SameCounters(a, c)
  {
    SameTransitive(Raw(a.groups), Raw(b.groups), Raw(c.groups));
    SameTransitive(Raw(a.types), Raw(b.types), Raw(c.types));
    SameTransitive(Raw(a.caches), Raw(b.caches), Raw(c.caches));
  }

  lemma {:induction false} SameSymmetric(a: map<string, CacheStats>, b: map<string, CacheStats>)
    requires Same(a, b, ZERO)
    ensures Same(b, a, ZERO)
  {
    forall k
      ensures Get(b, k, ZERO) == Get(a, k, ZERO)
    {
      assert Get(a, k, ZERO) == Get(b, k, ZERO);
    }
  }

  /** From one state of the maps and stats to another only flags and rates differ. */
  ghost predicate OnlyFlagsAndRates(st: State, st': State) {
    && st'.cells.Keys == st.cells.Keys && (forall r | r in st.cells :: SameCounters(st.cells[r], st'.cells[r]))
    && st'.ds.Keys == st.ds.Keys
    && (forall d | d in st.ds :: st'.ds[d].ref == st.ds[d].ref && CountersOf(st'.ds[d].total) == CountersOf(st.ds[d].total))
  }

  lemma {:induction false} FlagsAndRatesStep(st: State, now: State, d: DeliveryServiceName, m: Maps, total: CacheStats)
    requires OnlyFlagsAndRates(st, now) && d in now.ds && now.ds[d].ref in now.cells
    requires SameCounters(now.cells[now.ds[d].ref], m) && CountersOf(total) == CountersOf(now.ds[d].total)
    ensures OnlyFlagsAndRates(st, State(now.cells[now.ds[d].ref := m], now.ds[d := Stat(total, now.ds[d].ref)]))
  {
    var ref := now.ds[d].ref;
    SameCountersTransitive(st.cells[ref], now.cells[ref], m);
  }

  lemma {:induction false} FlagsAndRatesKeepCounters(st: State, st': State, pre: Precomputed, t: TOData, d: DeliveryServiceName)
    requires OnlyFlagsAndRates(st, st') && d in st.ds && st.ds[d].ref in st.cells
    requires RightCounters(ValueOf(st.cells, st.ds[d]), pre, t, d)
    ensures RightCounters(ValueOf(st'.cells, st'.ds[d]), pre, t, d)
  {
    var a, b := RawValue(ValueOf(st.cells, st.ds[d])), RawValue(ValueOf(st'.cells, st'.ds[d]));
    forall dim
      ensures Same(Breakdown(a, dim), Breakdown(b, dim), ZERO) && SumOf(Breakdown(a, dim)) == SumOf(Breakdown(b, dim))
    {
      SumOfSame(Breakdown(a, dim), Breakdown(b, dim));
    }
    forall dim, name
      ensures Get(Breakdown(b, dim), name, ZERO) == SumOf(Expected(RawPre(pre), t, d, Entry(dim, name)))
    {
      assert Same(Breakdown(a, dim), Breakdown(b, dim), ZERO);
      assert Get(Breakdown(a, dim), name, ZERO) == SumOf(Expected(RawPre(pre), t, d, Entry(dim, name)));
    }
  }
}
