/** Creating delivery service stats in memory (`traffic_monitor/ds/stat.go`). */
module CreateStats {
  import opened Core
  import opened Totals
  import opened DsStats
  import opened Aggregation
  import opened Counters
  import Flags
  import Rounds

  /** An empty stat for each delivery service of Traffic Ops, in new maps of its own. */
  ghost predicate Created(cells0: Cells, st: State, t: TOData) {
    && Separate(st.ds) && st.ds.Keys == Named(t)
    && (forall d | d in st.ds :: st.ds[d].ref !in cells0 && st.ds[d].ref in st.cells && ValueOf(st.cells, st.ds[d]) == EMPTY)
    && cells0.Keys <= st.cells.Keys && (forall r | r in cells0 :: st.cells[r] == cells0[r])
  }

  /** Maps that are of none of the stats are left alone. */
  ghost predicate KeepsOthers(st: State, cells: Cells) {
    forall r | r in st.cells && (forall d | d in st.ds :: st.ds[d].ref != r) :: r in cells && cells[r] == st.cells[r]
  }

  /** Stats that were created empty, and got flags. */
  ghost predicate Flagged(cells0: Cells, empty: State, st: State, t: TOData) {
    Created(cells0, empty, t) && OnlyFlagsAndRates(empty, st) && KeepsOthers(empty, st.cells)
  }

  ghost predicate Added(st0: State, st: State, pre: Precomputed, t: TOData, order: seq<Slot>) {
    Covers(order, pre, t) && st == AddStats(st0, pre, t, order)
  }

  /** No map is gone, and those of the stats are there. */
  ghost predicate Extends(cells0: Cells, st: State) {
    cells0.Keys <= st.cells.Keys && forall d | d in st.ds :: st.ds[d].ref in st.cells
  }

  /** The memory that holds the shared maps. */
  class Memory {
    var cells: Cells
    var next: Ref

    ghost predicate Valid()
      reads this
    {
      forall r | r in cells :: r < next
    }

    ghost predicate Holds(pre: Precomputed)
      reads this
    {
      Apart(pre) && forall p | Present(pre, p) :: At(pre, p).ref in cells
    }

    /** Creates an empty stat for each delivery service of Traffic Ops. */
    method CreateEmpty(t: TOData) returns (dsStats: Stats)
      requires Valid()
      modifies this
      ensures Valid() && Created(old(cells), State(cells, dsStats), t)
    {
      dsStats := map[];
      var todo := t.deliveryServiceServers.Keys;
      while todo != {}
        invariant todo <= t.deliveryServiceServers.Keys
        invariant Valid() && Separate(dsStats) && next >= old(next) && forall d | d in dsStats :: dsStats[d].ref in cells
        invariant dsStats.Keys == set d | d in t.deliveryServiceServers && d !in todo && d != ""
        invariant forall d | d in dsStats :: old(next) <= dsStats[d].ref < next && ValueOf(cells, dsStats[d]) == EMPTY
        invariant old(cells).Keys <= cells.Keys && forall r | r in old(cells) :: cells[r] == old(cells)[r]
        decreases todo
      {
        var d :| d in todo;
        todo := todo - {d};
        if d != "" {
          dsStats := dsStats[d := Stat(ZERO, next)];
          cells := cells[next := Maps(map[], map[], map[])];
          next := next + 1;
        }
      }
    }

    /** Adds every delivery service stat of one server, in any order. */
    method AddServer(dsStats: Stats, pre: Precomputed, t: TOData, server: CacheName,
                     ghost st0: State, ghost order: seq<Slot>)
        returns (dsStats': Stats, ghost order': seq<Slot>)
      requires server in pre && Counted(t, server)
      requires Slots(order, pre, t) && forall p | p in order :: p.server != server
      requires State(cells, dsStats) == AddStats(st0, pre, t, order)
      modifies this`cells
      ensures Slots(order', pre, t)
      ensures forall p :: p in order' <==> p in order || (p.server == server && Included(pre, t, p))
      ensures State(cells, dsStats') == AddStats(st0, pre, t, order')
    {
      dsStats', order' := dsStats, order;
      var todo := pre[server].Keys;
      while todo != {}
        invariant todo <= pre[server].Keys
        invariant AddedBut(order', order, pre, t, server, todo) && State(cells, dsStats') == AddStats(st0, pre, t, order')
        decreases todo
      {
        var d :| d in todo;
        AddStep(st0, order', order, pre, t, server, todo, d);
        todo := todo - {d};
        if d != "" {
          var st := AddStat(State(cells, dsStats'), pre, t, Slot(server, d));
          cells, dsStats' := st.cells, st.ds;
          order' := order' + [Slot(server, d)];
        }
      }
    }

    /** Sets the flags of the delivery services of each available cache: in the total, its cachegroup and its type, in
        maps that were made for them. */
    method AddAvailableData(dsStats: Stats, t: TOData, caches: map<CacheName, bool>,
                            services: map<CacheName, seq<DeliveryServiceName>>)
        returns (dsStats': Stats)
      requires forall d | d in dsStats :: dsStats[d].ref in cells
      modifies this`cells
      ensures OnlyFlagsAndRates(State(old(cells), dsStats), State(cells, dsStats'))
      ensures KeepsOthers(State(old(cells), dsStats), cells)
      ensures Separate(dsStats) ==>
        Flags.AllFlags(State(old(cells), dsStats), State(cells, dsStats'), Flags.MarksOf(dsStats, t, caches, services))
    {
      dsStats' := dsStats;
      ghost var st, marks := State(cells, dsStats), {};
      NothingFlagged(st);
      Flags.AllMarks(dsStats, t, caches, services);
      var todo := caches.Keys;
      while todo != {}
        invariant todo <= caches.Keys && marks == Flags.MarksBut(dsStats, t, caches, services, todo)
        invariant FlaggedSoFar(st, State(cells, dsStats'), marks)
        decreases todo
      {
        var c :| c in todo;
        Flags.MarksOfOne(dsStats, t, caches, services, todo, c);
        todo := todo - {c};
        if c in t.serverCachegroups && c in t.serverTypes && c in services {
          dsStats', marks := AddCache(dsStats', t, caches, services[c], c, st, marks);
        }
      }
      Flags.AllMarks(dsStats, t, caches, services);
    }

    /** The services of one cache. */
    method AddCache(dsStats: Stats, t: TOData, caches: map<CacheName, bool>, services: seq<DeliveryServiceName>, c: CacheName,
                    ghost st: State, ghost marks: set<Flags.Mark>)
        returns (dsStats': Stats, ghost marks': set<Flags.Mark>)
      requires c in caches && c in t.serverCachegroups && c in t.serverTypes
      requires FlaggedSoFar(st, State(cells, dsStats), marks)
      modifies this`cells
      ensures FlaggedSoFar(st, State(cells, dsStats'), marks')
      ensures marks' == marks + Flags.MarksTo(st.ds, t, caches, services, c, |services|)
    {
      dsStats', marks' := dsStats, marks;
      for i := 0 to |services|
        invariant FlaggedSoFar(st, State(cells, dsStats'), marks')
        invariant marks' == marks + Flags.MarksTo(st.ds, t, caches, services, c, i)
      {
        Flags.MarksToNext(st.ds, t, caches, services, c, i, marks);
        dsStats', marks' := AddService(dsStats', Flags.Mark(services[i], t.serverCachegroups[c], t.serverTypes[c]), caches[c], st, marks');
      }
    }

    method AddService(dsStats: Stats, k: Flags.Mark, available: bool, ghost st: State, ghost marks: set<Flags.Mark>)
        returns (dsStats': Stats, ghost marks': set<Flags.Mark>)
      requires FlaggedSoFar(st, State(cells, dsStats), marks)
      modifies this`cells
      ensures FlaggedSoFar(st, State(cells, dsStats'), marks')
      ensures marks' == marks + if k.ds != "" && k.ds in st.ds && available then {k} else {}
    {
      dsStats', marks' := dsStats, marks;
      assert dsStats.Keys == st.ds.Keys;
      if k.ds == "" || k.ds !in dsStats || !available {
        return;
      }
      FlagStep(st, State(cells, dsStats), marks, k);
      var now := Flags.Flag(State(cells, dsStats), k);
      cells, dsStats', marks' := now.cells, now.ds, marks + {k};
    }

    /** Adds the stats of all counted servers, in any order. */
    method AddServers(dsStats: Stats, pre: Precomputed, t: TOData) returns (dsStats': Stats, ghost order: seq<Slot>)
      modifies this`cells
      ensures Added(State(old(cells), dsStats), State(cells, dsStats'), pre, t, order)
    {
      ghost var st0 := State(cells, dsStats);
      dsStats', order := dsStats, [];
      var todo := pre.Keys;
      while todo != {}
        invariant todo <= pre.Keys
        invariant Slots(order, pre, t)
        invariant forall p :: p in order <==> p.server !in todo && Included(pre, t, p)
        invariant State(cells, dsStats') == AddStats(st0, pre, t, order)
        decreases todo
      {
        var server :| server in todo;
        todo := todo - {server};
        if server in t.serverCachegroups && server in t.serverTypes {
          dsStats', order := AddServer(dsStats', pre, t, server, st0, order);
        }
      }
    }

    /** What is there before the stats of the servers are added. */
    method CreateInAdvance(t: TOData, caches: map<CacheName, bool>, services: map<CacheName, seq<DeliveryServiceName>>)
        returns (dsStats: Stats, ghost empty: State)
      requires Valid()
      modifies this
      ensures Valid() && Flagged(old(cells), empty, State(cells, dsStats), t)
      ensures Flags.AllFlags(empty, State(cells, dsStats), Flags.MarksOf(empty.ds, t, caches, services))
    {
      dsStats := CreateEmpty(t);
      empty := State(cells, dsStats);
      dsStats := AddAvailableData(dsStats, t, caches, services);
    }

    /** The delivery service stats made from the precomputed stats of all servers, with the flags of available caches. */
    method CreateStats(pre: Precomputed, t: TOData, caches: map<CacheName, bool>, services: map<CacheName, seq<DeliveryServiceName>>)
        returns (dsStats: Stats)
      requires Valid() && Holds(pre)
      modifies this
      ensures Valid() && Extends(old(cells), State(cells, dsStats))
      ensures ResultOf(old(cells), State(cells, dsStats), pre, t)
      ensures Flags.FlagsAreRight(State(cells, dsStats), pre, t, caches, services)
    {
      ghost var cells0 := cells;
      ghost var empty, order;
      dsStats, empty := CreateInAdvance(t, caches, services);
      ghost var st0 := State(cells, dsStats);
      dsStats, order := AddServers(dsStats, pre, t);
      Finished(cells0, empty, st0, State(cells, dsStats), pre, t, order);
      FlaggedTotals(cells0, empty, st0, State(cells, dsStats), pre, t, order, caches, services);
    }
  }

  /** The stats of one server but those in `todo` are added. */
  ghost predicate AddedBut(order': seq<Slot>, order: seq<Slot>, pre: Precomputed, t: TOData, server: CacheName, todo: set<DeliveryServiceName>) {
    && Slots(order', pre, t)
    && forall p :: p in order' <==> p in order || (p.server == server && p.ds !in todo && Included(pre, t, p))
  }

  lemma {:induction false} AddStep(st0: State, order': seq<Slot>, order: seq<Slot>, pre: Precomputed, t: TOData,
                                   server: CacheName, todo: set<DeliveryServiceName>, d: DeliveryServiceName)
    requires AddedBut(order', order, pre, t, server, todo) && server in pre && d in pre[server] && d in todo
    requires Counted(t, server) && forall p | p in order :: p.server != server
    ensures d == "" ==> AddedBut(order', order, pre, t, server, todo - {d})
    ensures d != "" ==>
      && AddedBut(order' + [Slot(server, d)], order, pre, t, server, todo - {d})
      && AddStats(st0, pre, t, order' + [Slot(server, d)]) == AddStat(AddStats(st0, pre, t, order'), pre, t, Slot(server, d))
  {
    if d != "" {
      var p := Slot(server, d);
      assert p !in order';
      assert (order' + [p])[..|order'|] == order';
    }
  }

  /** The flags that the marks ask for are set, in maps made for the services, and nothing else is changed. */
  ghost predicate FlaggedSoFar(st: State, now: State, marks: set<Flags.Mark>) {
    && (forall d | d in st.ds :: st.ds[d].ref in st.cells)
    && OnlyFlagsAndRates(st, now) && KeepsOthers(st, now.cells) && (Separate(st.ds) ==> Flags.AllFlags(st, now, marks))
  }

  lemma {:induction false} NothingFlagged(st: State)
    requires forall d | d in st.ds :: st.ds[d].ref in st.cells
    ensures FlaggedSoFar(st, st, {})
  {
    Flags.NoMarks(st);
  }

  lemma {:induction false} FlagKeepsRest(st: State, now: State, k: Flags.Mark)
    requires forall d | d in st.ds :: st.ds[d].ref in st.cells
    requires OnlyFlagsAndRates(st, now) && k.ds in now.ds
    ensures OnlyFlagsAndRates(st, Flags.Flag(now, k))
  {
    var stat := now.ds[k.ds];
    var m := MapsAt(now.cells, stat.ref);
    FlagKeepsCounters(m.groups, k.group);
    FlagKeepsCounters(m.types, k.kind);
    assert stat.ref == st.ds[k.ds].ref && stat.ref in now.cells;
    FlagsAndRatesStep(st, now, k.ds, Flags.FlagMaps(m, k), stat.total.(isAvailable := true));
  }

  lemma {:induction false} FlagKeepsOthers(st: State, now: State, k: Flags.Mark)
    requires OnlyFlagsAndRates(st, now) && KeepsOthers(st, now.cells) && k.ds in now.ds
    ensures KeepsOthers(st, Flags.Flag(now, k).cells)
  {
    assert k.ds in st.ds && st.ds[k.ds].ref == now.ds[k.ds].ref;
  }

  lemma {:induction false} FlagStep(st: State, now: State, marks: set<Flags.Mark>, k: Flags.Mark)
    requires FlaggedSoFar(st, now, marks) && k.ds in now.ds
    ensures FlaggedSoFar(st, Flags.Flag(now, k), marks + {k})
  {
    FlagKeepsRest(st, now, k);
    FlagKeepsOthers(st, now, k);
    if Separate(st.ds) {
      Flags.FlagStep(st, now, marks, k);
    }
  }

  lemma {:induction false} FlagKeepsCounters(m: map<string, CacheStats>, k: string)
    ensures Same(Raw(m), Raw(m[k := Get(m, k, ZERO).(isAvailable := true)]), ZERO)
  {
    assert CountersOf(ZERO) == ZERO;
    var m' := m[k := Get(m, k, ZERO).(isAvailable := true)];
    forall j
      ensures Get(Raw(m), j, ZERO) == Get(Raw(m'), j, ZERO)
    {
    }
  }

  lemma {:induction false} FlagsAreNoCounters(cells0: Cells, empty: State, st0: State, t: TOData, d: DeliveryServiceName)
    requires Flagged(cells0, empty, st0, t) && d in st0.ds
    ensures SameStat(EMPTY, RawValue(ValueOf(st0.cells, st0.ds[d])))
  {
    assert Raw(map[]) == map[];
    assert RawValue(ValueOf(empty.cells, empty.ds[d])) == EMPTY;
    assert SameCounters(empty.cells[empty.ds[d].ref], st0.cells[empty.ds[d].ref]);
    forall dim
      ensures Same(Breakdown(EMPTY, dim), Breakdown(RawValue(ValueOf(st0.cells, st0.ds[d])), dim), ZERO)
    {
    }
  }

  /** Stats made in advance, apart from what was there, and with flags at most. */
  lemma {:induction false} StartsReady(cells0: Cells, empty: State, st0: State, pre: Precomputed, t: TOData)
    requires Apart(pre) && forall p | Present(pre, p) :: At(pre, p).ref in cells0
    requires Flagged(cells0, empty, st0, t)
    ensures Ready(cells0, st0, pre, t) && NoCounters(st0)
    ensures forall r | r in cells0 :: MapsAt(st0.cells, r) == MapsAt(cells0, r)
  {
    forall d | d in st0.ds
      ensures SameStat(EMPTY, RawValue(ValueOf(st0.cells, st0.ds[d])))
    {
      FlagsAreNoCounters(cells0, empty, st0, t, d);
    }
  }

  ghost predicate KeepCounters(cells: Cells, cells': Cells) {
    forall r | r in cells :: SameCounters(cells[r], MapsAt(cells', r))
  }

  lemma {:induction false} SharedZeroKeepsCounters(cells0: Cells, st0: State, pre: Precomputed, t: TOData, order: seq<Slot>)
    requires Covers(order, pre, t) && Ready(cells0, st0, pre, t)
    requires forall r | r in cells0 :: MapsAt(st0.cells, r) == MapsAt(cells0, r)
    requires forall d | d in st0.ds :: st0.ds[d].ref !in cells0
    requires BalancedInputs(RawCells(cells0), RawPre(pre), t) && Rounds.SharedAreZero(RawPre(pre), t)
    ensures KeepCounters(cells0, AddStats(st0, pre, t, order).cells)
  {
    var st := AddStats(st0, pre, t, order);
    RawReady(cells0, st0, pre, t, order);
    RawAddStats(st0, pre, t, order);
    Rounds.ReadyIsBalanced(RawCells(cells0), RawState(st0), RawPre(pre), t);
    Rounds.OthersStaySame(RawState(st0), RawPre(pre), t, order);
    forall r | r in cells0
      ensures SameCounters(cells0[r], MapsAt(st.cells, r))
    {
      assert Rounds.NotMade(RawState(st0), r);
      assert Rounds.StaySame(RawCells(st0.cells), RawCells(st.cells), r);
      RawOfMaps(st0.cells, r);
      RawOfMaps(st.cells, r);
    }
  }

  /** What the aggregation promises: if the inputs are balanced in counters, every total is right in counters; the
      services are exactly those of Traffic Ops and those reported, and share no maps with each other; unless services are
      shared, the maps that were there are left alone; they keep their counters as long as those that are shared have none;
      and if the inputs are fresh, they are as they were iff none are shared. */
  ghost predicate ResultOf(cells0: Cells, st: State, pre: Precomputed, t: TOData) {
    && (BalancedInputs(RawCells(cells0), RawPre(pre), t) ==>
          forall d | d in st.ds :: RightCounters(ValueOf(st.cells, st.ds[d]), pre, t, d))
    && (forall d :: d in st.ds <==> d != "" && (d in t.deliveryServiceServers || exists s :: Included(pre, t, Slot(s, d))))
    && Separate(st.ds)
    && (NoneShared(pre, t) ==> forall r | r in cells0 :: MapsAt(st.cells, r) == MapsAt(cells0, r))
    && (BalancedInputs(RawCells(cells0), RawPre(pre), t) && Rounds.SharedAreZero(RawPre(pre), t) ==> KeepCounters(cells0, st.cells))
    && (FreshInputs(cells0, pre, t) ==> (NoneShared(pre, t) <==> InputsKept(cells0, st, pre)))
  }

  lemma {:induction false} Aggregated(cells0: Cells, st0: State, pre: Precomputed, t: TOData, order: seq<Slot>)
    requires Covers(order, pre, t) && Ready(cells0, st0, pre, t) && NoCounters(st0)
    requires forall r | r in cells0 :: MapsAt(st0.cells, r) == MapsAt(cells0, r)
    requires forall d | d in st0.ds :: st0.ds[d].ref !in cells0
    ensures ResultOf(cells0, AddStats(st0, pre, t, order), pre, t)
  {
    var st := AddStats(st0, pre, t, order);
    FinalServices(cells0, ViewOf(st0), pre, t, order);
    FinalShows(cells0, st0, pre, t, order);
    AddStatsRefines(st0, ViewOf(st0), pre, t, order);
    if BalancedInputs(RawCells(cells0), RawPre(pre), t) {
      forall d | d in st.ds
        ensures RightCounters(ValueOf(st.cells, st.ds[d]), pre, t, d)
      {
        AggregatedCounters(cells0, st0, pre, t, order, d);
      }
    }
    if NoneShared(pre, t) {
      UnsharedLeavesInputs(st0, pre, t, order);
    }
    if BalancedInputs(RawCells(cells0), RawPre(pre), t) && Rounds.SharedAreZero(RawPre(pre), t) {
      SharedZeroKeepsCounters(cells0, st0, pre, t, order);
    }
    if FreshInputs(cells0, pre, t) {
      InputsAreKeptIff(cells0, st0, pre, t, order);
    }
  }

  lemma {:induction false} Finished(cells0: Cells, empty: State, st0: State, st: State, pre: Precomputed, t: TOData, order: seq<Slot>)
    requires Apart(pre) && forall p | Present(pre, p) :: At(pre, p).ref in cells0
    requires Flagged(cells0, empty, st0, t)
    requires Added(st0, st, pre, t, order)
    ensures ResultOf(cells0, st, pre, t) && Extends(cells0, st) && st.cells.Keys == st0.cells.Keys
  {
    StartsReady(cells0, empty, st0, pre, t);
    CellsAreKept(st0, pre, t, order);
    Aggregated(cells0, st0, pre, t, order);
  }

  lemma {:induction false} FlaggedTotals(cells0: Cells, empty: State, st0: State, st: State, pre: Precomputed,
                                         t: TOData, order: seq<Slot>, caches: map<CacheName, bool>,
                                         services: map<CacheName, seq<DeliveryServiceName>>)
    requires Flagged(cells0, empty, st0, t) && Added(st0, st, pre, t, order)
    requires Flags.AllFlags(empty, st0, Flags.MarksOf(empty.ds, t, caches, services))
    ensures Flags.FlagsAreRight(st, pre, t, caches, services)
  {
    Flags.FlagsEndRight(empty, st0, pre, t, order, caches, services);
  }
}
