/** Adding up precomputed stats, with the maps that copies of a stat share (`traffic_monitor/ds/stat.go`). */
module Aggregation {
  import opened Core
  import opened Totals
  import opened DsStats

  /** The three maps of a stat are references: a copy of the stat shares them. */
  type Ref = nat
  datatype Maps = Maps(groups: map<string, CacheStats>, types: map<string, CacheStats>, caches: map<string, CacheStats>)
  datatype Stat = Stat(total: CacheStats, ref: Ref)

  type Cells = map<Ref, Maps>
  type Stats = map<DeliveryServiceName, Stat>
  type Precomputed = map<CacheName, Stats>

  datatype TOData = TOData(
    deliveryServiceServers: map<DeliveryServiceName, seq<CacheName>>,
    serverCachegroups: map<CacheName, CacheGroupName>,
    serverTypes: map<CacheName, CacheType>)

  function MapsAt(cells: Cells, r: Ref): Maps {
    if r in cells then cells[r] else Maps(map[], map[], map[])
  }

  function ValueOf(cells: Cells, st: Stat): StatValue {
    var m := MapsAt(cells, st.ref);
    StatValue(st.total, m.groups, m.types, m.caches)
  }

  /** Servers without a cachegroup or type are not counted. */
  predicate Counted(t: TOData, server: CacheName) {
    server in t.serverCachegroups && server in t.serverTypes
  }

  /** One stat of one server. */
  datatype Slot = Slot(server: CacheName, ds: DeliveryServiceName)

  predicate Present(pre: Precomputed, p: Slot) {
    p.server in pre && p.ds in pre[p.server]
  }

  /** The slots whose stats are added. */
  predicate Included(pre: Precomputed, t: TOData, p: Slot) {
    Present(pre, p) && p.ds != "" && Counted(t, p.server)
  }

  function At(pre: Precomputed, p: Slot): Stat
    requires Present(pre, p)
  {
    pre[p.server][p.ds]
  }

  function VisitOf(cells: Cells, pre: Precomputed, t: TOData, p: Slot): Visit
    requires Included(pre, t, p)
  {
    Visit(p.server, p.ds, t.serverCachegroups[p.server], t.serverTypes[p.server], ValueOf(cells, At(pre, p)))
  }

  // ---------- One stat ----------

  /** The shared maps, and the stats of the result. */
  datatype State = State(cells: Cells, ds: Stats)

  /** The entries of the maps for one server, increased by those of another stat. */
  function AddMaps(m: Maps, more: Maps, server: CacheName, group: CacheGroupName, kind: CacheType): Maps {
    Maps(AddEntry(m.groups, group, more.groups), AddEntry(m.types, kind, more.types), AddEntry(m.caches, server, more.caches))
  }

  /** Adds the stat of a server to that of a delivery service which is there. */
  function AddMore(st: State, d: DeliveryServiceName, stat: Stat, server: CacheName, group: CacheGroupName, kind: CacheType): State
    requires d in st.ds
  {
    var mine := st.ds[d];
    var maps := AddMaps(MapsAt(st.cells, mine.ref), MapsAt(st.cells, stat.ref), server, group, kind);
    State(st.cells[mine.ref := maps], st.ds[d := Stat(Sum(mine.total, stat.total), mine.ref)])
  }

  /** Adds one stat. A delivery service that is not there yet gets the stat itself, maps and all. */
  function AddStat(st: State, pre: Precomputed, t: TOData, p: Slot): State
    requires Included(pre, t, p)
  {
    var stat := At(pre, p);
    if p.ds !in st.ds then State(st.cells, st.ds[p.ds := stat])
    else AddMore(st, p.ds, stat, p.server, t.serverCachegroups[p.server], t.serverTypes[p.server])
  }

  ghost predicate Slots(order: seq<Slot>, pre: Precomputed, t: TOData) {
    && (forall i, j | 0 <= i < j < |order| :: order[i] != order[j])
    && (forall i | 0 <= i < |order| :: Included(pre, t, order[i]))
  }

  ghost function AddStats(st: State, pre: Precomputed, t: TOData, order: seq<Slot>): State
    requires Slots(order, pre, t)
  {
    if order == [] then st
    else AddStat(AddStats(st, pre, t, order[..|order| - 1]), pre, t, order[|order| - 1])
  }

  ghost function Visits(cells: Cells, pre: Precomputed, t: TOData, order: seq<Slot>): (visits: seq<Visit>)
    requires Slots(order, pre, t)
    ensures Distinct(visits)
  {
    seq(|order|, i requires 0 <= i < |order| => VisitOf(cells, pre, t, order[i]))
  }

  // ---------- Well-formed states ----------

  /** No two precomputed stats share their maps. */
  ghost predicate Apart(pre: Precomputed) {
    forall p, q | Present(pre, p) && Present(pre, q) && p != q :: At(pre, p).ref != At(pre, q).ref
  }

  ghost predicate Separate(ds: Stats) {
    forall d, e | d in ds && e in ds && d != e :: ds[d].ref != ds[e].ref
  }

  /** `view` is what the stats hold. */
  ghost predicate Shows(st: State, view: StatValues) {
    && st.ds.Keys == view.Keys
    && (forall d | d in st.ds :: ValueOf(st.cells, st.ds[d]) == view[d])
  }

  /** The slots that are still to come hold what they held at the start, and are not shared with the
      result. */
  ghost predicate Pending(cells0: Cells, st: State, pre: Precomputed, order: seq<Slot>) {
    forall p | Present(pre, p) && p !in order ::
      && MapsAt(st.cells, At(pre, p).ref) == MapsAt(cells0, At(pre, p).ref)
      && (forall d | d in st.ds :: st.ds[d].ref != At(pre, p).ref)
  }

  lemma {:induction false} SeparateStep(st: State, pre: Precomputed, t: TOData, p: Slot)
    requires Included(pre, t, p) && Separate(st.ds)
    requires forall d | d in st.ds :: st.ds[d].ref != At(pre, p).ref
    ensures Separate(AddStat(st, pre, t, p).ds)
  {
  }

  lemma {:induction false} ShowsStep(st: State, pre: Precomputed, t: TOData, p: Slot, view: StatValues)
    requires Included(pre, t, p) && Separate(st.ds) && Shows(st, view)
    requires forall d | d in st.ds :: st.ds[d].ref != At(pre, p).ref
    ensures Shows(AddStat(st, pre, t, p), AddVisit(view, VisitOf(st.cells, pre, t, p)))
  {
    var st', view' := AddStat(st, pre, t, p), AddVisit(view, VisitOf(st.cells, pre, t, p));
    assert ValueOf(st'.cells, st'.ds[p.ds]) == view'[p.ds];
    forall d | d in st'.ds && d != p.ds
      ensures ValueOf(st'.cells, st'.ds[d]) == view'[d]
    {
      assert st'.ds[d] == st.ds[d] && MapsAt(st'.cells, st.ds[d].ref) == MapsAt(st.cells, st.ds[d].ref);
    }
  }

  lemma {:induction false} PendingStep(cells0: Cells, st: State, pre: Precomputed, t: TOData, order: seq<Slot>, p: Slot)
    requires Included(pre, t, p) && Apart(pre) && Pending(cells0, st, pre, order)
    ensures Pending(cells0, AddStat(st, pre, t, p), pre, order + [p])
  {
    assert (order + [p])[|order|] == p;
    assert forall q :: q in order ==> q in order + [p];
  }

  lemma {:induction false} VisitsStep(cells: Cells, pre: Precomputed, t: TOData, order: seq<Slot>)
    requires Slots(order, pre, t) && order != []
    ensures var before, p := order[..|order| - 1], order[|order| - 1];
            Visits(cells, pre, t, order) == Visits(cells, pre, t, before) + [VisitOf(cells, pre, t, p)]
    ensures order[|order| - 1] !in order[..|order| - 1]
  {
  }

  lemma {:induction false} AddAllStep(initial: StatValues, visits: seq<Visit>, v: Visit)
    ensures AddAll(initial, visits + [v]) == AddVisit(AddAll(initial, visits), v)
  {
    assert (visits + [v])[..|visits|] == visits;
  }

  ghost predicate Refined(cells0: Cells, now: State, view: StatValues, pre: Precomputed, order: seq<Slot>) {
    Separate(now.ds) && Shows(now, view) && Pending(cells0, now, pre, order)
  }

  /** The loop refines the sums on values: whatever the order, the shared maps show the visits made. */
  lemma {:induction false} AddStatsRefines(st: State, initial: StatValues, pre: Precomputed, t: TOData, order: seq<Slot>)
    requires Slots(order, pre, t) && Apart(pre) && Refined(st.cells, st, initial, pre, [])
    ensures Refined(st.cells, AddStats(st, pre, t, order), AddAll(initial, Visits(st.cells, pre, t, order)), pre, order)
  {
    if order == [] {
      assert Visits(st.cells, pre, t, order) == [];
    } else {
      var before, p := order[..|order| - 1], order[|order| - 1];
      AddStatsRefines(st, initial, pre, t, before);
      LastSlot(st, initial, pre, t, order);
      RefineStep(st.cells, AddStats(st, pre, t, before), AddAll(initial, Visits(st.cells, pre, t, before)), pre, t, before, p);
    }
  }

  lemma {:induction false} LastSlot(st: State, initial: StatValues, pre: Precomputed, t: TOData, order: seq<Slot>)
    requires Slots(order, pre, t) && order != []
    ensures var before, p := order[..|order| - 1], order[|order| - 1];
      && AddStats(st, pre, t, order) == AddStat(AddStats(st, pre, t, before), pre, t, p)
      && AddAll(initial, Visits(st.cells, pre, t, order))
         == AddVisit(AddAll(initial, Visits(st.cells, pre, t, before)), VisitOf(st.cells, pre, t, p))
      && before + [p] == order && p !in before
  {
    var before, p := order[..|order| - 1], order[|order| - 1];
    VisitsStep(st.cells, pre, t, order);
    AddAllStep(initial, Visits(st.cells, pre, t, before), VisitOf(st.cells, pre, t, p));
  }

  lemma {:induction false} RefineStep(cells0: Cells, now: State, view: StatValues, pre: Precomputed, t: TOData, order: seq<Slot>, p: Slot)
    requires Apart(pre) && Included(pre, t, p) && p !in order && Refined(cells0, now, view, pre, order)
    ensures Refined(cells0, AddStat(now, pre, t, p), AddVisit(view, VisitOf(cells0, pre, t, p)), pre, order + [p])
  {
    assert VisitOf(now.cells, pre, t, p) == VisitOf(cells0, pre, t, p);
    SeparateStep(now, pre, t, p);
    ShowsStep(now, pre, t, p, view);
    PendingStep(cells0, now, pre, t, order, p);
  }

  // ---------- What the sums range over ----------

  /** Whether a server belongs to a part. */
  ghost predicate IsPartOf(t: TOData, server: CacheName, part: Part)
    requires Counted(t, server)
  {
    match part
    case Whole => true
    case Entry(ByGroup, name) => t.serverCachegroups[server] == name
    case Entry(ByType, name) => t.serverTypes[server] == name
    case Entry(ByCache, name) => server == name
  }

  /** The totals of the included servers of a part: no order is left. */
  ghost function Expected(pre: Precomputed, t: TOData, d: DeliveryServiceName, part: Part): map<string, CacheStats> {
    map s | s in pre && Included(pre, t, Slot(s, d)) && IsPartOf(t, s, part) ::
      At(pre, Slot(s, d)).total
  }

  ghost function ExpectedSoFar(pre: Precomputed, t: TOData, d: DeliveryServiceName, part: Part,
                               order: seq<Slot>): map<string, CacheStats>
  {
    map s | s in Expected(pre, t, d, part) && Slot(s, d) in order :: At(pre, Slot(s, d)).total
  }

  lemma {:induction false} ExpectedStep(cells: Cells, pre: Precomputed, t: TOData, d: DeliveryServiceName, part: Part,
                                        order: seq<Slot>, p: Slot)
    requires Included(pre, t, p)
    ensures var before := ExpectedSoFar(pre, t, d, part, order);
            var v := VisitOf(cells, pre, t, p);
            var after := ExpectedSoFar(pre, t, d, part, order + [p]);
            after == if v.ds == d && InPart(v, part) then before[v.server := v.value.total] else before
  {
  }

  lemma {:induction false} SharesAnyOrder(cells: Cells, pre: Precomputed, t: TOData, order: seq<Slot>,
                                          d: DeliveryServiceName, part: Part)
    requires Slots(order, pre, t)
    ensures Shares(Visits(cells, pre, t, order), d, part) == ExpectedSoFar(pre, t, d, part, order)
  {
    if order == [] {
      assert Visits(cells, pre, t, order) == [];
    } else {
      var before, p := order[..|order| - 1], order[|order| - 1];
      SharesAnyOrder(cells, pre, t, before, d, part);
      VisitsStep(cells, pre, t, order);
      ExpectedStep(cells, pre, t, d, part, before, p);
      var visits := Visits(cells, pre, t, before);
      assert (visits + [VisitOf(cells, pre, t, p)])[..|visits|] == visits;
      assert order == before + [p];
    }
  }

  ghost predicate Covers(order: seq<Slot>, pre: Precomputed, t: TOData) {
    Slots(order, pre, t) && forall p | Included(pre, t, p) :: p in order
  }

  /** Totals and breakdowns of a delivery service, as sums over the servers that report it. */
  ghost predicate Correct(st: StatValue, pre: Precomputed, t: TOData, d: DeliveryServiceName) {
    && st.total == SumOf(Expected(pre, t, d, Whole))
    && (forall dim :: SumOf(Breakdown(st, dim)) == st.total)
    && (forall dim, name ::
          Get(Breakdown(st, dim), name, ZERO) == SumOf(Expected(pre, t, d, Entry(dim, name))))
  }

  lemma {:induction false} ConservedIsCorrect(st: StatValue, cells: Cells, pre: Precomputed, t: TOData, order: seq<Slot>, d: DeliveryServiceName)
    requires Covers(order, pre, t)
    requires Conserved(st, Visits(cells, pre, t, order), d)
    ensures Correct(st, pre, t, d)
  {
    forall part
      ensures Shares(Visits(cells, pre, t, order), d, part) == Expected(pre, t, d, part)
    {
      SharesAnyOrder(cells, pre, t, order, d, part);
    }
    forall dim, name
      ensures Get(Breakdown(st, dim), name, ZERO) == SumOf(Expected(pre, t, d, Entry(dim, name)))
    {
      assert EntryConserved(st, Visits(cells, pre, t, order), d, dim, name);
    }
  }

  /** Every precomputed stat has the one entry of its server in each map, equal to its total; which
      is how they are precomputed, as long as the cachegroup and type of the server stay the same. */
  ghost predicate BalancedInputs(cells: Cells, pre: Precomputed, t: TOData) {
    forall p | Included(pre, t, p) :: Balanced(VisitOf(cells, pre, t, p))
  }

  /** The same without empty entries besides: the stats as they are when they were just precomputed. */
  ghost predicate FreshInputs(cells: Cells, pre: Precomputed, t: TOData) {
    forall p, dim | Included(pre, t, p) ::
      var v := VisitOf(cells, pre, t, p);
      Breakdown(v.value, dim) == map[NameOf(v, dim) := v.value.total]
  }

  lemma {:induction false} FreshIsBalanced(cells: Cells, pre: Precomputed, t: TOData)
    requires FreshInputs(cells, pre, t)
    ensures BalancedInputs(cells, pre, t)
  {
    forall p | Included(pre, t, p)
      ensures Balanced(VisitOf(cells, pre, t, p))
    {
      forall dim
        ensures var v := VisitOf(cells, pre, t, p);
                Same(Breakdown(v.value, dim), map[NameOf(v, dim) := v.value.total], ZERO)
      {
        var v := VisitOf(cells, pre, t, p);
        assert Breakdown(v.value, dim) == map[NameOf(v, dim) := v.value.total];
      }
    }
  }

  /** No delivery service that Traffic Ops does not know is reported by two counted servers. */
  ghost predicate NoneShared(pre: Precomputed, t: TOData) {
    forall p, q | Included(pre, t, p) && Included(pre, t, q) && p.ds == q.ds && p.ds !in t.deliveryServiceServers :: p == q
  }

  /** The delivery services of the state are those it started with, which keep their maps, and those added; no
      maps but those of the former are written. */
  ghost predicate OnlyOwnWritten(st0: State, st: State, order: seq<Slot>) {
    && (forall d :: d in st.ds ==> d in st0.ds || exists i :: 0 <= i < |order| && order[i].ds == d)
    && (forall d | d in st0.ds :: d in st.ds && st.ds[d].ref == st0.ds[d].ref)
    && (forall r: Ref | forall d | d in st0.ds :: st0.ds[d].ref != r :: MapsAt(st.cells, r) == MapsAt(st0.cells, r))
  }

  /** A service that is there when its stat is added was created in advance. */
  lemma {:induction false} UnsharedIsOwn(st0: State, st: State, pre: Precomputed, t: TOData, before: seq<Slot>, p: Slot)
    requires Slots(before, pre, t) && Included(pre, t, p) && p !in before && p.ds in st.ds
    requires NoneShared(pre, t) && st0.ds.Keys == Named(t) && OnlyOwnWritten(st0, st, before)
    ensures p.ds in st0.ds
  {
    assert forall i | 0 <= i < |before| :: before[i] in before;
  }

  lemma {:induction false} ServicesStep(st0: State, st: State, pre: Precomputed, t: TOData, before: seq<Slot>, p: Slot, d: DeliveryServiceName)
    requires Included(pre, t, p) && d in AddStat(st, pre, t, p).ds && d !in st0.ds
    requires d in st.ds ==> exists i :: 0 <= i < |before| && before[i].ds == d
    ensures exists i :: 0 <= i < |before + [p]| && (before + [p])[i].ds == d
  {
    if d in st.ds {
      var i :| 0 <= i < |before| && before[i].ds == d;
      assert (before + [p])[i].ds == d;
    } else {
      assert (before + [p])[|before|].ds == d;
    }
  }

  lemma {:induction false} UnsharedStep(st0: State, st: State, pre: Precomputed, t: TOData, before: seq<Slot>, p: Slot)
    requires Slots(before, pre, t) && Included(pre, t, p) && p !in before
    requires NoneShared(pre, t) && st0.ds.Keys == Named(t) && OnlyOwnWritten(st0, st, before)
    ensures OnlyOwnWritten(st0, AddStat(st, pre, t, p), before + [p])
  {
    if p.ds in st.ds {
      UnsharedIsOwn(st0, st, pre, t, before, p);
    }
    forall d | d in AddStat(st, pre, t, p).ds && d !in st0.ds
      ensures exists i :: 0 <= i < |before + [p]| && (before + [p])[i].ds == d
    {
      ServicesStep(st0, st, pre, t, before, p, d);
    }
  }

  /** Unless services are shared so, no maps are written but those of services created in advance. */
  lemma {:induction false} UnsharedLeavesInputs(st0: State, pre: Precomputed, t: TOData, order: seq<Slot>)
    requires Slots(order, pre, t) && NoneShared(pre, t) && st0.ds.Keys == Named(t)
    ensures OnlyOwnWritten(st0, AddStats(st0, pre, t, order), order)
  {
    if order != [] {
      var before, p := order[..|order| - 1], order[|order| - 1];
      UnsharedLeavesInputs(st0, pre, t, before);
      LastSlot(st0, map[], pre, t, order);
      UnsharedStep(st0, AddStats(st0, pre, t, before), pre, t, before, p);
    }
  }

  /** A service that is not created in advance has the maps of one of its servers, and in these an entry for each of
      its servers so far. */
  ghost predicate HasAdopted(st: State, pre: Precomputed, t: TOData, order: seq<Slot>, d: DeliveryServiceName, p: Slot)
    requires Slots(order, pre, t)
  {
    && p in order && p.ds == d && Present(pre, p) && d in st.ds && st.ds[d].ref == At(pre, p).ref
    && forall i | 0 <= i < |order| && order[i].ds == d :: order[i].server in MapsAt(st.cells, st.ds[d].ref).caches
  }

  ghost predicate AdoptedIfAny(st: State, pre: Precomputed, t: TOData, order: seq<Slot>, d: DeliveryServiceName)
    requires Slots(order, pre, t)
  {
    if forall i | 0 <= i < |order| :: order[i].ds != d then d !in st.ds
    else exists p :: HasAdopted(st, pre, t, order, d, p)
  }

  lemma {:induction false} Adopts(st0: State, pre: Precomputed, t: TOData, order: seq<Slot>, d: DeliveryServiceName)
    requires Slots(order, pre, t) && Apart(pre) && FreshInputs(st0.cells, pre, t) && d !in st0.ds
    requires Refined(st0.cells, st0, ViewOf(st0), pre, [])
    ensures AdoptedIfAny(AddStats(st0, pre, t, order), pre, t, order, d)
  {
    if order != [] {
      var before, x := order[..|order| - 1], order[|order| - 1];
      Adopts(st0, pre, t, before, d);
      AddStatsRefines(st0, ViewOf(st0), pre, t, before);
      LastSlot(st0, ViewOf(st0), pre, t, order);
      AdoptStep(st0.cells, AddStats(st0, pre, t, before), AddAll(ViewOf(st0), Visits(st0.cells, pre, t, before)), pre, t, before, x, d);
    }
  }

  lemma {:induction false} AdoptStep(cells0: Cells, st: State, view: StatValues, pre: Precomputed, t: TOData,
                                     before: seq<Slot>, x: Slot, d: DeliveryServiceName)
    requires Slots(before + [x], pre, t) && Slots(before, pre, t) && Included(pre, t, x) && x !in before
    requires FreshInputs(cells0, pre, t) && Refined(cells0, st, view, pre, before) && AdoptedIfAny(st, pre, t, before, d)
    ensures AdoptedIfAny(AddStat(st, pre, t, x), pre, t, before + [x], d)
  {
    var order := before + [x];
    assert order[|before|] == x && forall i | 0 <= i < |before| :: order[i] == before[i];
    if exists i :: 0 <= i < |before| && before[i].ds == d {
      var p :| HasAdopted(st, pre, t, before, d, p);
      EntriesStay(st, pre, t, before, x, d, p);
    } else if x.ds == d {
      assert MapsAt(st.cells, At(pre, x).ref) == MapsAt(cells0, At(pre, x).ref);
      FreshCaches(cells0, pre, t, x);
      assert HasAdopted(AddStat(st, pre, t, x), pre, t, order, d, x);
    }
  }

  lemma {:induction false} EntriesStay(st: State, pre: Precomputed, t: TOData, before: seq<Slot>, x: Slot,
                                       d: DeliveryServiceName, p: Slot)
    requires Slots(before + [x], pre, t) && Slots(before, pre, t) && Included(pre, t, x)
    requires HasAdopted(st, pre, t, before, d, p)
    ensures HasAdopted(AddStat(st, pre, t, x), pre, t, before + [x], d, p)
  {
    var order, st' := before + [x], AddStat(st, pre, t, x);
    var ref := st.ds[d].ref;
    assert p in order && st'.ds[d].ref == ref;
    assert MapsAt(st.cells, ref).caches.Keys <= MapsAt(st'.cells, ref).caches.Keys;
    forall i | 0 <= i < |order| && order[i].ds == d
      ensures order[i].server in MapsAt(st'.cells, ref).caches
    {
      assert i < |before| ==> order[i] == before[i];
    }
  }

  lemma {:induction false} FreshCaches(cells: Cells, pre: Precomputed, t: TOData, p: Slot)
    requires Included(pre, t, p) && FreshInputs(cells, pre, t)
    ensures MapsAt(cells, At(pre, p).ref).caches == map[p.server := At(pre, p).total]
  {
    var v := VisitOf(cells, pre, t, p);
    assert Breakdown(v.value, ByCache) == map[NameOf(v, ByCache) := v.value.total];
  }

  // ---------- The whole aggregation ----------

  /** The delivery services that get a stat in advance. */
  function Named(t: TOData): set<DeliveryServiceName> {
    set d | d in t.deliveryServiceServers && d != ""
  }

  /** What the stats of a state hold. */
  function ViewOf(st: State): StatValues {
    map d | d in st.ds :: ValueOf(st.cells, st.ds[d])
  }

  ghost predicate InputsKept(cells0: Cells, st: State, pre: Precomputed) {
    forall p | Present(pre, p) :: ValueOf(st.cells, At(pre, p)) == ValueOf(cells0, At(pre, p))
  }

  lemma {:induction false} CellsAreKept(st0: State, pre: Precomputed, t: TOData, order: seq<Slot>)
    requires Slots(order, pre, t) && forall p | Present(pre, p) :: At(pre, p).ref in st0.cells
    requires forall d | d in st0.ds :: st0.ds[d].ref in st0.cells
    ensures var st := AddStats(st0, pre, t, order);
      st.cells.Keys == st0.cells.Keys && forall d | d in st.ds :: st.ds[d].ref in st.cells
  {
    if order != [] {
      CellsAreKept(st0, pre, t, order[..|order| - 1]);
    }
  }

  lemma {:induction false} FinalServices(cells: Cells, initial: StatValues, pre: Precomputed, t: TOData, order: seq<Slot>)
    requires Covers(order, pre, t) && initial.Keys == Named(t)
    ensures forall d :: d in AddAll(initial, Visits(cells, pre, t, order)) <==>
      d != "" && (d in t.deliveryServiceServers || exists s :: Included(pre, t, Slot(s, d)))
  {
    var visits := Visits(cells, pre, t, order);
    AggregatedServices(initial, visits);
    forall s, d | Included(pre, t, Slot(s, d))
      ensures d in AddAll(initial, visits)
    {
      var i :| 0 <= i < |order| && order[i] == Slot(s, d);
      assert visits[i] in visits;
    }
    forall v | v in visits
      ensures Included(pre, t, Slot(v.server, v.ds))
    {
    }
  }

  /** The state before the aggregation: the stats made in advance have maps of their own. */
  ghost predicate Ready(cells0: Cells, st0: State, pre: Precomputed, t: TOData) {
    && Apart(pre) && Separate(st0.ds) && st0.ds.Keys == Named(t)
    && (forall p | Present(pre, p) :: MapsAt(st0.cells, At(pre, p).ref) == MapsAt(cells0, At(pre, p).ref))
    && (forall p, d | Present(pre, p) && d in st0.ds :: st0.ds[d].ref != At(pre, p).ref)
  }

  lemma {:induction false} FinalShows(cells0: Cells, st0: State, pre: Precomputed, t: TOData, order: seq<Slot>)
    requires Covers(order, pre, t) && Ready(cells0, st0, pre, t)
    ensures Shows(AddStats(st0, pre, t, order), AddAll(ViewOf(st0), Visits(cells0, pre, t, order)))
  {
    AddStatsRefines(st0, ViewOf(st0), pre, t, order);
    assert Visits(st0.cells, pre, t, order) == Visits(cells0, pre, t, order);
  }

  lemma {:induction false} TotalsAreCorrect(cells0: Cells, st0: State, pre: Precomputed, t: TOData, order: seq<Slot>,
                                            d: DeliveryServiceName)
    requires Covers(order, pre, t) && Ready(cells0, st0, pre, t) && BalancedInputs(cells0, pre, t) && Starts(ViewOf(st0))
    requires d in AddStats(st0, pre, t, order).ds
    ensures var st := AddStats(st0, pre, t, order);
            Correct(ValueOf(st.cells, st.ds[d]), pre, t, d)
  {
    var visits := Visits(cells0, pre, t, order);
    FinalShows(cells0, st0, pre, t, order);
    forall i | 0 <= i < |visits|
      ensures Balanced(visits[i])
    {
      assert Included(pre, t, order[i]);
    }
    AggregationConserves(ViewOf(st0), visits, d);
    ConservedIsCorrect(AddAll(ViewOf(st0), visits)[d], cells0, pre, t, order, d);
  }

  lemma {:induction false} InputsAreKept(cells0: Cells, st0: State, pre: Precomputed, t: TOData, order: seq<Slot>, p: Slot)
    requires Covers(order, pre, t) && Ready(cells0, st0, pre, t) && NoneShared(pre, t) && Present(pre, p)
    ensures ValueOf(AddStats(st0, pre, t, order).cells, At(pre, p)) == ValueOf(cells0, At(pre, p))
  {
    UnsharedLeavesInputs(st0, pre, t, order);
  }

  lemma {:induction false} FreshAtStart(cells0: Cells, st0: State, pre: Precomputed, t: TOData)
    requires Ready(cells0, st0, pre, t) && FreshInputs(cells0, pre, t)
    ensures FreshInputs(st0.cells, pre, t) && Refined(st0.cells, st0, ViewOf(st0), pre, [])
  {
    forall p, dim | Included(pre, t, p)
      ensures var v := VisitOf(st0.cells, pre, t, p);
              Breakdown(v.value, dim) == map[NameOf(v, dim) := v.value.total]
    {
      assert VisitOf(st0.cells, pre, t, p) == VisitOf(cells0, pre, t, p);
    }
  }

  lemma {:induction false} AdoptedChanges(cells0: Cells, st: State, pre: Precomputed, t: TOData, order: seq<Slot>, x: Slot, other: Slot)
    requires Slots(order, pre, t) && FreshInputs(cells0, pre, t) && Included(pre, t, x)
    requires HasAdopted(st, pre, t, order, x.ds, x) && other in order && other.ds == x.ds && other != x
    ensures ValueOf(st.cells, At(pre, x)) != ValueOf(cells0, At(pre, x))
  {
    var i :| 0 <= i < |order| && order[i] == other;
    FreshCaches(cells0, pre, t, x);
    assert other.server in ValueOf(st.cells, At(pre, x)).caches && other.server !in ValueOf(cells0, At(pre, x)).caches;
  }

  lemma {:induction false} SharedChangesInput(cells0: Cells, st0: State, pre: Precomputed, t: TOData, order: seq<Slot>,
                                              p: Slot, q: Slot)
    requires Covers(order, pre, t) && Ready(cells0, st0, pre, t) && FreshInputs(cells0, pre, t)
    requires Included(pre, t, p) && Included(pre, t, q) && p.ds == q.ds && p.ds !in t.deliveryServiceServers && p != q
    ensures !InputsKept(cells0, AddStats(st0, pre, t, order), pre)
  {
    var st := AddStats(st0, pre, t, order);
    FreshAtStart(cells0, st0, pre, t);
    Adopts(st0, pre, t, order, p.ds);
    var i :| 0 <= i < |order| && order[i] == p;
    var x :| HasAdopted(st, pre, t, order, p.ds, x);
    AdoptedChanges(cells0, st, pre, t, order, x, if x == p then q else p);
  }

  /** Aggregating leaves the precomputed stats as they were iff no delivery service that Traffic Ops does not know is
      reported by two counted servers. */
  lemma {:induction false} InputsAreKeptIff(cells0: Cells, st0: State, pre: Precomputed, t: TOData, order: seq<Slot>)
    requires Covers(order, pre, t) && Ready(cells0, st0, pre, t) && FreshInputs(cells0, pre, t)
    ensures NoneShared(pre, t) <==> InputsKept(cells0, AddStats(st0, pre, t, order), pre)
  {
    if NoneShared(pre, t) {
      forall p | Present(pre, p)
        ensures ValueOf(AddStats(st0, pre, t, order).cells, At(pre, p)) == ValueOf(cells0, At(pre, p))
      {
        InputsAreKept(cells0, st0, pre, t, order, p);
      }
    } else {
      var p, q :| Included(pre, t, p) && Included(pre, t, q) && p.ds == q.ds && p.ds !in t.deliveryServiceServers && p != q;
      SharedChangesInput(cells0, st0, pre, t, order, p, q);
    }
  }

  // ---------- Counting twice ----------

  /** Two servers, with any names, that both report a delivery service. */
  datatype Pair = Pair(p: Slot, q: Slot, a: CacheStats, b: CacheStats) {
    /** Each has a stat with maps of its own. */
    function Stats(): Precomputed
      requires p.server != q.server
    {
      map[p.server := map[p.ds := Stat(a, 0)], q.server := map[q.ds := Stat(b, 1)]]
    }

    function Order(): seq<Slot> {
      [p, q]
    }

    /** Traffic Ops knows the two servers, but not the delivery service. */
    ghost predicate Unnamed(t: TOData) {
      && p.server != q.server && p.ds == q.ds && p.ds != "" && p.ds !in t.deliveryServiceServers
      && Counted(t, p.server) && Counted(t, q.server)
    }

    function Cells(t: TOData): Cells
      requires Counted(t, p.server) && Counted(t, q.server)
    {
      map[0 := Maps(map[t.serverCachegroups[p.server] := a], map[t.serverTypes[p.server] := a], map[p.server := a]),
          1 := Maps(map[t.serverCachegroups[q.server] := b], map[t.serverTypes[q.server] := b], map[q.server := b])]
    }
  }

  lemma {:induction false} PairSlots(x: Pair, t: TOData)
    requires x.Unnamed(t)
    ensures Covers(x.Order(), x.Stats(), t) && Apart(x.Stats())
    ensures FreshInputs(x.Cells(t), x.Stats(), t)
  {
    forall s | Included(x.Stats(), t, s)
      ensures s in x.Order()
      ensures forall dim ::
        var v := VisitOf(x.Cells(t), x.Stats(), t, s);
        Breakdown(v.value, dim) == map[NameOf(v, dim) := v.value.total]
    {
      assert s == x.Order()[0] || s == x.Order()[1];
    }
  }

  /** The aggregation of the pair, starting from the given maps. */
  ghost function Pass(x: Pair, t: TOData, cells: Cells): State
    requires x.Unnamed(t) && Slots(x.Order(), x.Stats(), t)
  {
    AddStats(State(cells, map[]), x.Stats(), t, x.Order())
  }

  lemma {:induction false} PairPass(x: Pair, t: TOData, cells: Cells)
    requires x.Unnamed(t) && Slots(x.Order(), x.Stats(), t)
    ensures var st := Pass(x, t, cells);
      && st.ds == map[x.p.ds := Stat(Sum(x.a, x.b), 0)]
      && MapsAt(st.cells, 0).caches == AddEntry(MapsAt(cells, 0).caches, x.q.server, MapsAt(cells, 1).caches)
      && MapsAt(st.cells, 1) == MapsAt(cells, 1)
  {
    var pre, p, q := x.Stats(), x.p, x.q;
    var st0 := State(cells, map[]);
    assert x.Order()[..1] == [p] && [p][..0] == [];
    assert Slots([p], pre, t) && Slots([], pre, t);
    assert AddStats(st0, pre, t, []) == st0;
    assert AddStats(st0, pre, t, [p]) == AddStat(st0, pre, t, p) == State(cells, map[p.ds := Stat(x.a, 0)]);
    assert AddStats(st0, pre, t, x.Order()) == AddStat(State(cells, map[p.ds := Stat(x.a, 0)]), pre, t, q);
  }

  lemma {:induction false} SumOfPair(s: string, r: string, a: CacheStats, b: CacheStats)
    requires s != r
    ensures SumOf(map[s := a, r := b]) == Sum(a, b)
  {
    SumOfAdd(map[], s, a);
    assert Sum(ZERO, a) == a && map[][s := a] == map[s := a];
    SumOfAdd(map[s := a], r, b);
    assert Sum(ZERO, b) == b && map[s := a][r := b] == map[s := a, r := b];
  }

  /** A delivery service that Traffic Ops does not know takes over the maps of the first server that reports it,
      and the entries of the others are then added to those. When the same precomputed stats are aggregated again in
      the same order, these are there twice: the total no longer is the sum of its breakdown. By `PairSlots` the stats
      were fresh and apart when they were made. */
  lemma {:induction false} SecondPassDoubleCounts(x: Pair, t: TOData)
    requires x.Unnamed(t) && x.b.outBytes > 0 && Slots(x.Order(), x.Stats(), t)
    ensures var first := Pass(x, t, x.Cells(t));
            var second := Pass(x, t, first.cells);
            && x.p.ds in second.ds
            && var st := ValueOf(second.cells, second.ds[x.p.ds]);
               && st.total == Sum(x.a, x.b)
               && SumOf(st.caches) == Sum(x.a, Sum(x.b, x.b)) != Sum(x.a, x.b)
  {
    var first := Pass(x, t, x.Cells(t));
    PairPass(x, t, x.Cells(t));
    PairPass(x, t, first.cells);
    assert Sum(ZERO, x.b) == x.b;
    assert MapsAt(first.cells, 0).caches == map[x.p.server := x.a, x.q.server := x.b];
    assert MapsAt(Pass(x, t, first.cells).cells, 0).caches == map[x.p.server := x.a, x.q.server := Sum(x.b, x.b)];
    SumOfPair(x.p.server, x.q.server, x.a, Sum(x.b, x.b));
  }
}
