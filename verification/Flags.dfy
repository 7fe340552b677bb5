/** Which flags are set before the stats are added up (`traffic_monitor/ds/stat.go`). */
module Flags {
  import opened Core
  import opened Totals
  import opened DsStats
  import opened Aggregation

  /** A delivery service of an available cache, with the cachegroup and type of that cache. */
  datatype Mark = Mark(ds: DeliveryServiceName, group: CacheGroupName, kind: CacheType)

  /** The marks of the services that are there, of every available cache with a cachegroup and a type. */
  ghost function MarksOf(ds: Stats, t: TOData, caches: map<CacheName, bool>, services: map<CacheName, seq<DeliveryServiceName>>): set<Mark> {
    set c, d | c in caches && caches[c] && c in t.serverCachegroups && c in t.serverTypes && c in services
               && d in services[c] && d != "" && d in ds ::
      Mark(d, t.serverCachegroups[c], t.serverTypes[c])
  }

  /** The flag is set if it was or the condition holds; all else stays. */
  function Raised(s: CacheStats, condition: bool): CacheStats {
    if condition then s.(isAvailable := true) else s
  }

  ghost predicate MarkedDs(marks: set<Mark>, d: DeliveryServiceName) {
    exists k :: k in marks && k.ds == d
  }

  ghost predicate MarkedGroup(marks: set<Mark>, d: DeliveryServiceName, g: CacheGroupName) {
    exists k :: k in marks && k.ds == d && k.group == g
  }

  ghost predicate MarkedKind(marks: set<Mark>, d: DeliveryServiceName, kind: CacheType) {
    exists k :: k in marks && k.ds == d && k.kind == kind
  }

  /** The total of a service, and its entry of each cachegroup and type, have the flag iff they had it or there is such a
      mark; the entries of its caches stay. */
  ghost predicate FlagsOf(st: State, now: State, marks: set<Mark>, d: DeliveryServiceName)
    requires d in st.ds
  {
    && d in now.ds && now.ds[d].ref == st.ds[d].ref
    && now.ds[d].total == Raised(st.ds[d].total, MarkedDs(marks, d))
    && var m, m' := MapsAt(st.cells, st.ds[d].ref), MapsAt(now.cells, st.ds[d].ref);
       && m'.caches == m.caches
       && (forall g :: GroupFlag(m, m', marks, d, g)) && (forall kind :: KindFlag(m, m', marks, d, kind))
  }

  ghost predicate GroupFlag(m: Maps, m': Maps, marks: set<Mark>, d: DeliveryServiceName, g: CacheGroupName) {
    && (g in m'.groups <==> g in m.groups || MarkedGroup(marks, d, g))
    && Get(m'.groups, g, ZERO) == Raised(Get(m.groups, g, ZERO), MarkedGroup(marks, d, g))
  }

  ghost predicate KindFlag(m: Maps, m': Maps, marks: set<Mark>, d: DeliveryServiceName, kind: CacheType) {
    && (kind in m'.types <==> kind in m.types || MarkedKind(marks, d, kind))
    && Get(m'.types, kind, ZERO) == Raised(Get(m.types, kind, ZERO), MarkedKind(marks, d, kind))
  }

  ghost predicate AllFlags(st: State, now: State, marks: set<Mark>) {
    forall d | d in st.ds :: FlagsOf(st, now, marks, d)
  }

  lemma {:induction false} NoMarks(st: State)
    ensures AllFlags(st, st, {})
  {
    forall d | d in st.ds
      ensures FlagsOf(st, st, {}, d)
    {
      var m := MapsAt(st.cells, st.ds[d].ref);
      assert forall g :: GroupFlag(m, m, {}, d, g);
      assert forall kind :: KindFlag(m, m, {}, d, kind);
    }
  }

  /** One mark. */
  function FlagMaps(m: Maps, k: Mark): Maps {
    Maps(m.groups[k.group := Get(m.groups, k.group, ZERO).(isAvailable := true)],
         m.types[k.kind := Get(m.types, k.kind, ZERO).(isAvailable := true)], m.caches)
  }

  function Flag(now: State, k: Mark): State
    requires k.ds in now.ds
  {
    var stat := now.ds[k.ds];
    State(now.cells[stat.ref := FlagMaps(MapsAt(now.cells, stat.ref), k)],
          now.ds[k.ds := Stat(stat.total.(isAvailable := true), stat.ref)])
  }

  lemma {:induction false} MoreMarks(marks: set<Mark>, k: Mark, d: DeliveryServiceName)
    ensures MarkedDs(marks + {k}, d) <==> MarkedDs(marks, d) || k.ds == d
    ensures forall g :: MarkedGroup(marks + {k}, d, g) <==> MarkedGroup(marks, d, g) || (k.ds == d && k.group == g)
    ensures forall kind :: MarkedKind(marks + {k}, d, kind) <==> MarkedKind(marks, d, kind) || (k.ds == d && k.kind == kind)
  {
    assert k in marks + {k};
    if MarkedDs(marks, d) {
      var j :| j in marks && j.ds == d;
      assert j in marks + {k};
    }
    forall g | MarkedGroup(marks, d, g)
      ensures MarkedGroup(marks + {k}, d, g)
    {
      var j :| j in marks && j.ds == d && j.group == g;
      assert j in marks + {k};
    }
    forall kind | MarkedKind(marks, d, kind)
      ensures MarkedKind(marks + {k}, d, kind)
    {
      var j :| j in marks && j.ds == d && j.kind == kind;
      assert j in marks + {k};
    }
  }

  lemma {:induction false} FlagOwn(st: State, now: State, marks: set<Mark>, k: Mark)
    requires k.ds in st.ds && k.ds in now.ds && FlagsOf(st, now, marks, k.ds)
    ensures FlagsOf(st, Flag(now, k), marks + {k}, k.ds)
  {
    MoreMarks(marks, k, k.ds);
    var ref := st.ds[k.ds].ref;
    var m, before, after := MapsAt(st.cells, ref), MapsAt(now.cells, ref), MapsAt(Flag(now, k).cells, ref);
    assert after == FlagMaps(before, k);
    forall g
      ensures GroupFlag(m, after, marks + {k}, k.ds, g)
    {
      assert GroupFlag(m, before, marks, k.ds, g);
    }
    forall kind
      ensures KindFlag(m, after, marks + {k}, k.ds, kind)
    {
      assert KindFlag(m, before, marks, k.ds, kind);
    }
  }

  lemma {:induction false} FlagOther(st: State, now: State, marks: set<Mark>, k: Mark, d: DeliveryServiceName)
    requires d in st.ds && k.ds in now.ds && d != k.ds && FlagsOf(st, now, marks, d) && now.ds[k.ds].ref != st.ds[d].ref
    ensures FlagsOf(st, Flag(now, k), marks + {k}, d)
  {
    MoreMarks(marks, k, d);
    var ref := st.ds[d].ref;
    var m, before, after := MapsAt(st.cells, ref), MapsAt(now.cells, ref), MapsAt(Flag(now, k).cells, ref);
    assert after == before;
    forall g
      ensures GroupFlag(m, after, marks + {k}, d, g)
    {
      assert GroupFlag(m, before, marks, d, g);
    }
    forall kind
      ensures KindFlag(m, after, marks + {k}, d, kind)
    {
      assert KindFlag(m, before, marks, d, kind);
    }
  }

  lemma {:induction false} FlagStep(st: State, now: State, marks: set<Mark>, k: Mark)
    requires Separate(st.ds) && AllFlags(st, now, marks) && k.ds in st.ds && k.ds in now.ds
    ensures AllFlags(st, Flag(now, k), marks + {k})
  {
    forall d | d in st.ds
      ensures FlagsOf(st, Flag(now, k), marks + {k}, d)
    {
      assert FlagsOf(st, now, marks, d) && FlagsOf(st, now, marks, k.ds);
      if d == k.ds {
        FlagOwn(st, now, marks, k);
      } else {
        FlagOther(st, now, marks, k, d);
      }
    }
  }

  /** The marks of the caches but those in `todo`. */
  ghost function MarksBut(ds: Stats, t: TOData, caches: map<CacheName, bool>, services: map<CacheName, seq<DeliveryServiceName>>,
                          todo: set<CacheName>): set<Mark>
  {
    set c, d | c in caches && c !in todo && caches[c] && c in t.serverCachegroups && c in t.serverTypes && c in services
               && d in services[c] && d != "" && d in ds ::
      Mark(d, t.serverCachegroups[c], t.serverTypes[c])
  }

  /** The marks of one cache, for the first of its services. */
  ghost function MarksTo(ds: Stats, t: TOData, caches: map<CacheName, bool>, services: seq<DeliveryServiceName>, c: CacheName, i: nat): set<Mark>
    requires c in caches && c in t.serverCachegroups && c in t.serverTypes && i <= |services|
  {
    set d | d in services[..i] && d != "" && d in ds && caches[c] :: Mark(d, t.serverCachegroups[c], t.serverTypes[c])
  }

  lemma {:induction false} MarksOfOne(ds: Stats, t: TOData, caches: map<CacheName, bool>,
                                      services: map<CacheName, seq<DeliveryServiceName>>, todo: set<CacheName>,
                                      c: CacheName)
    requires c in todo && c in caches
    ensures MarksBut(ds, t, caches, services, todo - {c}) == MarksBut(ds, t, caches, services, todo)
      + if c in t.serverCachegroups && c in t.serverTypes && c in services
        then MarksTo(ds, t, caches, services[c], c, |services[c]|) else {}
  {
    assert c in services ==> services[c][..|services[c]|] == services[c];
  }

  lemma {:induction false} MarksToNext(ds: Stats, t: TOData, caches: map<CacheName, bool>, services: seq<DeliveryServiceName>, c: CacheName, i: nat, marks: set<Mark>)
    requires c in caches && c in t.serverCachegroups && c in t.serverTypes && i < |services|
    ensures var d := services[i];
      marks + MarksTo(ds, t, caches, services, c, i + 1) == marks + MarksTo(ds, t, caches, services, c, i)
        + if d != "" && d in ds && caches[c] then {Mark(d, t.serverCachegroups[c], t.serverTypes[c])} else {}
  {
    assert services[..i + 1] == services[..i] + [services[i]];
  }

  lemma {:induction false} AllMarks(ds: Stats, t: TOData, caches: map<CacheName, bool>, services: map<CacheName, seq<DeliveryServiceName>>)
    ensures MarksBut(ds, t, caches, services, caches.Keys) == {}
    ensures MarksBut(ds, t, caches, services, {}) == MarksOf(ds, t, caches, services)
  {
  }

  // ---------- After the aggregation ----------

  /** The service is one of an available cache that has a cachegroup and a type. */
  ghost predicate HasAvailableCache(t: TOData, caches: map<CacheName, bool>, services: map<CacheName, seq<DeliveryServiceName>>,
                                    d: DeliveryServiceName)
  {
    exists c :: c in caches && caches[c] && c in t.serverCachegroups && c in t.serverTypes && c in services && d in services[c]
  }

  lemma {:induction false} MarkedIff(ds: Stats, t: TOData, caches: map<CacheName, bool>,
                                     services: map<CacheName, seq<DeliveryServiceName>>, d: DeliveryServiceName)
    requires d in ds && d != ""
    ensures MarkedDs(MarksOf(ds, t, caches, services), d) <==> HasAvailableCache(t, caches, services, d)
  {
    if c :| c in caches && caches[c] && c in t.serverCachegroups && c in t.serverTypes && c in services && d in services[c] {
      assert Mark(d, t.serverCachegroups[c], t.serverTypes[c]) in MarksOf(ds, t, caches, services);
    }
  }

  ghost predicate SomeFlagged(pre: Precomputed, order: seq<Slot>, d: DeliveryServiceName) {
    exists i :: 0 <= i < |order| && order[i].ds == d && Present(pre, order[i]) && At(pre, order[i]).total.isAvailable
  }

  lemma {:induction false} FlaggedMore(pre: Precomputed, before: seq<Slot>, p: Slot, d: DeliveryServiceName)
    requires Present(pre, p)
    ensures SomeFlagged(pre, before + [p], d) <==> SomeFlagged(pre, before, d) || (p.ds == d && At(pre, p).total.isAvailable)
  {
    var order := before + [p];
    assert order[|before|] == p;
    if i :| 0 <= i < |before| && before[i].ds == d && Present(pre, before[i]) && At(pre, before[i]).total.isAvailable {
      assert order[i] == before[i];
    }
  }

  ghost predicate HasFlag(st: State, d: DeliveryServiceName) {
    d in st.ds && st.ds[d].total.isAvailable
  }

  /** The flag of a total stays, and comes with every stat that has it. */
  lemma {:induction false} TotalFlag(st0: State, pre: Precomputed, t: TOData, order: seq<Slot>, d: DeliveryServiceName)
    requires Slots(order, pre, t)
    ensures HasFlag(AddStats(st0, pre, t, order), d) <==> HasFlag(st0, d) || SomeFlagged(pre, order, d)
  {
    if order != [] {
      var before, p := order[..|order| - 1], order[|order| - 1];
      TotalFlag(st0, pre, t, before, d);
      assert order == before + [p];
      FlaggedMore(pre, before, p, d);
    }
  }

  /** Some available cache serves the service and Traffic Ops knows it, or some precomputed stat of it has the flag. */
  ghost predicate IsToBeFlagged(pre: Precomputed, t: TOData, caches: map<CacheName, bool>,
                                services: map<CacheName, seq<DeliveryServiceName>>, d: DeliveryServiceName)
  {
    || (d in Named(t) && HasAvailableCache(t, caches, services, d))
    || exists s :: Included(pre, t, Slot(s, d)) && At(pre, Slot(s, d)).total.isAvailable
  }

  /** The total of each service has the flag iff it is to have it. */
  ghost predicate FlagsAreRight(st: State, pre: Precomputed, t: TOData, caches: map<CacheName, bool>,
                                services: map<CacheName, seq<DeliveryServiceName>>)
  {
    forall d :: HasFlag(st, d) <==> IsToBeFlagged(pre, t, caches, services, d)
  }

  lemma {:induction false} FlagsEndRight(empty: State, st0: State, pre: Precomputed, t: TOData, order: seq<Slot>,
                                         caches: map<CacheName, bool>,
                                         services: map<CacheName, seq<DeliveryServiceName>>)
    requires Covers(order, pre, t) && empty.ds.Keys == st0.ds.Keys == Named(t)
    requires forall d | d in empty.ds :: !empty.ds[d].total.isAvailable
    requires AllFlags(empty, st0, MarksOf(empty.ds, t, caches, services))
    ensures FlagsAreRight(AddStats(st0, pre, t, order), pre, t, caches, services)
  {
    forall d
      ensures HasFlag(AddStats(st0, pre, t, order), d) <==> IsToBeFlagged(pre, t, caches, services, d)
    {
      TotalFlag(st0, pre, t, order, d);
      if d in empty.ds {
        MarkedIff(empty.ds, t, caches, services, d);
        assert FlagsOf(empty, st0, MarksOf(empty.ds, t, caches, services), d);
      }
      FlaggedIff(pre, t, order, d);
    }
  }

  lemma {:induction false} FlaggedIff(pre: Precomputed, t: TOData, order: seq<Slot>, d: DeliveryServiceName)
    requires Covers(order, pre, t)
    ensures SomeFlagged(pre, order, d) <==> exists s :: Included(pre, t, Slot(s, d)) && At(pre, Slot(s, d)).total.isAvailable
  {
    if i :| 0 <= i < |order| && order[i].ds == d && At(pre, order[i]).total.isAvailable {
      assert order[i] == Slot(order[i].server, d);
    }
    if s :| Included(pre, t, Slot(s, d)) && At(pre, Slot(s, d)).total.isAvailable {
      var i :| 0 <= i < |order| && order[i] == Slot(s, d);
    }
  }
}
