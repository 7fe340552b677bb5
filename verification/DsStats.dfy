/** Delivery service statistics: the sums over caches, cachegroups and types
    (`traffic_monitor/ds/stat.go`, `traffic_monitor/dsdata/stat.go`). */
module DsStats {
  import opened Core
  import opened Totals

  /** The counters of `StatCacheStats`; the error text is left out. */
  datatype CacheStats = CacheStats(
    outBytes: int, isAvailable: bool, status5xx: int, status4xx: int, status3xx: int, status2xx: int,
    inBytes: real, kbps: real, tps5xx: real, tps4xx: real, tps3xx: real, tps2xx: real, tpsTotal: real)

  const ZERO := CacheStats(0, false, 0, 0, 0, 0, 0.0, 0.0, 0.0, 0.0, 0.0, 0.0, 0.0)

  function Sum(a: CacheStats, b: CacheStats): CacheStats {
    CacheStats(
      a.outBytes + b.outBytes, a.isAvailable || b.isAvailable,
      a.status5xx + b.status5xx, a.status4xx + b.status4xx, a.status3xx + b.status3xx, a.status2xx + b.status2xx,
      a.inBytes + b.inBytes, a.kbps + b.kbps,
      a.tps5xx + b.tps5xx, a.tps4xx + b.tps4xx, a.tps3xx + b.tps3xx, a.tps2xx + b.tps2xx,
      a.tpsTotal + b.tpsTotal)
  }

  lemma {:induction false} SumIsAdditive()
    ensures Additive(Sum, ZERO)
  {
    forall a, b
      ensures Commutes(Sum, a, b)
    {
      assert Sum(a, b) == Sum(b, a);
    }
    forall a, b, c
      ensures Associates(Sum, a, b, c)
    {
      assert Sum(Sum(a, b), c) == Sum(a, Sum(b, c));
    }
    forall a
      ensures Neutral(Sum, ZERO, a)
    {
      assert Sum(a, ZERO) == a;
    }
  }

  ghost function SumOf(m: map<string, CacheStats>): CacheStats {
    Total(m, Sum, ZERO)
  }

  lemma {:induction false} SumOfAdd(m: map<string, CacheStats>, k: string, v: CacheStats)
    ensures SumOf(m[k := Sum(Get(m, k, ZERO), v)]) == Sum(SumOf(m), v)
  {
    SumIsAdditive();
    TotalAdd(m, k, v, Sum, ZERO);
  }

  // ---------- Sums on values ----------

  datatype StatValue = StatValue(
    total: CacheStats, groups: map<string, CacheStats>, types: map<string, CacheStats>, caches: map<string, CacheStats>)

  const EMPTY := StatValue(ZERO, map[], map[], map[])

  /** One delivery service stat of one server, met in the aggregation. */
  datatype Visit = Visit(server: CacheName, ds: DeliveryServiceName, group: CacheGroupName, kind: CacheType, value: StatValue)

  /** The entry `k` of `m`, increased by the entry of the same name of `more`. */
  function AddEntry(m: map<string, CacheStats>, k: string, more: map<string, CacheStats>): map<string, CacheStats> {
    m[k := Sum(Get(m, k, ZERO), Get(more, k, ZERO))]
  }

  function AddTo(st: StatValue, v: Visit): StatValue {
    StatValue(Sum(st.total, v.value.total),
              AddEntry(st.groups, v.group, v.value.groups),
              AddEntry(st.types, v.kind, v.value.types),
              AddEntry(st.caches, v.server, v.value.caches))
  }

  type StatValues = map<DeliveryServiceName, StatValue>

  ghost function AddVisit(stats: StatValues, v: Visit): StatValues {
    stats[v.ds := if v.ds in stats then AddTo(stats[v.ds], v) else v.value]
  }

  ghost function AddAll(initial: StatValues, visits: seq<Visit>): StatValues {
    if visits == [] then initial
    else AddVisit(AddAll(initial, visits[..|visits| - 1]), visits[|visits| - 1])
  }

  /** The three ways a total is broken down. */
  datatype Dimension = ByGroup | ByType | ByCache

  function Breakdown(st: StatValue, dim: Dimension): map<string, CacheStats> {
    match dim
    case ByGroup => st.groups
    case ByType => st.types
    case ByCache => st.caches
  }

  function NameOf(v: Visit, dim: Dimension): string {
    match dim
    case ByGroup => v.group
    case ByType => v.kind
    case ByCache => v.server
  }

  /** What precomputing makes for one server: every breakdown has the one entry of the server, equal
      to the total; other entries, if any, are empty. */
  ghost predicate Balanced(v: Visit) {
    forall dim :: Same(Breakdown(v.value, dim), map[NameOf(v, dim) := v.value.total], ZERO)
  }

  ghost predicate Distinct(visits: seq<Visit>) {
    forall i, j | 0 <= i < j < |visits| :: visits[i].server != visits[j].server || visits[i].ds != visits[j].ds
  }

  /** The servers a sum ranges over: all, or those with one name in one dimension. */
  datatype Part = Whole | Entry(dim: Dimension, name: string)

  ghost predicate InPart(v: Visit, p: Part) {
    p.Whole? || NameOf(v, p.dim) == p.name
  }

  /** The totals of the servers of a part, as visited. */
  ghost function Shares(visits: seq<Visit>, d: DeliveryServiceName, p: Part): (m: map<string, CacheStats>)
    ensures forall s :: s in m ==> exists i | 0 <= i < |visits| :: visits[i].server == s && visits[i].ds == d
  {
    if visits == [] then map[]
    else
      var v := visits[|visits| - 1];
      var before := Shares(visits[..|visits| - 1], d, p);
      if v.ds == d && InPart(v, p) then before[v.server := v.value.total] else before
  }

  /** A total, its breakdowns, and what they are sums of. */
  ghost predicate Conserved(st: StatValue, visits: seq<Visit>, d: DeliveryServiceName) {
    && st.total == SumOf(Shares(visits, d, Whole))
    && (forall dim :: SumOf(Breakdown(st, dim)) == st.total)
    && (forall dim, name :: EntryConserved(st, visits, d, dim, name))
  }

  ghost predicate EntryConserved(st: StatValue, visits: seq<Visit>, d: DeliveryServiceName, dim: Dimension, name: string) {
    Get(Breakdown(st, dim), name, ZERO) == SumOf(Shares(visits, d, Entry(dim, name)))
  }

  /** A further server of a part adds its total to the sum of the part. */
  lemma {:induction false} SharesStep(visits: seq<Visit>, p: Part)
    requires visits != [] && Distinct(visits)
    ensures var v := visits[|visits| - 1];
            var before := SumOf(Shares(visits[..|visits| - 1], v.ds, p));
            SumOf(Shares(visits, v.ds, p)) == if InPart(v, p) then Sum(before, v.value.total) else before
  {
    var v := visits[|visits| - 1];
    var before := Shares(visits[..|visits| - 1], v.ds, p);
    if InPart(v, p) {
      assert v.server !in before;
      SumOfAdd(before, v.server, v.value.total);
      assert Sum(ZERO, v.value.total) == v.value.total;
    }
  }

  lemma {:induction false} BreakdownOfAddTo(st: StatValue, v: Visit, dim: Dimension)
    requires Balanced(v)
    ensures Breakdown(AddTo(st, v), dim)
         == Breakdown(st, dim)[NameOf(v, dim) := Sum(Get(Breakdown(st, dim), NameOf(v, dim), ZERO), v.value.total)]
  {
    assert Same(Breakdown(v.value, dim), map[NameOf(v, dim) := v.value.total], ZERO);
    assert Get(Breakdown(v.value, dim), NameOf(v, dim), ZERO) == v.value.total;
  }

  lemma {:induction false} EntryStep(st: StatValue, visits: seq<Visit>, dim: Dimension, name: string)
    requires visits != [] && Distinct(visits) && Balanced(visits[|visits| - 1])
    requires EntryConserved(st, visits[..|visits| - 1], visits[|visits| - 1].ds, dim, name)
    ensures EntryConserved(AddTo(st, visits[|visits| - 1]), visits, visits[|visits| - 1].ds, dim, name)
  {
    BreakdownOfAddTo(st, visits[|visits| - 1], dim);
    SharesStep(visits, Entry(dim, name));
  }

  lemma {:induction false} AddToConserves(st: StatValue, visits: seq<Visit>)
    requires visits != [] && Distinct(visits) && Balanced(visits[|visits| - 1])
    requires Conserved(st, visits[..|visits| - 1], visits[|visits| - 1].ds)
    ensures Conserved(AddTo(st, visits[|visits| - 1]), visits, visits[|visits| - 1].ds)
  {
    var v := visits[|visits| - 1];
    SharesStep(visits, Whole);
    forall dim
      ensures SumOf(Breakdown(AddTo(st, v), dim)) == AddTo(st, v).total
    {
      BreakdownOfAddTo(st, v, dim);
      SumOfAdd(Breakdown(st, dim), NameOf(v, dim), v.value.total);
    }
    forall dim, name
      ensures EntryConserved(AddTo(st, v), visits, v.ds, dim, name)
    {
      EntryStep(st, visits, dim, name);
    }
  }

  /** Two stats that differ at most in empty entries. */
  ghost predicate SameStat(a: StatValue, b: StatValue) {
    a.total == b.total && forall dim :: Same(Breakdown(a, dim), Breakdown(b, dim), ZERO)
  }

  lemma {:induction false} SumOfSame(a: map<string, CacheStats>, b: map<string, CacheStats>)
    requires Same(a, b, ZERO)
    ensures SumOf(a) == SumOf(b)
  {
    SumIsAdditive();
    TotalSame(a, b, Sum, ZERO);
  }

  lemma {:induction false} SameIsConserved(a: StatValue, b: StatValue, visits: seq<Visit>, d: DeliveryServiceName)
    requires SameStat(a, b) && Conserved(a, visits, d)
    ensures Conserved(b, visits, d)
  {
    forall dim
      ensures SumOf(Breakdown(b, dim)) == b.total
    {
      SumOfSame(Breakdown(a, dim), Breakdown(b, dim));
    }
    forall dim, name
      ensures EntryConserved(b, visits, d, dim, name)
    {
      assert EntryConserved(a, visits, d, dim, name) && Same(Breakdown(a, dim), Breakdown(b, dim), ZERO);
    }
  }

  /** Storing a balanced stat as it is amounts to adding it to an empty one. */
  lemma {:induction false} BalancedIsAddedToEmpty(v: Visit)
    requires Balanced(v)
    ensures SameStat(AddTo(EMPTY, v), v.value)
  {
    assert Sum(ZERO, v.value.total) == v.value.total;
    forall dim
      ensures Same(Breakdown(AddTo(EMPTY, v), dim), Breakdown(v.value, dim), ZERO)
    {
      BreakdownOfAddTo(EMPTY, v, dim);
      assert Same(Breakdown(v.value, dim), map[NameOf(v, dim) := v.value.total], ZERO);
    }
  }

  lemma {:induction false} EmptyIsConserved(visits: seq<Visit>, d: DeliveryServiceName)
    requires forall i | 0 <= i < |visits| :: visits[i].ds != d
    ensures Conserved(EMPTY, visits, d)
  {
    forall p: Part
      ensures Shares(visits, d, p) == map[]
    {
      assert forall s :: s !in Shares(visits, d, p);
    }
    forall dim, name
      ensures EntryConserved(EMPTY, visits, d, dim, name)
    {
      assert Shares(visits, d, Entry(dim, name)) == map[];
    }
  }

  lemma {:induction false} ConservedOfOther(st: StatValue, visits: seq<Visit>, d: DeliveryServiceName)
    requires visits != [] && visits[|visits| - 1].ds != d
    requires Conserved(st, visits[..|visits| - 1], d)
    ensures Conserved(st, visits, d)
  {
    forall dim, name
      ensures EntryConserved(st, visits, d, dim, name)
    {
      assert EntryConserved(st, visits[..|visits| - 1], d, dim, name);
    }
  }

  /** The stats created in advance are empty. */
  ghost predicate Starts(initial: StatValues) {
    forall d | d in initial :: SameStat(EMPTY, initial[d])
  }

  /** Totals are conserved: after any visits of balanced stats, in any order, each total is the sum over
      the visited servers, and equals the sum over cachegroups, over types and over caches; and each
      entry is the sum over exactly the servers of its part. */
  lemma {:induction false} AggregationConserves(initial: StatValues, visits: seq<Visit>, d: DeliveryServiceName)
    requires Starts(initial) && Distinct(visits)
    requires forall i | 0 <= i < |visits| :: Balanced(visits[i])
    ensures d in AddAll(initial, visits) ==> Conserved(AddAll(initial, visits)[d], visits, d)
  {
    if visits == [] {
      EmptyIsConserved(visits, d);
      if d in initial {
        SameIsConserved(EMPTY, initial[d], visits, d);
      }
    } else {
      var before := visits[..|visits| - 1];
      var v := visits[|visits| - 1];
      AggregationConserves(initial, before, d);
      AggregatedServices(initial, before);
      var stats := AddAll(initial, before);
      if v.ds == d {
        if d in stats {
          AddToConserves(stats[d], visits);
        } else {
          assert forall i | 0 <= i < |before| :: before[i] in before;
          EmptyIsConserved(before, d);
          BalancedIsAddedToEmpty(v);
          AddToConserves(EMPTY, visits);
          SameIsConserved(AddTo(EMPTY, v), v.value, visits, d);
        }
      } else if d in stats {
        ConservedOfOther(stats[d], visits, d);
      }
    }
  }

  lemma {:induction false} AggregatedServices(initial: StatValues, visits: seq<Visit>)
    ensures AddAll(initial, visits).Keys == initial.Keys + set v | v in visits :: v.ds
  {
    if visits != [] {
      var before, v := visits[..|visits| - 1], visits[|visits| - 1];
      AggregatedServices(initial, before);
      assert visits == before + [v];
    }
  }
}
