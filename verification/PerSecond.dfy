/** The rates that are written into the stats of every delivery service (`traffic_monitor/ds/stat.go`). */
module PerSecond {
  import opened Core
  import opened Totals
  import opened DsStats
  import opened Aggregation
  import LastStats

  /** The rates of a delivery service. */
  datatype ServiceRates = ServiceRates(
    kbps: map<CacheName, real>,
    groups: map<CacheGroupName, LastStats.LastStatsData>,
    kinds: map<CacheType, LastStats.LastStatsData>,
    total: LastStats.LastStatsData)

  type AllRates = map<DeliveryServiceName, ServiceRates>

  // ---------- What is to be there ----------

  /** The rates are there: kilobits of 125 bytes, the rate of each status class in its own place, and their sum. */
  predicate ShowsRates(s: CacheStats, l: LastStats.LastStatsData) {
    && s.kbps * 125.0 == l.bytes.perSec
    && s.tps2xx == l.status2xx.perSec && s.tps3xx == l.status3xx.perSec
    && s.tps4xx == l.status4xx.perSec && s.tps5xx == l.status5xx.perSec
    && s.tpsTotal == l.status2xx.perSec + l.status3xx.perSec + l.status4xx.perSec + l.status5xx.perSec
  }

  /** All but the rates is the same. */
  predicate SameBesides(s: CacheStats, s': CacheStats) {
    && s'.outBytes == s.outBytes && s'.isAvailable == s.isAvailable && s'.inBytes == s.inBytes
    && s'.status2xx == s.status2xx && s'.status3xx == s.status3xx && s'.status4xx == s.status4xx && s'.status5xx == s.status5xx
  }

  predicate Rated(s: CacheStats, s': CacheStats, l: LastStats.LastStatsData) {
    ShowsRates(s', l) && SameBesides(s, s')
  }

  /** Each name with a rate has it, also one that had no entry, and every other entry stays. */
  ghost predicate AllRated(m: map<string, CacheStats>, m': map<string, CacheStats>, rates: map<string, LastStats.LastStatsData>) {
    && m'.Keys == m.Keys + rates.Keys
    && forall k | k in m' :: if k in rates then Rated(Get(m, k, ZERO), m'[k], rates[k]) else m'[k] == m[k]
  }

  /** Each cache with a bandwidth has it, and nothing else is changed. */
  ghost predicate AllKbps(m: map<CacheName, CacheStats>, m': map<CacheName, CacheStats>, kbps: map<CacheName, real>) {
    && m'.Keys == m.Keys
    && forall c | c in m :: if c in kbps then m'[c] == m[c].(kbps := kbps[c]) else m'[c] == m[c]
  }

  ghost predicate RatedMapsOf(m: Maps, m': Maps, r: ServiceRates) {
    AllRated(m.groups, m'.groups, r.groups) && AllRated(m.types, m'.types, r.kinds) && AllKbps(m.caches, m'.caches, r.kbps)
  }

  /** The rates of a service are in its total and in all its maps. */
  ghost predicate Written(st: State, now: State, d: DeliveryServiceName, r: ServiceRates)
    requires d in st.ds
  {
    && d in now.ds && now.ds[d].ref == st.ds[d].ref && Rated(st.ds[d].total, now.ds[d].total, r.total)
    && RatedMapsOf(MapsAt(st.cells, st.ds[d].ref), MapsAt(now.cells, st.ds[d].ref), r)
  }

  ghost predicate AllWritten(st: State, now: State, rates: AllRates) {
    now.ds.Keys == st.ds.Keys == rates.Keys && forall d | d in st.ds :: Written(st, now, d, rates[d])
  }

  /** The same seen in what is published. */
  ghost predicate HasRates(v: StatValue, r: ServiceRates) {
    && ShowsRates(v.total, r.total)
    && (forall g | g in r.groups :: g in v.groups && ShowsRates(v.groups[g], r.groups[g]))
    && (forall k | k in r.kinds :: k in v.types && ShowsRates(v.types[k], r.kinds[k]))
    && (forall c | c in v.caches && c in r.kbps :: v.caches[c].kbps == r.kbps[c])
  }

  lemma {:induction false} WrittenShows(st: State, now: State, d: DeliveryServiceName, r: ServiceRates)
    requires d in st.ds && Written(st, now, d, r)
    ensures HasRates(ViewOf(now)[d], r)
  {
  }

  // ---------- Writing ----------

  function SetRates(s: CacheStats, l: LastStats.LastStatsData): CacheStats {
    s.(kbps := l.bytes.perSec / LastStats.BYTES_PER_KILOBIT,
       tps2xx := l.status2xx.perSec, tps3xx := l.status3xx.perSec, tps4xx := l.status4xx.perSec, tps5xx := l.status5xx.perSec,
       tpsTotal := l.status2xx.perSec + l.status3xx.perSec + l.status4xx.perSec + l.status5xx.perSec)
  }

  lemma {:induction false} SetRatesRates(s: CacheStats, l: LastStats.LastStatsData)
    ensures Rated(s, SetRates(s, l), l)
  {
  }

  /** Sets the rates of each name that has some; also of one that had no entry. */
  method AddRates(m: map<string, CacheStats>, rates: map<string, LastStats.LastStatsData>) returns (m': map<string, CacheStats>)
    ensures AllRated(m, m', rates)
  {
    m' := m;
    var todo := rates.Keys;
    while todo != {}
      invariant todo <= rates.Keys && m'.Keys == m.Keys + (rates.Keys - todo)
      invariant forall k | k in m' :: if k in rates && k !in todo then Rated(Get(m, k, ZERO), m'[k], rates[k]) else m'[k] == m[k]
      decreases todo
    {
      var k :| k in todo;
      SetRatesRates(Get(m', k, ZERO), rates[k]);
      m' := m'[k := SetRates(Get(m', k, ZERO), rates[k])];
      todo := todo - {k};
    }
  }

  method SetKbps(m: map<CacheName, CacheStats>, kbps: map<CacheName, real>) returns (m': map<CacheName, CacheStats>)
    ensures AllKbps(m, m', kbps)
  {
    m' := m;
    var todo := m.Keys;
    while todo != {}
      invariant todo <= m.Keys && m'.Keys == m.Keys
      invariant forall c | c in m :: if c in kbps && c !in todo then m'[c] == m[c].(kbps := kbps[c]) else m'[c] == m[c]
      decreases todo
    {
      var c :| c in todo;
      todo := todo - {c};
      if c in kbps {
        m' := m'[c := m'[c].(kbps := kbps[c])];
      }
    }
  }

  /** The maps and the total of one service. */
  method RatedMaps(m: Maps, total: CacheStats, r: ServiceRates) returns (m': Maps, total': CacheStats)
    ensures RatedMapsOf(m, m', r) && Rated(total, total', r.total)
  {
    var caches := SetKbps(m.caches, r.kbps);
    var groups := AddRates(m.groups, r.groups);
    var kinds := AddRates(m.types, r.kinds);
    SetRatesRates(total, r.total);
    m', total' := Maps(groups, kinds, caches), SetRates(total, r.total);
  }

  // ---------- All services ----------

  /** The rates of all services but those in `todo` are written. */
  ghost predicate WrittenBut(st: State, now: State, rates: AllRates, todo: set<DeliveryServiceName>) {
    now.ds.Keys == st.ds.Keys && rates.Keys == st.ds.Keys - todo && forall d | d in st.ds :: HadTurn(st, now, rates, todo, d)
  }

  ghost predicate HadTurn(st: State, now: State, rates: AllRates, todo: set<DeliveryServiceName>, d: DeliveryServiceName)
    requires d in st.ds
  {
    if d in todo then Untouched(st, now, d) else d in rates && Written(st, now, d, rates[d])
  }

  ghost predicate Untouched(st: State, now: State, d: DeliveryServiceName)
    requires d in st.ds
  {
    d in now.ds && now.ds[d] == st.ds[d] && MapsAt(now.cells, st.ds[d].ref) == MapsAt(st.cells, st.ds[d].ref)
  }

  /** New maps and a new total of one service. */
  function Replaced(now: State, d: DeliveryServiceName, m: Maps, total: CacheStats): State
    requires d in now.ds
  {
    State(now.cells[now.ds[d].ref := m], now.ds[d := Stat(total, now.ds[d].ref)])
  }

  lemma {:induction false} OthersStay(st: State, now: State, d: DeliveryServiceName, m: Maps, total: CacheStats, e: DeliveryServiceName)
    requires d in now.ds && e in st.ds && e != d && now.ds[d].ref != st.ds[e].ref
    ensures Untouched(st, now, e) ==> Untouched(st, Replaced(now, d, m, total), e)
    ensures forall r :: Written(st, now, e, r) ==> Written(st, Replaced(now, d, m, total), e, r)
  {
    assert MapsAt(Replaced(now, d, m, total).cells, st.ds[e].ref) == MapsAt(now.cells, st.ds[e].ref);
  }

  /** The maps and the total that are to replace those of a service have its rates. */
  ghost predicate Replacing(now: State, d: DeliveryServiceName, m: Maps, total: CacheStats, r: ServiceRates)
    requires d in now.ds
  {
    RatedMapsOf(MapsAt(now.cells, now.ds[d].ref), m, r) && Rated(now.ds[d].total, total, r.total)
  }

  lemma {:induction false} OwnIsWritten(st: State, now: State, d: DeliveryServiceName, m: Maps, total: CacheStats, r: ServiceRates)
    requires d in st.ds && Untouched(st, now, d) && Replacing(now, d, m, total, r)
    ensures Written(st, Replaced(now, d, m, total), d, r)
  {
  }

  lemma {:induction false} OtherTurn(st: State, now: State, rates: AllRates, todo: set<DeliveryServiceName>,
                                     d: DeliveryServiceName, m: Maps, total: CacheStats, r: ServiceRates,
                                     e: DeliveryServiceName)
    requires d in now.ds && e in st.ds && e != d && now.ds[d].ref != st.ds[e].ref && HadTurn(st, now, rates, todo, e)
    ensures HadTurn(st, Replaced(now, d, m, total), rates[d := r], todo - {d}, e)
  {
    OthersStay(st, now, d, m, total, e);
  }

  lemma {:induction false} WriteStep(st: State, now: State, rates: AllRates, todo: set<DeliveryServiceName>,
                                     d: DeliveryServiceName, m: Maps, total: CacheStats, r: ServiceRates)
    requires Separate(st.ds) && WrittenBut(st, now, rates, todo) && d in todo && d in st.ds
    requires Written(st, Replaced(now, d, m, total), d, r)
    ensures WrittenBut(st, Replaced(now, d, m, total), rates[d := r], todo - {d})
  {
    assert HadTurn(st, now, rates, todo, d);
    forall e | e in st.ds
      ensures HadTurn(st, Replaced(now, d, m, total), rates[d := r], todo - {d}, e)
    {
      if e != d {
        OtherTurn(st, now, rates, todo, d, m, total, r, e);
      }
    }
  }
}
