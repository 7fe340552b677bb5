/** The rates of a delivery service, per cache and summed up (`traffic_monitor/ds/stat.go`,
    `traffic_monitor/dsdata/stat.go`). */
module LastStats {
  import opened Core
  import opened Totals
  import Rates

  type LastStatData = Rates.LastStatData

  datatype LastStatsData = LastStatsData(
    bytes: LastStatData, status2xx: LastStatData, status3xx: LastStatData, status4xx: LastStatData, status5xx: LastStatData)

  const ZERO := LastStatsData(Rates.ZERO, Rates.ZERO, Rates.ZERO, Rates.ZERO, Rates.ZERO)

  /** The time of a sum is meaningless, and is always zero. */
  function SumData(a: LastStatData, b: LastStatData): LastStatData {
    Rates.LastStatData(a.perSec + b.perSec, a.stat + b.stat, 0)
  }

  function Sum(a: LastStatsData, b: LastStatsData): LastStatsData {
    LastStatsData(SumData(a.bytes, b.bytes), SumData(a.status2xx, b.status2xx), SumData(a.status3xx, b.status3xx),
                  SumData(a.status4xx, b.status4xx), SumData(a.status5xx, b.status5xx))
  }

  ghost predicate Timeless(d: LastStatsData) {
    d.bytes.time == d.status2xx.time == d.status3xx.time == d.status4xx.time == d.status5xx.time == 0
  }

  // ---------- One cache ----------

  /** The counters of a cache that have a rate. */
  datatype Counters = Counters(bytes: int, status2xx: int, status3xx: int, status4xx: int, status5xx: int)

  /** Each counter gets its own sample; the result is an error if any counter gave one. */
  function AddLastStats(last: LastStatsData, n: Counters, time: int): (r: (LastStatsData, bool))
    ensures NonNegative(last) ==> NonNegative(r.0)
    ensures r.1 <==> exists counter :: IsFallOrLate(Of(last, counter), ValueOf(n, counter), time)
  {
    assert forall d: LastStatData, v: int :: Rates.AddLastStat(d, Rates.Sample(v, time)).1 <==> IsFallOrLate(d, v, time);
    assert Of(last, Bytes) == last.bytes && ValueOf(n, Bytes) == n.bytes;
    assert Of(last, Status2xx) == last.status2xx && ValueOf(n, Status2xx) == n.status2xx;
    assert Of(last, Status3xx) == last.status3xx && ValueOf(n, Status3xx) == n.status3xx;
    assert Of(last, Status4xx) == last.status4xx && ValueOf(n, Status4xx) == n.status4xx;
    assert Of(last, Status5xx) == last.status5xx && ValueOf(n, Status5xx) == n.status5xx;
    var b := Rates.AddLastStat(last.bytes, Rates.Sample(n.bytes, time));
    var s2 := Rates.AddLastStat(last.status2xx, Rates.Sample(n.status2xx, time));
    var s3 := Rates.AddLastStat(last.status3xx, Rates.Sample(n.status3xx, time));
    var s4 := Rates.AddLastStat(last.status4xx, Rates.Sample(n.status4xx, time));
    var s5 := Rates.AddLastStat(last.status5xx, Rates.Sample(n.status5xx, time));
    (LastStatsData(b.0, s2.0, s3.0, s4.0, s5.0), b.1 || s2.1 || s3.1 || s4.1 || s5.1)
  }

  /** A sample that is lower than the last one, or earlier, but not of the same time. */
  predicate IsFallOrLate(last: LastStatData, value: int, time: int) {
    time != last.time && (value < last.stat || time < last.time)
  }

  datatype Counter = Bytes | Status2xx | Status3xx | Status4xx | Status5xx

  function Of(d: LastStatsData, counter: Counter): LastStatData {
    match counter
    case Bytes => d.bytes
    case Status2xx => d.status2xx
    case Status3xx => d.status3xx
    case Status4xx => d.status4xx
    case Status5xx => d.status5xx
  }

  function ValueOf(n: Counters, counter: Counter): int {
    match counter
    case Bytes => n.bytes
    case Status2xx => n.status2xx
    case Status3xx => n.status3xx
    case Status4xx => n.status4xx
    case Status5xx => n.status5xx
  }

  datatype Poll = Poll(counters: Counters, time: int)

  function RunStats(last: LastStatsData, polls: seq<Poll>): LastStatsData
    decreases polls
  {
    if polls == [] then last else RunStats(AddLastStats(last, polls[0].counters, polls[0].time).0, polls[1..])
  }

  function SamplesOf(polls: seq<Poll>, counter: Counter): seq<Rates.Sample> {
    seq(|polls|, i requires 0 <= i < |polls| => Rates.Sample(ValueOf(polls[i].counters, counter), polls[i].time))
  }

  lemma {:induction false} CounterStep(last: LastStatsData, n: Counters, time: int, counter: Counter)
    ensures Of(AddLastStats(last, n, time).0, counter)
      == Rates.AddLastStat(Of(last, counter), Rates.Sample(ValueOf(n, counter), time)).0
  {
  }

  /** Over every run of polls each counter has the rate of its own samples: none is mixed up with another,
      and the error of one does not keep another from its sample. */
  lemma {:induction false} EachCounterRunsAlone(last: LastStatsData, polls: seq<Poll>, counter: Counter)
    ensures Of(RunStats(last, polls), counter) == Rates.Run(Of(last, counter), SamplesOf(polls, counter))
    decreases polls
  {
    if polls != [] {
      var samples := SamplesOf(polls, counter);
      EachCounterRunsAlone(AddLastStats(last, polls[0].counters, polls[0].time).0, polls[1..], counter);
      CounterStep(last, polls[0].counters, polls[0].time, counter);
      assert samples[1..] == SamplesOf(polls[1..], counter);
    }
  }

  /** So each rate is that of the last rise of its own counter over the polls. */
  lemma {:induction false} CounterHasLastRise(last: LastStatsData, polls: seq<Poll>, counter: Counter)
    ensures var first, samples := Of(last, counter), SamplesOf(polls, counter);
      var perSec, base := Of(RunStats(last, polls), counter).perSec, Rates.Sample(first.stat, first.time);
      && ((forall k | 0 <= k < |samples| :: !Rates.IsRise(base, samples, k)) ==> perSec == first.perSec)
      && (forall k | 0 <= k < |samples| && Rates.IsRise(base, samples, k)
                     && (forall j | k < j < |samples| :: !Rates.IsRise(base, samples, j)) ::
            Rates.IsRateOf(perSec, base, samples, k))
  {
    EachCounterRunsAlone(last, polls, counter);
    Rates.RateIsThatOfLastRise(Of(last, counter), SamplesOf(polls, counter));
  }

  predicate NonNegative(d: LastStatsData) {
    && d.bytes.perSec >= 0.0 && d.status2xx.perSec >= 0.0 && d.status3xx.perSec >= 0.0
    && d.status4xx.perSec >= 0.0 && d.status5xx.perSec >= 0.0
  }

  const BYTES_PER_KILOBIT := 125.0

  datatype Precomputed = Precomputed(time: int)

  type Caches = map<CacheName, LastStatsData>

  function At(caches: Caches, c: CacheName): LastStatsData {
    if c in caches then caches[c] else ZERO
  }

  /** A cache in the stats that has a precomputed result gets a sample. */
  function Sampled(last: Caches, stats: map<CacheName, Counters>, precomputed: map<CacheName, Precomputed>, c: CacheName): LastStatsData {
    if c in stats && c in precomputed then AddLastStats(At(last, c), stats[c], precomputed[c].time).0 else At(last, c)
  }

  /** What a cache has after the update: its sample, and a bandwidth iff it is in the stats and its sample was no error. */
  ghost predicate Updated(last: Caches, last': Caches, kbps: map<CacheName, real>, stats: map<CacheName, Counters>,
                          precomputed: map<CacheName, Precomputed>, c: CacheName)
  {
    && At(last', c) == Sampled(last, stats, precomputed, c)
    && (c in kbps <==> c in stats && !(c in precomputed && AddLastStats(At(last, c), stats[c], precomputed[c].time).1))
    && (c in kbps ==> kbps[c] * BYTES_PER_KILOBIT == At(last', c).bytes.perSec)
  }

  /** A cache whose turn has not come. */
  ghost predicate Waiting(last: Caches, last': Caches, kbps: map<CacheName, real>, c: CacheName) {
    At(last', c) == At(last, c) && c !in kbps
  }

  /** One turn of the loop; no bandwidth when the sample is an error. */
  function UpdateCache(last: Caches, kbps: map<CacheName, real>, n: Counters, precomputed: map<CacheName, Precomputed>, c: CacheName):
      (Caches, map<CacheName, real>)
  {
    if c !in precomputed then
      (last, kbps[c := At(last, c).bytes.perSec / BYTES_PER_KILOBIT])
    else
      var (next, err) := AddLastStats(At(last, c), n, precomputed[c].time);
      (last[c := next], if err then kbps else kbps[c := next.bytes.perSec / BYTES_PER_KILOBIT])
  }

  lemma {:induction false} UpdateStep(last: Caches, now: Caches, kbps: map<CacheName, real>,
                                      stats: map<CacheName, Counters>, precomputed: map<CacheName, Precomputed>,
                                      c: CacheName)
    requires c in stats && Waiting(last, now, kbps, c)
    ensures var (now', kbps') := UpdateCache(now, kbps, stats[c], precomputed, c);
      && Updated(last, now', kbps', stats, precomputed, c)
      && (forall d | d != c :: Waiting(last, now', kbps', d) <==> Waiting(last, now, kbps, d))
      && (forall d | d != c :: Updated(last, now', kbps', stats, precomputed, d) <==> Updated(last, now, kbps, stats, precomputed, d))
  {
  }

  ghost predicate AllNonNegative(caches: Caches) {
    forall c | c in caches :: NonNegative(caches[c])
  }

  lemma {:induction false} SamplesStayNonNegative(last: Caches, last': Caches, kbps: map<CacheName, real>,
                                                  stats: map<CacheName, Counters>,
                                                  precomputed: map<CacheName, Precomputed>)
    requires AllNonNegative(last) && forall c :: Updated(last, last', kbps, stats, precomputed, c)
    ensures AllNonNegative(last')
  {
    forall c | c in last'
      ensures NonNegative(last'[c])
    {
      assert Updated(last, last', kbps, stats, precomputed, c) && NonNegative(At(last, c));
      assert last'[c] == At(last', c) == Sampled(last, stats, precomputed, c);
    }
  }

  /** The caches that report the delivery service: those with a precomputed result get a sample. A
      cache whose sample was an error gets no bandwidth. */
  method UpdateCaches(last: Caches, stats: map<CacheName, Counters>, precomputed: map<CacheName, Precomputed>)
      returns (last': Caches, kbps: map<CacheName, real>)
    ensures forall c :: Updated(last, last', kbps, stats, precomputed, c)
    ensures AllNonNegative(last) ==> AllNonNegative(last')
  {
    last', kbps := last, map[];
    var todo := stats.Keys;
    while todo != {}
      invariant todo <= stats.Keys
      invariant forall c | c in todo :: Waiting(last, last', kbps, c)
      invariant forall c | c !in todo :: Updated(last, last', kbps, stats, precomputed, c)
      decreases todo
    {
      var c :| c in todo;
      todo := todo - {c};
      UpdateStep(last, last', kbps, stats, precomputed, c);
      var next := UpdateCache(last', kbps, stats[c], precomputed, c);
      last', kbps := next.0, next.1;
    }
    if AllNonNegative(last) {
      SamplesStayNonNegative(last, last', kbps, stats, precomputed);
    }
  }

  // ---------- The totals ----------

  /** The two numbers of a counter that sums are made of. */
  datatype Tally = Tally(perSec: real, stat: int)

  const NOTHING := Tally(0.0, 0)

  function Plus(a: Tally, b: Tally): Tally {
    Tally(a.perSec + b.perSec, a.stat + b.stat)
  }

  function Pick(d: LastStatsData, counter: Counter): Tally {
    var data := Of(d, counter);
    Tally(data.perSec, data.stat)
  }

  /** Sums are made counter by counter. */
  lemma {:induction false} PickOfSum(a: LastStatsData, b: LastStatsData, counter: Counter)
    ensures Pick(Sum(a, b), counter) == Plus(Pick(a, counter), Pick(b, counter))
  {
  }

  lemma {:induction false} PlusIsAdditive()
    ensures Additive(Plus, NOTHING)
  {
    forall a, b
      ensures Commutes(Plus, a, b)
    {
      assert Plus(a, b) == Plus(b, a);
    }
    forall a, b, c
      ensures Associates(Plus, a, b, c)
    {
      assert Plus(Plus(a, b), c) == Plus(a, Plus(b, c));
    }
    forall a
      ensures Neutral(Plus, NOTHING, a)
    {
      assert Plus(a, NOTHING) == a;
    }
  }

  ghost function Tallies(m: map<string, LastStatsData>, counter: Counter): map<string, Tally> {
    map k | k in m :: Pick(m[k], counter)
  }

  ghost function SumOf(m: map<string, LastStatsData>, counter: Counter): Tally {
    Total(Tallies(m, counter), Plus, NOTHING)
  }

  lemma {:induction false} SumOfAdd(m: map<string, LastStatsData>, k: string, d: LastStatsData, counter: Counter)
    ensures SumOf(m[k := Sum(Get(m, k, ZERO), d)], counter) == Plus(SumOf(m, counter), Pick(d, counter))
  {
    PlusIsAdditive();
    TotalAdd(Tallies(m, counter), k, Pick(d, counter), Plus, NOTHING);
    PickOfSum(Get(m, k, ZERO), d, counter);
    assert Tallies(m[k := Sum(Get(m, k, ZERO), d)], counter)
        == Tallies(m, counter)[k := Plus(Get(Tallies(m, counter), k, NOTHING), Pick(d, counter))];
  }

  lemma {:induction false} SumOfNew(m: map<string, LastStatsData>, k: string, d: LastStatsData, counter: Counter)
    requires k !in m
    ensures SumOf(m[k := d], counter) == Plus(SumOf(m, counter), Pick(d, counter))
  {
    var tallies, v := Tallies(m, counter), Pick(d, counter);
    PlusIsAdditive();
    TotalAdd(tallies, k, v, Plus, NOTHING);
    assert Plus(NOTHING, v) == v;
    TalliesOfUpdate(m, k, d, counter);
  }

  lemma {:induction false} TalliesOfUpdate(m: map<string, LastStatsData>, k: string, d: LastStatsData, counter: Counter)
    ensures Tallies(m[k := d], counter) == Tallies(m, counter)[k := Pick(d, counter)]
  {
  }

  /** The caches that report the delivery service. */
  ghost function Reporting(caches: Caches, reporting: map<CacheName, bool>): Caches {
    map c | c in caches && c in reporting && reporting[c] :: caches[c]
  }

  function NameOf(names: map<CacheName, string>, c: CacheName): Option<string> {
    if c in names then Some(names[c]) else None
  }

  /** Those of the caches which have the given name, or none, in a table of names. */
  ghost function Named(m: Caches, names: map<CacheName, string>, name: Option<string>): Caches {
    map c | c in m && NameOf(names, c) == name :: m[c]
  }

  /** A breakdown by name: each name has the sum of its caches, and only the nameless caches are missing
      from the breakdown. */
  ghost predicate Breakdown(parts: map<string, LastStatsData>, m: Caches, names: map<CacheName, string>, counter: Counter) {
    && (forall k :: Pick(Get(parts, k, ZERO), counter) == SumOf(Named(m, names, Some(k)), counter))
    && Plus(SumOf(parts, counter), SumOf(Named(m, names, None), counter)) == SumOf(m, counter)
  }

  lemma {:induction false} NamedStep(m: Caches, names: map<CacheName, string>, name: Option<string>, c: CacheName, d: LastStatsData, counter: Counter)
    requires c !in m
    ensures var before := SumOf(Named(m, names, name), counter);
            SumOf(Named(m[c := d], names, name), counter)
              == if NameOf(names, c) == name then Plus(before, Pick(d, counter)) else before
  {
    if NameOf(names, c) == name {
      assert Named(m[c := d], names, name) == Named(m, names, name)[c := d];
      SumOfNew(Named(m, names, name), c, d, counter);
    } else {
      assert Named(m[c := d], names, name) == Named(m, names, name);
    }
  }

  /** Adds the data of a cache to the entry of its name, if it has one. */
  function AddNamed(parts: map<string, LastStatsData>, names: map<CacheName, string>, c: CacheName, d: LastStatsData): map<string, LastStatsData> {
    if c in names then parts[names[c] := Sum(Get(parts, names[c], ZERO), d)] else parts
  }

  lemma {:induction false} EntryStep(parts: map<string, LastStatsData>, m: Caches, names: map<CacheName, string>,
                                     c: CacheName, d: LastStatsData, k: string, counter: Counter)
    requires c !in m
    requires Pick(Get(parts, k, ZERO), counter) == SumOf(Named(m, names, Some(k)), counter)
    ensures Pick(Get(AddNamed(parts, names, c, d), k, ZERO), counter) == SumOf(Named(m[c := d], names, Some(k)), counter)
  {
    NamedStep(m, names, Some(k), c, d, counter);
    PickOfSum(Get(parts, k, ZERO), d, counter);
  }

  lemma {:induction false} PlusEither(a: Tally, b: Tally, v: Tally)
    ensures Plus(Plus(a, v), b) == Plus(Plus(a, b), v) == Plus(a, Plus(b, v))
  {
  }

  lemma {:induction false} PartsStep(parts: map<string, LastStatsData>, m: Caches, names: map<CacheName, string>,
                                     c: CacheName, d: LastStatsData, counter: Counter)
    requires c !in m
    requires Plus(SumOf(parts, counter), SumOf(Named(m, names, None), counter)) == SumOf(m, counter)
    ensures Plus(SumOf(AddNamed(parts, names, c, d), counter), SumOf(Named(m[c := d], names, None), counter))
         == SumOf(m[c := d], counter)
  {
    var v := Pick(d, counter);
    assert SumOf(m[c := d], counter) == Plus(SumOf(m, counter), v) by {
      SumOfNew(m, c, d, counter);
    }
    if c in names {
      assert SumOf(AddNamed(parts, names, c, d), counter) == Plus(SumOf(parts, counter), v) by {
        SumOfAdd(parts, names[c], d, counter);
      }
    }
    var nameless := SumOf(Named(m, names, None), counter);
    assert SumOf(Named(m[c := d], names, None), counter) == if c in names then nameless else Plus(nameless, v) by {
      NamedStep(m, names, None, c, d, counter);
    }
    PlusEither(SumOf(parts, counter), nameless, v);
  }

  /** One more cache: its data goes to its name, or to the nameless. */
  lemma {:induction false} BreakdownStep(parts: map<string, LastStatsData>, m: Caches, names: map<CacheName, string>,
                                         c: CacheName, d: LastStatsData, counter: Counter)
    requires c !in m && Breakdown(parts, m, names, counter)
    ensures Breakdown(AddNamed(parts, names, c, d), m[c := d], names, counter)
  {
    PartsStep(parts, m, names, c, d, counter);
    forall k
      ensures Pick(Get(AddNamed(parts, names, c, d), k, ZERO), counter) == SumOf(Named(m[c := d], names, Some(k)), counter)
    {
      EntryStep(parts, m, names, c, d, k, counter);
    }
  }

  datatype Summed = Summed(groups: map<string, LastStatsData>, kinds: map<string, LastStatsData>, total: LastStatsData)

  /** The breakdowns and the total are those of the caches `m`. */
  ghost predicate TotalsOf(t: Summed, m: Caches, cachegroups: map<CacheName, string>, types: map<CacheName, string>,
                           counter: Counter)
  {
    && Pick(t.total, counter) == SumOf(m, counter)
    && Breakdown(t.groups, m, cachegroups, counter)
    && Breakdown(t.kinds, m, types, counter)
  }

  lemma {:induction false} SumOfNone(counter: Counter)
    ensures SumOf(map[], counter) == NOTHING
  {
    assert Tallies(map[], counter) == map[];
  }

  lemma {:induction false} NoBreakdown(names: map<CacheName, string>, counter: Counter)
    ensures Breakdown(map[], map[], names, counter)
  {
    SumOfNone(counter);
    forall name
      ensures Named(map[], names, name) == map[]
    {
    }
  }

  lemma {:induction false} NoTotals(cachegroups: map<CacheName, string>, types: map<CacheName, string>, counter: Counter)
    ensures TotalsOf(Summed(map[], map[], ZERO), map[], cachegroups, types, counter)
  {
    NoBreakdown(cachegroups, counter);
    NoBreakdown(types, counter);
    SumOfNone(counter);
    PickOfZero(counter);
  }

  lemma {:induction false} PickOfZero(counter: Counter)
    ensures Pick(ZERO, counter) == NOTHING
  {
  }

  lemma {:induction false} TotalsStep(t: Summed, m: Caches, cachegroups: map<CacheName, string>,
                                      types: map<CacheName, string>, c: CacheName, d: LastStatsData, counter: Counter)
    requires c !in m && TotalsOf(t, m, cachegroups, types, counter)
    ensures TotalsOf(Summed(AddNamed(t.groups, cachegroups, c, d), AddNamed(t.kinds, types, c, d), Sum(t.total, d)),
                     m[c := d], cachegroups, types, counter)
  {
    BreakdownStep(t.groups, m, cachegroups, c, d, counter);
    BreakdownStep(t.kinds, m, types, c, d, counter);
    PickOfSum(t.total, d, counter);
    SumOfNew(m, c, d, counter);
  }

  /** The breakdowns and the total of the caches that report the delivery service, in any order. A cache
      without a cachegroup or type counts in the total but not in that breakdown. */
  method AddLastDSStatTotals(caches: Caches, reporting: map<CacheName, bool>,
                             cachegroups: map<CacheName, string>, types: map<CacheName, string>)
      returns (t: Summed)
    ensures forall counter :: TotalsOf(t, Reporting(caches, reporting), cachegroups, types, counter)
    ensures Timeless(t.total) && (forall g | g in t.groups :: Timeless(t.groups[g])) && forall k | k in t.kinds :: Timeless(t.kinds[k])
  {
    t := Summed(map[], map[], ZERO);
    ghost var done: Caches := map[];
    forall counter
      ensures TotalsOf(t, done, cachegroups, types, counter)
    {
      NoTotals(cachegroups, types, counter);
    }
    var todo := caches.Keys;
    while todo != {}
      invariant todo <= caches.Keys
      invariant done == map c | c in Reporting(caches, reporting) && c !in todo :: caches[c]
      invariant forall counter :: TotalsOf(t, done, cachegroups, types, counter)
      invariant Timeless(t.total) && (forall g | g in t.groups :: Timeless(t.groups[g])) && forall k | k in t.kinds :: Timeless(t.kinds[k])
      decreases todo
    {
      var c :| c in todo;
      todo := todo - {c};
      if c in reporting && reporting[c] {
        ghost var before := t;
        t := Summed(AddNamed(t.groups, cachegroups, c, caches[c]), AddNamed(t.kinds, types, c, caches[c]),
                    Sum(t.total, caches[c]));
        ghost var done' := done[c := caches[c]];
        forall counter
          ensures TotalsOf(t, done', cachegroups, types, counter)
        {
          TotalsStep(before, done, cachegroups, types, c, caches[c], counter);
        }
        done := done';
      }
    }
    assert done == Reporting(caches, reporting);
  }

  lemma {:induction false} TotalIsNonNegative(m: map<string, Tally>)
    requires forall c | c in m :: m[c].perSec >= 0.0
    ensures Total(m, Plus, NOTHING).perSec >= 0.0
    decreases |m|
  {
    if m != map[] {
      var k :| k in m;
      PlusIsAdditive();
      TotalSplit(m, k, Plus, NOTHING);
      TotalIsNonNegative(m - {k});
    }
  }

  /** Rates that are never negative have sums that are never negative. */
  lemma {:induction false} SumIsNonNegative(m: Caches, counter: Counter)
    requires forall c | c in m :: NonNegative(m[c])
    ensures SumOf(m, counter).perSec >= 0.0
  {
    TotalIsNonNegative(Tallies(m, counter));
  }
}
