/** Delivery service statistics of servers that have moved to another cachegroup or type since their stats were
    precomputed (`traffic_monitor/ds/stat.go`). */
module Moved {
  import opened Core
  import opened Totals
  import opened DsStats

  /** Precomputing makes one entry in each breakdown, under the name of that time. */
  ghost predicate Filed(v: Visit) {
    forall dim :: exists name :: Breakdown(v.value, dim) == map[name := v.value.total]
  }

  ghost predicate AllFiled(visits: seq<Visit>) {
    forall i | 0 <= i < |visits| :: Filed(visits[i])
  }

  /** The server is known by another name now. */
  predicate HasMoved(v: Visit, dim: Dimension) {
    NameOf(v, dim) !in Breakdown(v.value, dim)
  }

  /** The totals of the visited servers that have moved. */
  ghost function MovedTotals(visits: seq<Visit>, d: DeliveryServiceName, dim: Dimension): (m: map<string, CacheStats>)
    ensures forall s :: s in m ==> exists i | 0 <= i < |visits| :: visits[i].server == s && visits[i].ds == d
  {
    if visits == [] then map[]
    else
      var v, before := visits[|visits| - 1], MovedTotals(visits[..|visits| - 1], d, dim);
      if v.ds == d && HasMoved(v, dim) then before[v.server := v.value.total] else before
  }

  /** What is in the breakdown and what has moved make up the total. */
  ghost predicate Accounted(st: StatValue, visits: seq<Visit>, d: DeliveryServiceName, dim: Dimension) {
    Sum(SumOf(Breakdown(st, dim)), SumOf(MovedTotals(visits, d, dim))) == st.total
  }

  lemma {:induction false} SumShuffles(a: CacheStats, b: CacheStats, v: CacheStats)
    ensures Sum(Sum(a, v), b) == Sum(Sum(a, b), v) == Sum(a, Sum(b, v))
  {
  }

  /** A server that has moved adds nothing to the breakdown, and any other one its total. */
  lemma {:induction false} BreakdownStep(st: StatValue, v: Visit, dim: Dimension)
    requires Filed(v)
    ensures SumOf(Breakdown(AddTo(st, v), dim))
      == if HasMoved(v, dim) then SumOf(Breakdown(st, dim)) else Sum(SumOf(Breakdown(st, dim)), v.value.total)
  {
    var name :| Breakdown(v.value, dim) == map[name := v.value.total];
    var more := Get(Breakdown(v.value, dim), NameOf(v, dim), ZERO);
    assert Breakdown(AddTo(st, v), dim) == AddEntry(Breakdown(st, dim), NameOf(v, dim), Breakdown(v.value, dim));
    SumOfAdd(Breakdown(st, dim), NameOf(v, dim), more);
    assert Sum(SumOf(Breakdown(st, dim)), ZERO) == SumOf(Breakdown(st, dim));
  }

  lemma {:induction false} MovedStep(visits: seq<Visit>, dim: Dimension)
    requires visits != [] && Distinct(visits)
    ensures var v, before := visits[|visits| - 1], visits[..|visits| - 1];
      SumOf(MovedTotals(visits, v.ds, dim))
        == if HasMoved(v, dim) then Sum(SumOf(MovedTotals(before, v.ds, dim)), v.value.total) else SumOf(MovedTotals(before, v.ds, dim))
  {
    var v := visits[|visits| - 1];
    var before := MovedTotals(visits[..|visits| - 1], v.ds, dim);
    if HasMoved(v, dim) {
      assert v.server !in before;
      SumOfAdd(before, v.server, v.value.total);
      assert Sum(ZERO, v.value.total) == v.value.total;
    }
  }

  lemma {:induction false} AccountedStep(st: StatValue, visits: seq<Visit>, dim: Dimension)
    requires visits != [] && Distinct(visits) && Filed(visits[|visits| - 1])
    requires Accounted(st, visits[..|visits| - 1], visits[|visits| - 1].ds, dim)
    ensures Accounted(AddTo(st, visits[|visits| - 1]), visits, visits[|visits| - 1].ds, dim)
  {
    var v, before := visits[|visits| - 1], visits[..|visits| - 1];
    BreakdownStep(st, v, dim);
    MovedStep(visits, dim);
    SumShuffles(SumOf(Breakdown(st, dim)), SumOf(MovedTotals(before, v.ds, dim)), v.value.total);
  }

  lemma {:induction false} StartIsAccounted(st: StatValue, d: DeliveryServiceName, dim: Dimension)
    requires SameStat(EMPTY, st)
    ensures Accounted(st, [], d, dim)
  {
    SumOfSame(Breakdown(EMPTY, dim), Breakdown(st, dim));
    SumIsAdditive();
    assert SumOf(map[]) == ZERO;
  }

  /** What `AddAll` made of a service that was made in advance. */
  ghost predicate AllAccounted(stats: StatValues, visits: seq<Visit>, d: DeliveryServiceName, dim: Dimension) {
    d in stats && Accounted(stats[d], visits, d, dim)
  }

  lemma {:induction false} MovedOfOther(visits: seq<Visit>, d: DeliveryServiceName, dim: Dimension)
    requires visits != [] && visits[|visits| - 1].ds != d
    ensures MovedTotals(visits, d, dim) == MovedTotals(visits[..|visits| - 1], d, dim)
  {
  }

  lemma {:induction false} OtherIsAccounted(stats: StatValues, visits: seq<Visit>, d: DeliveryServiceName, dim: Dimension)
    requires visits != [] && visits[|visits| - 1].ds != d && AllAccounted(stats, visits[..|visits| - 1], d, dim)
    ensures AllAccounted(AddVisit(stats, visits[|visits| - 1]), visits, d, dim)
  {
    MovedOfOther(visits, d, dim);
    SameStatOfOther(stats, visits[|visits| - 1], d);
  }

  lemma {:induction false} SameStatOfOther(stats: StatValues, v: Visit, d: DeliveryServiceName)
    requires d in stats && v.ds != d
    ensures d in AddVisit(stats, v) && AddVisit(stats, v)[d] == stats[d]
  {
  }

  lemma {:induction false} OwnIsAccounted(stats: StatValues, visits: seq<Visit>, d: DeliveryServiceName, dim: Dimension)
    requires visits != [] && Distinct(visits) && Filed(visits[|visits| - 1]) && visits[|visits| - 1].ds == d
    requires AllAccounted(stats, visits[..|visits| - 1], d, dim)
    ensures AllAccounted(AddVisit(stats, visits[|visits| - 1]), visits, d, dim)
  {
    AccountedStep(stats[d], visits, dim);
    StatOfOwn(stats, visits[|visits| - 1]);
  }

  lemma {:induction false} StatOfOwn(stats: StatValues, v: Visit)
    requires v.ds in stats
    ensures v.ds in AddVisit(stats, v) && AddVisit(stats, v)[v.ds] == AddTo(stats[v.ds], v)
  {
  }

  lemma {:induction false} FiledBefore(visits: seq<Visit>)
    requires visits != [] && AllFiled(visits) && Distinct(visits)
    ensures AllFiled(visits[..|visits| - 1]) && Filed(visits[|visits| - 1]) && Distinct(visits[..|visits| - 1])
  {
  }

  /** After any visits, in any order, what a breakdown of a service made in advance lacks of its total is just what the
      servers count that have moved: they are in no entry at all. */
  lemma {:induction false} MovedAreMissing(initial: StatValues, visits: seq<Visit>, d: DeliveryServiceName, dim: Dimension)
    requires Starts(initial) && d in initial && Distinct(visits) && AllFiled(visits)
    ensures AllAccounted(AddAll(initial, visits), visits, d, dim)
  {
    if visits == [] {
      StartIsAccounted(initial[d], d, dim);
    } else {
      FiledBefore(visits);
      MovedAreMissing(initial, visits[..|visits| - 1], d, dim);
      if visits[|visits| - 1].ds == d {
        OwnIsAccounted(AddAll(initial, visits[..|visits| - 1]), visits, d, dim);
      } else {
        OtherIsAccounted(AddAll(initial, visits[..|visits| - 1]), visits, d, dim);
      }
    }
  }

  /** Counts and no flags, none of them negative. */
  predicate IsCount(c: CacheStats) {
    && !c.isAvailable && c.outBytes >= 0 && c.status5xx >= 0 && c.status4xx >= 0 && c.status3xx >= 0 && c.status2xx >= 0
    && c.inBytes >= 0.0 && c.kbps >= 0.0 && c.tps5xx >= 0.0 && c.tps4xx >= 0.0 && c.tps3xx >= 0.0 && c.tps2xx >= 0.0
    && c.tpsTotal >= 0.0
  }

  lemma {:induction false} SumIsCount(a: CacheStats, b: CacheStats)
    requires IsCount(a) && IsCount(b)
    ensures IsCount(Sum(a, b))
  {
  }

  predicate NoCounts(c: CacheStats) {
    && !c.isAvailable && c.outBytes == c.status5xx == c.status4xx == c.status3xx == c.status2xx == 0
    && c.inBytes == c.kbps == c.tps5xx == c.tps4xx == c.tps3xx == c.tps2xx == c.tpsTotal == 0.0
  }

  lemma {:induction false} NoCountsIsZero(c: CacheStats)
    ensures NoCounts(c) <==> c == ZERO
  {
  }

  lemma {:induction false} NoCountsOfSum(a: CacheStats, b: CacheStats)
    requires IsCount(a) && IsCount(b)
    ensures NoCounts(Sum(a, b)) <==> NoCounts(a) && NoCounts(b)
  {
    var c := Sum(a, b);
    assert c.outBytes == a.outBytes + b.outBytes && c.status5xx == a.status5xx + b.status5xx && c.status4xx == a.status4xx + b.status4xx;
    assert c.status3xx == a.status3xx + b.status3xx && c.status2xx == a.status2xx + b.status2xx && c.inBytes == a.inBytes + b.inBytes;
    assert c.kbps == a.kbps + b.kbps && c.tps5xx == a.tps5xx + b.tps5xx && c.tps4xx == a.tps4xx + b.tps4xx;
    assert c.tps3xx == a.tps3xx + b.tps3xx && c.tps2xx == a.tps2xx + b.tps2xx && c.tpsTotal == a.tpsTotal + b.tpsTotal;
  }

  lemma {:induction false} CountSum(a: CacheStats, b: CacheStats)
    requires IsCount(a) && IsCount(b)
    ensures IsCount(Sum(a, b)) && (Sum(a, b) == ZERO <==> a == ZERO && b == ZERO)
  {
    SumIsCount(a, b);
    NoCountsOfSum(a, b);
    NoCountsIsZero(a);
    NoCountsIsZero(b);
    NoCountsIsZero(Sum(a, b));
  }

  ghost predicate AllCount(m: map<string, CacheStats>) {
    forall s | s in m :: IsCount(m[s])
  }

  ghost predicate AllZero(m: map<string, CacheStats>) {
    forall s | s in m :: m[s] == ZERO
  }

  lemma {:induction false} OneMore(m: map<string, CacheStats>, s: string, c: CacheStats)
    requires s !in m && AllCount(m) && IsCount(c)
    ensures AllCount(m[s := c]) && (AllZero(m[s := c]) <==> AllZero(m) && c == ZERO)
  {
    if AllZero(m[s := c]) {
      assert m[s := c][s] == ZERO;
      forall k | k in m
        ensures m[k] == ZERO
      {
        assert m[s := c][k] == m[k];
      }
    }
  }

  lemma {:induction false} CountsSumToZero(m: map<string, CacheStats>)
    requires AllCount(m)
    ensures IsCount(SumOf(m)) && (SumOf(m) == ZERO <==> AllZero(m))
    decreases |m|
  {
    if m != map[] {
      var k :| k in m;
      SumIsAdditive();
      TotalSplit(m, k, Sum, ZERO);
      CountsSumToZero(m - {k});
      CountSum(m[k], SumOf(m - {k}));
      OneMore(m - {k}, k, m[k]);
      assert (m - {k})[k := m[k]] == m;
    }
  }

  /** A visit of a server that has moved counts nothing. */
  predicate Idle(v: Visit, d: DeliveryServiceName, dim: Dimension) {
    v.ds == d && HasMoved(v, dim) ==> v.value.total == ZERO
  }

  lemma {:induction false} MovedAreCounts(visits: seq<Visit>, d: DeliveryServiceName, dim: Dimension)
    requires Distinct(visits) && forall i | 0 <= i < |visits| :: IsCount(visits[i].value.total)
    ensures AllCount(MovedTotals(visits, d, dim))
    ensures AllZero(MovedTotals(visits, d, dim)) <==> forall i | 0 <= i < |visits| :: Idle(visits[i], d, dim)
  {
    if visits != [] {
      var before, v := visits[..|visits| - 1], visits[|visits| - 1];
      assert forall i | 0 <= i < |before| :: before[i] == visits[i];
      MovedAreCounts(before, d, dim);
      var b := MovedTotals(before, d, dim);
      if v.ds == d && HasMoved(v, dim) {
        assert v.server !in b;
        OneMore(b, v.server, v.value.total);
      }
      IdleStep(visits, d, dim);
    }
  }

  lemma {:induction false} IdleStep(visits: seq<Visit>, d: DeliveryServiceName, dim: Dimension)
    requires visits != []
    ensures var before := visits[..|visits| - 1];
      (forall i | 0 <= i < |visits| :: Idle(visits[i], d, dim))
      <==> Idle(visits[|visits| - 1], d, dim) && forall i | 0 <= i < |before| :: Idle(before[i], d, dim)
  {
    var before := visits[..|visits| - 1];
    assert forall i | 0 <= i < |before| :: before[i] == visits[i];
    if Idle(visits[|before|], d, dim) && forall i | 0 <= i < |before| :: Idle(before[i], d, dim) {
      forall i | 0 <= i < |visits|
        ensures Idle(visits[i], d, dim)
      {
        assert i < |before| ==> Idle(before[i], d, dim);
      }
    }
  }

  /** So a breakdown adds up to the total iff no server that counts anything has moved. */
  lemma {:induction false} AddsUpIff(initial: StatValues, visits: seq<Visit>, d: DeliveryServiceName, dim: Dimension)
    requires Starts(initial) && d in initial && Distinct(visits)
    requires AllFiled(visits) && forall i | 0 <= i < |visits| :: IsCount(visits[i].value.total)
    ensures d in AddAll(initial, visits)
    ensures var st := AddAll(initial, visits)[d];
      SumOf(Breakdown(st, dim)) == st.total <==> forall i | 0 <= i < |visits| :: Idle(visits[i], d, dim)
  {
    MovedAreMissing(initial, visits, d, dim);
    MovedAreCounts(visits, d, dim);
    CountsSumToZero(MovedTotals(visits, d, dim));
    NothingAdded(SumOf(Breakdown(AddAll(initial, visits)[d], dim)), SumOf(MovedTotals(visits, d, dim)));
  }

  lemma {:induction false} NothingAdded(a: CacheStats, b: CacheStats)
    requires IsCount(b)
    ensures Sum(a, b) == a <==> b == ZERO
  {
  }
}
