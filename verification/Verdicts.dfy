/** What a verdict means, with every name and comparison written out (`traffic_monitor/health/cache.go`,
    `traffic_monitor/cache/cache.go`). */
module Verdicts {
  import opened Core
  import opened Thresholds

  /** The stats that the monitor computes, which every poller has. */
  const COMPUTED_STATS := [
    "availableBandwidthInKbps", "availableBandwidthInMbps", "bandwidth", "error-string", "isAvailable", "isHealthy",
    "kbps", "loadavg", "maxKbps", "queryTime", "stateUrl", "status", "system.astatsLoad", "system.configReloadRequests",
    "system.configReloads", "system.inf.name", "system.inf.speed", "system.lastReload", "system.lastReloadRequest",
    "system.notAvailable", "system.proc.loadavg", "system.proc.net.dev"]

  /** Dividing drops the remainder, towards zero. */
  predicate DividesInto(a: int, b: nat, q: int) {
    if a >= 0 then q * b <= a < q * b + b else q * b - b < a <= q * b
  }

  /** The number that a stat has: a computed one by its name, any other one by the newest value in its history. */
  ghost predicate HasNumber(info: ResultInfo, histories: StatHistories, stat: string, x: real) {
    var spare := info.vitals.maxKbpsOut - info.vitals.kbpsOut;
    || (stat == "availableBandwidthInKbps" && x == spare as real)
    || (stat == "availableBandwidthInMbps" && x.Floor as real == x && DividesInto(spare, 1000, x.Floor))
    || ((stat == "bandwidth" || stat == "kbps") && x == info.vitals.kbpsOut as real)
    || (stat == "loadavg" && x == info.vitals.loadAvg)
    || (stat == "maxKbps" && x == info.vitals.maxKbpsOut as real)
    || (stat == "queryTime" && x.Floor as real == x && DividesInto(info.requestTime, 1000000, x.Floor))
    || (stat == "system.astatsLoad" && x == info.system.astatsLoad as real)
    || (stat == "system.configReloadRequests" && x == info.system.configLoadRequest as real)
    || (stat == "system.configReloads" && x == info.system.configReloads as real)
    || (stat == "system.inf.speed" && x == info.system.infSpeed as real)
    || (stat == "system.lastReload" && x == info.system.lastReload as real)
    || (stat == "system.lastReloadRequest" && x == info.system.lastReloadRequest as real)
    || (stat !in COMPUTED_STATS && histories.Some? && stat in histories.value && histories.value[stat] != []
        && IsNumber(histories.value[stat][0], x))
  }

  predicate IsNumber(v: Value, x: real) {
    (v.Float? && v.f == x) || (v.Integer? && v.i as real == x)
  }

  /** The number stands in the relation to the limit that the comparator names. */
  predicate Stands(x: real, comparator: Comparator, limit: real) {
    && (comparator == Equal ==> x == limit)
    && (comparator == Greater ==> x > limit)
    && (comparator == Less ==> x < limit)
    && (comparator == AtLeast ==> x >= limit)
    && (comparator == AtMost ==> x <= limit)
  }

  /** The names of the computed stats, numbers and others, are just those of the list. */
  lemma {:induction false} ComputedAre(r: Result, stat: string)
    ensures stat in NUMERIC_STATS || stat in OTHER_STATS <==> stat in COMPUTED_STATS
    ensures HasStat(r, stat) <==> stat in r.ats || stat in COMPUTED_STATS
  {
    var c := COMPUTED_STATS;
    assert NUMERIC_STATS == {c[0], c[1], c[2], c[6], c[7], c[8], c[9], c[12], c[13], c[14], c[16], c[17], c[18]};
    assert OTHER_STATS == {c[3], c[4], c[5], c[10], c[11], c[15], c[19], c[20], c[21]};
  }

  lemma {:induction false} QuotientDivides(a: int, b: nat, q: int)
    requires b > 0
    ensures DividesInto(a, b, q) <==> q == Quotient(a, b)
  {
    if a >= 0 {
      DividesUniquely(a, b, q, a / b);
    } else {
      DividesUniquely(-a, b, -q, -a / b);
    }
  }

  lemma {:induction false} DividesUniquely(a: nat, b: nat, q: int, d: nat)
    requires b > 0 && d == a / b
    ensures q * b <= a < q * b + b <==> q == d
  {
    assert d * b <= a < d * b + b;
    if q < d {
      assert (q + 1) * b <= d * b;
    } else if q > d {
      assert (d + 1) * b <= q * b;
    }
  }

  lemma {:induction false} WholeNumber(x: real, q: int)
    ensures x == q as real <==> x.Floor as real == x && x.Floor == q
  {
  }

  /** The stats of the vitals, and those of the system. */
  predicate OfVitals(stat: string) {
    stat in {"availableBandwidthInKbps", "availableBandwidthInMbps", "bandwidth", "kbps", "loadavg", "maxKbps", "queryTime"}
  }

  lemma {:induction false} VitalsNumber(info: ResultInfo, histories: StatHistories, stat: string, x: real)
    requires OfVitals(stat)
    ensures StatNumber(info, histories, stat) == Some(x) <==> HasNumber(info, histories, stat, x)
  {
    var spare := info.vitals.maxKbpsOut - info.vitals.kbpsOut;
    ComputedAre(Result(info, {}), stat);
    QuotientDivides(spare, 1000, x.Floor);
    QuotientDivides(info.requestTime, 1000000, x.Floor);
    WholeNumber(x, Quotient(spare, 1000));
    WholeNumber(x, Quotient(info.requestTime, 1000000));
  }

  lemma {:induction false} SystemNumber(info: ResultInfo, histories: StatHistories, stat: string, x: real)
    requires stat in NUMERIC_STATS && !OfVitals(stat)
    ensures StatNumber(info, histories, stat) == Some(x) <==> HasNumber(info, histories, stat, x)
  {
    ComputedAre(Result(info, {}), stat);
  }

  lemma {:induction false} TextHasNoNumber(info: ResultInfo, histories: StatHistories, stat: string, x: real)
    requires stat in OTHER_STATS
    ensures StatNumber(info, histories, stat) == None && !HasNumber(info, histories, stat, x)
  {
    ComputedAre(Result(info, {}), stat);
  }

  lemma {:induction false} NumberIs(info: ResultInfo, histories: StatHistories, stat: string, x: real)
    ensures StatNumber(info, histories, stat) == Some(x) <==> HasNumber(info, histories, stat, x)
  {
    ComputedAre(Result(info, {}), stat);
    if OfVitals(stat) {
      VitalsNumber(info, histories, stat, x);
    } else if stat in NUMERIC_STATS {
      SystemNumber(info, histories, stat, x);
    } else if stat in OTHER_STATS {
      TextHasNoNumber(info, histories, stat, x);
    }
  }

  /** A threshold is violated iff its stat has a number that does not stand in the relation. */
  lemma {:induction false} ViolatesIff(info: ResultInfo, histories: StatHistories, thresholds: map<string, Threshold>, stat: string)
    requires stat in thresholds
    ensures Violates(info, histories, thresholds, stat)
      <==> exists x :: HasNumber(info, histories, stat, x) && !Stands(x, thresholds[stat].comparator, thresholds[stat].val)
  {
    forall x
      ensures StatNumber(info, histories, stat) == Some(x) <==> HasNumber(info, histories, stat, x)
    {
      NumberIs(info, histories, stat, x);
    }
    if Violates(info, histories, thresholds, stat) {
      var x := StatNumber(info, histories, stat).value;
      assert HasNumber(info, histories, stat, x) && !Stands(x, thresholds[stat].comparator, thresholds[stat].val);
    }
  }

  /** Every stat of the profile with a number stands in the relation that its comparator names. */
  ghost predicate AllStand(info: ResultInfo, histories: StatHistories, thresholds: map<string, Threshold>) {
    forall stat, x | stat in thresholds && HasNumber(info, histories, stat, x) ::
      Stands(x, thresholds[stat].comparator, thresholds[stat].val)
  }

  lemma {:induction false} NoneViolatedIff(info: ResultInfo, histories: StatHistories, thresholds: map<string, Threshold>)
    ensures (forall stat :: !Violates(info, histories, thresholds, stat)) <==> AllStand(info, histories, thresholds)
  {
    forall stat | stat in thresholds
      ensures Violates(info, histories, thresholds, stat)
        <==> exists x :: HasNumber(info, histories, stat, x) && !Stands(x, thresholds[stat].comparator, thresholds[stat].val)
    {
      ViolatesIff(info, histories, thresholds, stat);
    }
    if AllStand(info, histories, thresholds) {
      forall stat
        ensures !Violates(info, histories, thresholds, stat)
      {
      }
    } else {
      var stat, x :| stat in thresholds && HasNumber(info, histories, stat, x) && !Stands(x, thresholds[stat].comparator, thresholds[stat].val);
      assert Violates(info, histories, thresholds, stat);
    }
  }

  /** The server that the result is of, if it and its profile are configured. */
  ghost predicate Known(mc: Config, info: ResultInfo) {
    info.id in mc.servers && mc.servers[info.id].profile in mc.profiles
  }

  /** A good result of a reported server: no error, available, and within all thresholds of its profile. */
  ghost predicate IsGood(mc: Config, info: ResultInfo, histories: StatHistories)
    requires Known(mc, info)
  {
    && !info.error && !info.system.notAvailable && info.available
    && AllStand(info, histories, mc.profiles[mc.servers[info.id].profile])
  }

  /** The whole decision: a server that is ONLINE is available, one that is REPORTED iff its result is good, and no
      other one. A stat is named only if it is its number that does not stand in the relation. */
  lemma {:induction false} VerdictIs(mc: Config, info: ResultInfo, histories: StatHistories, v: Verdict)
    requires Justified(mc, info, histories, v)
    ensures v.available <==>
      && Known(mc, info)
      && (mc.servers[info.id].status == Online || (mc.servers[info.id].status == Reported && IsGood(mc, info, histories)))
    ensures v.stat != "" ==>
      && !v.available && Known(mc, info) && mc.servers[info.id].status == Reported && !info.error && !info.system.notAvailable
      && var thresholds := mc.profiles[mc.servers[info.id].profile];
         && v.stat in thresholds
         && exists x :: HasNumber(info, histories, v.stat, x) && !Stands(x, thresholds[v.stat].comparator, thresholds[v.stat].val)
  {
    if Known(mc, info) {
      NoneViolatedIff(info, histories, Applicable(mc, info));
    }
    if v.stat != "" {
      ViolatesIff(info, histories, Applicable(mc, info), v.stat);
    }
  }

  /** And one is named whenever it is a stat that takes the cache down. */
  lemma {:induction false} StatIsNamed(mc: Config, info: ResultInfo, histories: StatHistories, v: Verdict)
    requires Justified(mc, info, histories, v) && Known(mc, info) && mc.servers[info.id].status == Reported
    requires !info.error && !info.system.notAvailable && "" !in mc.profiles[mc.servers[info.id].profile]
    ensures v.stat == "" <==> AllStand(info, histories, mc.profiles[mc.servers[info.id].profile])
  {
    NoneViolatedIff(info, histories, Applicable(mc, info));
  }

  /** A load above its limit takes a cache down, and no load within it does. */
  lemma {:induction false} LoadIsLimited(mc: Config, info: ResultInfo, histories: StatHistories, v: Verdict, limit: real)
    requires Justified(mc, info, histories, v) && Known(mc, info) && mc.servers[info.id].status == Reported
    requires !info.error && !info.system.notAvailable && info.available
    requires mc.profiles[mc.servers[info.id].profile] == map["loadavg" := Threshold(limit, Less)]
    ensures v == if info.vitals.loadAvg < limit then Verdict(true, "") else Verdict(false, "loadavg")
  {
    VerdictIs(mc, info, histories, v);
    StatIsNamed(mc, info, histories, v);
    assert HasNumber(info, histories, "loadavg", info.vitals.loadAvg);
  }
}
