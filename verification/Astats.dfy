/** Precomputing delivery service stats from the raw stats of one cache
    (`traffic_monitor/cache/stats_type_astats.go`). */
module Astats {
  import opened Core
  import opened Totals
  import opened DsStats

  type Regexes = (string, string, string) -> Option<DeliveryServiceName>

  /** The parts of a stat name between its dots. */
  function Split(s: string): (parts: seq<string>)
    ensures |parts| >= 1
  {
    if s == "" then [""]
    else
      var rest := Split(s[1..]);
      if s[0] == '.' then [""] + rest else [[s[0]] + rest[0]] + rest[1..]
  }

  function Join(parts: seq<string>): string {
    if parts == [] then ""
    else if |parts| == 1 then parts[0]
    else parts[0] + "." + Join(parts[1..])
  }

  lemma {:induction false} JoinSplit(s: string)
    ensures Join(Split(s)) == s
  {
    if s != "" {
      JoinSplit(s[1..]);
      var rest := Split(s[1..]);
      if s[0] == '.' {
        assert ([""] + rest)[1..] == rest;
      } else if |rest| > 1 {
        assert ([[s[0]] + rest[0]] + rest[1..])[1..] == rest[1..];
        assert [s[0]] + rest[0] + "." + Join(rest[1..]) == [s[0]] + (rest[0] + "." + Join(rest[1..]));
      }
    }
  }

  datatype Target = Target(ds: DeliveryServiceName, name: string)

  /** The delivery service and stat a raw stat name stands for; none for a name that is not of the
      form `plugin.remap_stats.<fqdn>.<stat>`, or matches no delivery service. */
  function TargetOf(regexes: Regexes, stat: string): Option<Target> {
    var parts := Split(stat);
    if parts[0] != "plugin" || |parts| < 2 || parts[1] != "remap_stats" then None
    else
      var statParts := parts[2..];
      if |statParts| < 3 then None
      else
        var domain := Join(statParts[2..|statParts| - 1]);
        match regexes(domain, statParts[1], statParts[0])
        case None => None
        case Some(ds) => if ds == "" then None else Some(Target(ds, statParts[|statParts| - 1]))
  }

  predicate NoDot(s: string) {
    forall i | 0 <= i < |s| :: s[i] != '.'
  }

  lemma {:induction false} SplitPart(a: string, rest: string)
    requires NoDot(a)
    ensures Split(a + "." + rest) == [a] + Split(rest)
  {
    if a == "" {
      assert a + "." + rest == "." + rest && ("." + rest)[1..] == rest;
    } else {
      var s := a + "." + rest;
      assert s[1..] == a[1..] + "." + rest && s[0] == a[0];
      SplitPart(a[1..], rest);
      assert [a[0]] + a[1..] == a;
      assert Split(s) == [[a[0]] + a[1..]] + Split(rest);
    }
  }

  lemma {:induction false} SplitOne(a: string)
    requires NoDot(a)
    ensures Split(a) == [a]
  {
    if a != "" {
      SplitOne(a[1..]);
      assert [a[0]] + a[1..] == a;
    }
  }

  lemma {:induction false} SplitLast(s: string, name: string)
    requires NoDot(name)
    ensures Split(s + "." + name) == Split(s) + [name]
  {
    if s == "" {
      assert s + "." + name == "" + "." + name;
      SplitPart("", name);
      SplitOne(name);
    } else {
      var t := s + "." + name;
      assert t[1..] == s[1..] + "." + name && t[0] == s[0];
      SplitLast(s[1..], name);
      var rest := Split(s[1..]);
      assert (rest + [name])[0] == rest[0] && (rest + [name])[1..] == rest[1..] + [name];
      assert Split(t) == Split(s) + [name];
    }
  }

  /** The name of a raw stat of a server name `subsub.sub.domain`, whose domain may hold any dots. */
  function StatName(subsub: string, sub: string, domain: string, name: string): string {
    "plugin" + "." + ("remap_stats" + "." + (subsub + "." + (sub + "." + (domain + "." + name))))
  }

  lemma {:induction false} SplitStatName(subsub: string, sub: string, domain: string, name: string)
    requires NoDot(subsub) && NoDot(sub) && NoDot(name)
    ensures Split(StatName(subsub, sub, domain, name))
      == ["plugin"] + (["remap_stats"] + ([subsub] + ([sub] + (Split(domain) + [name]))))
  {
    SplitLast(domain, name);
    SplitPart(sub, domain + "." + name);
    SplitPart(subsub, sub + "." + (domain + "." + name));
    SplitPart("remap_stats", subsub + "." + (sub + "." + (domain + "." + name)));
    SplitPart("plugin", "remap_stats" + "." + (subsub + "." + (sub + "." + (domain + "." + name))));
  }

  /** Taking such a name apart gives back what it was put together from. */
  lemma {:induction false} TargetOfStatName(regexes: Regexes, subsub: string, sub: string, domain: string, name: string)
    requires NoDot(subsub) && NoDot(sub) && NoDot(name)
    ensures TargetOf(regexes, StatName(subsub, sub, domain, name)) ==
      match regexes(domain, sub, subsub)
      case None => None
      case Some(ds) => if ds == "" then None else Some(Target(ds, name))
  {
    SplitStatName(subsub, sub, domain, name);
    var parts := Split(StatName(subsub, sub, domain, name));
    var statParts := parts[2..];
    assert statParts == [subsub] + ([sub] + (Split(domain) + [name]));
    assert statParts[2..|statParts| - 1] == Split(domain) && statParts[|statParts| - 1] == name;
    JoinSplit(domain);
  }

  /** Conversion of a float to an integer drops the fraction. */
  function Truncate(r: real): int {
    if r >= 0.0 then r.Floor else -((-r).Floor)
  }

  /** What a value of a stat adds to the counters; none if the name or the type of the value is wrong. */
  function AddCacheStat(st: CacheStats, name: string, v: Value): Option<CacheStats> {
    match (name, v)
    case ("status_2xx", Float(f)) => Some(st.(status2xx := st.status2xx + Truncate(f)))
    case ("status_3xx", Float(f)) => Some(st.(status3xx := st.status3xx + Truncate(f)))
    case ("status_4xx", Float(f)) => Some(st.(status4xx := st.status4xx + Truncate(f)))
    case ("status_5xx", Float(f)) => Some(st.(status5xx := st.status5xx + Truncate(f)))
    case ("out_bytes", Float(f)) => Some(st.(outBytes := st.outBytes + Truncate(f)))
    case ("is_available", Flag(b)) => Some(if b then st.(isAvailable := true) else st)
    case ("in_bytes", Float(f)) => Some(st.(inBytes := st.inBytes + f))
    case ("tps_2xx", Integer(i)) => Some(st.(tps2xx := st.tps2xx + i as real))
    case ("tps_3xx", Integer(i)) => Some(st.(tps3xx := st.tps3xx + i as real))
    case ("tps_4xx", Integer(i)) => Some(st.(tps4xx := st.tps4xx + i as real))
    case ("tps_5xx", Integer(i)) => Some(st.(tps5xx := st.tps5xx + i as real))
    case ("error_string", Text(_)) => Some(st)
    case ("tps_total", Float(f)) => Some(st.(tpsTotal := st.tpsTotal + f))
    case _ => None
  }

  /** The counters a single value stands for. */
  function Contribution(name: string, v: Value): Option<CacheStats> {
    AddCacheStat(ZERO, name, v)
  }

  /** Adding a value is adding its contribution: nothing is overwritten, no counter is crossed. */
  lemma {:induction false} AddCacheStatIsSum(st: CacheStats, name: string, v: Value)
    ensures AddCacheStat(st, name, v).Some? <==> Contribution(name, v).Some?
    ensures Contribution(name, v).Some? ==> AddCacheStat(st, name, v) == Some(Sum(st, Contribution(name, v).value))
  {
  }

  type RawStats = map<string, Value>

  /** The raw stats that count for a delivery service, and what each contributes. */
  ghost function Counted(regexes: Regexes, raw: RawStats, d: DeliveryServiceName): map<string, CacheStats> {
    map s | s in raw
         && TargetOf(regexes, s).Some? && TargetOf(regexes, s).value.ds == d
         && Contribution(TargetOf(regexes, s).value.name, raw[s]).Some? ::
      Contribution(TargetOf(regexes, s).value.name, raw[s]).value
  }

  /** What precomputing makes of a total: one entry in every breakdown. */
  function Single(server: CacheName, group: CacheGroupName, kind: CacheType, total: CacheStats): StatValue {
    StatValue(total, map[group := total], map[kind := total], map[server := total])
  }

  ghost predicate PrecomputedFor(stats: StatValues, regexes: Regexes, raw: RawStats,
                                 server: CacheName, group: CacheGroupName, kind: CacheType, d: DeliveryServiceName)
  {
    && (d in stats <==> Counted(regexes, raw, d) != map[])
    && (d in stats ==> stats[d] == Single(server, group, kind, SumOf(Counted(regexes, raw, d))))
  }

  ghost predicate PrecomputedFrom(stats: StatValues, regexes: Regexes, raw: RawStats,
                                  server: CacheName, group: CacheGroupName, kind: CacheType)
  {
    forall d :: PrecomputedFor(stats, regexes, raw, server, group, kind, d)
  }

  /** The contribution of a raw stat and its delivery service, if it has any. */
  function ContributionOf(regexes: Regexes, stat: string, v: Value): Option<(DeliveryServiceName, CacheStats)> {
    match TargetOf(regexes, stat)
    case None => None
    case Some(target) =>
      match Contribution(target.name, v)
      case None => None
      case Some(more) => Some((target.ds, more))
  }

  /** The stats with a contribution added. */
  function Contribute(stats: StatValues, c: Option<(DeliveryServiceName, CacheStats)>,
                      server: CacheName, group: CacheGroupName, kind: CacheType): StatValues
  {
    match c
    case None => stats
    case Some((ds, more)) =>
      var st := if ds in stats then stats[ds] else EMPTY;
      var total := Sum(st.total, more);
      stats[ds := StatValue(total, st.groups[group := total], st.types[kind := total], st.caches[server := total])]
  }

  /** One raw stat. An error leaves the stats as they were. */
  method ProcessStat(server: CacheName, stats: StatValues, regexes: Regexes, group: Option<CacheGroupName>,
                     kind: Option<CacheType>, stat: string, v: Value)
      returns (stats': StatValues)
    ensures group.None? || kind.None? ==> stats' == stats
    ensures group.Some? && kind.Some? ==>
      stats' == Contribute(stats, ContributionOf(regexes, stat, v), server, group.value, kind.value)
  {
    stats' := stats;
    var target := TargetOf(regexes, stat);
    if target.None? {
      return;
    }
    var ds := target.value.ds;
    var dsStat := if ds in stats then stats[ds] else EMPTY;
    AddCacheStatIsSum(dsStat.total, target.value.name, v);
    var total := AddCacheStat(dsStat.total, target.value.name, v);
    if total.None? {
      return;
    }
    dsStat := dsStat.(total := total.value);
    if group.None? {
      return;
    }
    dsStat := dsStat.(groups := dsStat.groups[group.value := dsStat.total]);
    if kind.None? {
      return;
    }
    dsStat := dsStat.(types := dsStat.types[kind.value := dsStat.total]);
    dsStat := dsStat.(caches := dsStat.caches[server := dsStat.total]);
    stats' := stats[ds := dsStat];
  }

  lemma {:induction false} CountedStep(regexes: Regexes, before: RawStats, stat: string, v: Value, d: DeliveryServiceName)
    requires stat !in before
    ensures var c := ContributionOf(regexes, stat, v);
      Counted(regexes, before[stat := v], d)
        == if c.Some? && c.value.0 == d then Counted(regexes, before, d)[stat := c.value.1]
           else Counted(regexes, before, d)
  {
  }

  lemma {:induction false} ContributeSingle(stats: StatValues, d: DeliveryServiceName, more: CacheStats,
                                            server: CacheName, group: CacheGroupName, kind: CacheType,
                                            total: CacheStats)
    requires if d in stats then stats[d] == Single(server, group, kind, total) else total == ZERO
    ensures Contribute(stats, Some((d, more)), server, group, kind)
         == stats[d := Single(server, group, kind, Sum(total, more))]
  {
    var sum := Sum(total, more);
    assert map[group := total][group := sum] == map[group := sum] == map[][group := sum];
    assert map[kind := total][kind := sum] == map[kind := sum] == map[][kind := sum];
    assert map[server := total][server := sum] == map[server := sum] == map[][server := sum];
  }

  /** The sum of the contributions with one more. */
  lemma {:induction false} SumOfCounted(counted: map<string, CacheStats>, stat: string, more: CacheStats)
    requires stat !in counted
    ensures SumOf(counted[stat := more]) == Sum(SumOf(counted), more)
    ensures counted == map[] ==> SumOf(counted) == ZERO
  {
    SumOfAdd(counted, stat, more);
    assert Sum(ZERO, more) == more;
  }

  /** One more raw stat, in the terms of the sums. */
  lemma {:induction false} PrecomputeStep(stats: StatValues, regexes: Regexes, before: RawStats, server: CacheName,
                                          group: CacheGroupName, kind: CacheType, stat: string, v: Value,
                                          d: DeliveryServiceName)
    requires stat !in before && PrecomputedFor(stats, regexes, before, server, group, kind, d)
    ensures PrecomputedFor(Contribute(stats, ContributionOf(regexes, stat, v), server, group, kind),
                           regexes, before[stat := v], server, group, kind, d)
  {
    CountedStep(regexes, before, stat, v, d);
    var c := ContributionOf(regexes, stat, v);
    if c.Some? && c.value.0 == d {
      var counted := Counted(regexes, before, d);
      SumOfCounted(counted, stat, c.value.1);
      ContributeSingle(stats, d, c.value.1, server, group, kind, SumOf(counted));
      assert stat in counted[stat := c.value.1];
    }
  }

  /** Every raw stat, in any order. For each delivery service the total is the sum of the
      contributions of exactly the raw stats that match it, and each breakdown is that total under
      the name of the server. A server that is not known has no stats at all. */
  method Precompute(server: CacheName, regexes: Regexes, group: Option<CacheGroupName>, kind: Option<CacheType>, raw: RawStats)
      returns (stats: StatValues)
    ensures group.None? || kind.None? ==> stats == map[]
    ensures group.Some? && kind.Some? ==> PrecomputedFrom(stats, regexes, raw, server, group.value, kind.value)
  {
    stats := map[];
    var todo := raw.Keys;
    ghost var processed: RawStats := map[];
    while todo != {}
      invariant todo <= raw.Keys
      invariant processed == map s | s in raw && s !in todo :: raw[s]
      invariant group.None? || kind.None? ==> stats == map[]
      invariant group.Some? && kind.Some? ==> PrecomputedFrom(stats, regexes, processed, server, group.value, kind.value)
      decreases todo
    {
      var stat :| stat in todo;
      todo := todo - {stat};
      ghost var before, statsBefore := processed, stats;
      stats := ProcessStat(server, stats, regexes, group, kind, stat, raw[stat]);
      processed := before[stat := raw[stat]];
      if group.Some? && kind.Some? {
        forall d
          ensures PrecomputedFor(stats, regexes, processed, server, group.value, kind.value, d)
        {
          PrecomputeStep(statsBefore, regexes, before, server, group.value, kind.value, stat, raw[stat], d);
        }
      }
    }
    assert processed == raw;
  }

  /** What precomputing makes is what conservation asks of its inputs. */
  lemma {:induction false} PrecomputedIsBalanced(stats: StatValues, regexes: Regexes, raw: RawStats, server: CacheName,
                                                 group: CacheGroupName, kind: CacheType, d: DeliveryServiceName)
    requires PrecomputedFrom(stats, regexes, raw, server, group, kind) && d in stats
    ensures Balanced(Visit(server, d, group, kind, stats[d]))
  {
    assert PrecomputedFor(stats, regexes, raw, server, group, kind, d);
  }
}
