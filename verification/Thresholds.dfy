/** Whether one poll result makes a cache available (`traffic_monitor/health/cache.go`,
    `traffic_monitor/cache/cache.go`). */
module Thresholds {
  import opened Core

  datatype CacheStatus = AdminDown | Online | Offline | Reported | Invalid

  datatype Comparator = Equal | Greater | Less | AtLeast | AtMost | Unknown

  datatype Threshold = Threshold(val: real, comparator: Comparator)

  datatype Server = Server(status: CacheStatus, profile: string)

  datatype Config = Config(servers: map<CacheName, Server>, profiles: map<string, map<string, Threshold>>)

  datatype Vitals = Vitals(loadAvg: real, kbpsOut: int, maxKbpsOut: int)

  datatype System = System(infSpeed: int, astatsLoad: int, configLoadRequest: int, configReloads: int,
                           lastReload: int, lastReloadRequest: int, notAvailable: bool)

  datatype ResultInfo = ResultInfo(id: CacheName, error: bool, available: bool, requestTime: nat, vitals: Vitals, system: System)

  /** A result, with the names of the stats it holds. */
  datatype Result = Result(info: ResultInfo, ats: set<string>)

  /** The history of the stats of a cache, newest value first; pollers without stats have none. */
  type StatHistories = Option<map<string, seq<Value>>>

  /** An unknown comparator never takes a cache down. */
  predicate InThreshold(t: Threshold, val: real) {
    match t.comparator
    case Equal => val == t.val
    case Greater => val > t.val
    case Less => val < t.val
    case AtLeast => val >= t.val
    case AtMost => val <= t.val
    case Unknown => true
  }

  /** Division that drops the remainder. */
  function Quotient(a: int, b: nat): int
    requires b > 0
  {
    if a >= 0 then a / b else -(-a / b)
  }

  /** The stats computed by the monitor rather than returned by the cache. */
  const NUMERIC_STATS := {
    "availableBandwidthInKbps", "availableBandwidthInMbps", "bandwidth", "kbps", "loadavg", "maxKbps", "queryTime",
    "system.astatsLoad", "system.configReloadRequests", "system.configReloads", "system.inf.speed",
    "system.lastReload", "system.lastReloadRequest"}

  /** Texts and flags, which no threshold can be compared with. */
  const OTHER_STATS := {
    "error-string", "isAvailable", "isHealthy", "stateUrl", "status", "system.inf.name", "system.notAvailable",
    "system.proc.loadavg", "system.proc.net.dev"}

  function ComputedStat(info: ResultInfo, stat: string): real
    requires stat in NUMERIC_STATS
  {
    var spare := info.vitals.maxKbpsOut - info.vitals.kbpsOut;
    if stat == "availableBandwidthInKbps" then spare as real
    else if stat == "availableBandwidthInMbps" then Quotient(spare, 1000) as real
    else if stat == "bandwidth" || stat == "kbps" then info.vitals.kbpsOut as real
    else if stat == "loadavg" then info.vitals.loadAvg
    else if stat == "maxKbps" then info.vitals.maxKbpsOut as real
    else if stat == "queryTime" then Quotient(info.requestTime, 1000000) as real
    else if stat == "system.astatsLoad" then info.system.astatsLoad as real
    else if stat == "system.configReloadRequests" then info.system.configLoadRequest as real
    else if stat == "system.configReloads" then info.system.configReloads as real
    else if stat == "system.inf.speed" then info.system.infSpeed as real
    else if stat == "system.lastReload" then info.system.lastReload as real
    else info.system.lastReloadRequest as real
  }

  predicate HasStat(r: Result, stat: string) {
    stat in NUMERIC_STATS || stat in OTHER_STATS || stat in r.ats
  }

  /** The number a threshold of the given stat is compared with, if there is one. */
  function StatNumber(info: ResultInfo, histories: StatHistories, stat: string): Option<real> {
    if stat in NUMERIC_STATS then Some(ComputedStat(info, stat))
    else if stat in OTHER_STATS then None
    else if histories.None? || stat !in histories.value || histories.value[stat] == [] then None
    else ToNumeric(histories.value[stat][0])
  }

  predicate Violates(info: ResultInfo, histories: StatHistories, thresholds: map<string, Threshold>, stat: string) {
    stat in thresholds
    && match StatNumber(info, histories, stat)
       case Some(x) => !InThreshold(thresholds[stat], x)
       case None => false
  }

  /** The thresholds that apply to a result: those of a reported cache whose poll was not an error. */
  ghost function Applicable(mc: Config, info: ResultInfo): map<string, Threshold> {
    if info.id !in mc.servers then map[]
    else
      var server := mc.servers[info.id];
      if server.profile !in mc.profiles || server.status != Reported || info.error || info.system.notAvailable then map[]
      else mc.profiles[server.profile]
  }

  ghost predicate AnyViolated(mc: Config, info: ResultInfo, histories: StatHistories) {
    exists stat :: Violates(info, histories, Applicable(mc, info), stat)
  }

  /** Whether the result makes the cache available: it says nothing about order. */
  ghost predicate Available(mc: Config, info: ResultInfo, histories: StatHistories) {
    && info.id in mc.servers && mc.servers[info.id].profile in mc.profiles
    && match mc.servers[info.id].status
       case Online => true
       case Reported => !info.error && !info.system.notAvailable && info.available && !AnyViolated(mc, info, histories)
       case _ => false
  }

  datatype Verdict = Verdict(available: bool, stat: string)

  /** A verdict that `EvalCache` may give: which violated stat it names depends on the order of the
      thresholds, but nothing else does. */
  ghost predicate Justified(mc: Config, info: ResultInfo, histories: StatHistories, v: Verdict) {
    && v.available == Available(mc, info, histories)
    && (v.stat != "" ==> !v.available && Violates(info, histories, Applicable(mc, info), v.stat))
    && (AnyViolated(mc, info, histories) ==> Violates(info, histories, Applicable(mc, info), v.stat))
  }

  method EvalCache(mc: Config, info: ResultInfo, histories: StatHistories) returns (v: Verdict)
    ensures Justified(mc, info, histories, v)
  {
    if info.id !in mc.servers {
      return Verdict(false, "");
    }
    var server := mc.servers[info.id];
    if server.profile !in mc.profiles {
      return Verdict(false, "");
    }
    match server.status
    case Invalid => return Verdict(false, "");
    case AdminDown => return Verdict(false, "");
    case Offline => return Verdict(false, "");
    case Online => return Verdict(true, "");
    case Reported =>
    if info.error || info.system.notAvailable {
      return Verdict(false, "");
    }
    var thresholds := mc.profiles[server.profile];
    var todo := thresholds.Keys;
    while todo != {}
      invariant todo <= thresholds.Keys
      invariant forall stat | stat in thresholds && stat !in todo :: !Violates(info, histories, thresholds, stat)
      decreases todo
    {
      var stat :| stat in todo;
      todo := todo - {stat};
      var number := StatNumber(info, histories, stat);
      if number.None? {
        continue;
      }
      if !InThreshold(thresholds[stat], number.value) {
        assert Violates(info, histories, Applicable(mc, info), stat);
        return Verdict(false, stat);
      }
    }
    v := Verdict(info.available, "");
  }
}
