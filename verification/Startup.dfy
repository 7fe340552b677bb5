/** Which caches serving waits for after a configuration (`traffic_monitor/manager/stat.go`). */
module Startup {
  import opened Core
  import opened Thresholds
  import opened CacheSet
  import Gate

  /** A cache is not waited for when its status is the very text ONLINE or OFFLINE. Elsewhere the text is parsed,
      in any case. */
  predicate WaitedFor(srv: CacheServer) {
    srv.rawStatus != "ONLINE" && srv.rawStatus != "OFFLINE"
  }

  method GetNewCaches(local: map<CacheName, bool>, config: Servers) returns (caches: set<CacheName>)
    ensures caches == set c | c in local && c in config && WaitedFor(config[c])
  {
    caches := {};
    var todo := local.Keys;
    while todo != {}
      invariant todo <= local.Keys
      invariant caches == set c | c in local && c !in todo && c in config && WaitedFor(config[c])
      decreases todo
    {
      var c :| c in todo;
      todo := todo - {c};
      if c !in config || config[c].rawStatus == "ONLINE" || config[c].rawStatus == "OFFLINE" {
        continue;
      }
      caches := caches + {c};
    }
  }

  lemma {:induction false} PolledAreWaitedFor(srv: CacheServer)
    requires srv.rawStatus == "ONLINE" || srv.rawStatus == "OFFLINE"
    ensures srv.rawStatus == "ONLINE" ==> srv.Status() == Online
    ensures srv.rawStatus == "OFFLINE" ==> srv.Status() == Offline
  {
    var lower := ToLower(srv.rawStatus);
    assert srv.rawStatus == "ONLINE" ==> lower == "online";
    assert srv.rawStatus == "OFFLINE" ==> lower == "offline";
  }

  /** A cache that is waited for although it is not polled: it is in the local states, as it was there before or is
      not OFFLINE in any spelling; its status is not the text ONLINE or OFFLINE; but it is one of these in
      another spelling, or there is no URL. */
  predicate WaitedInVain(before: map<CacheName, bool>, config: Servers, c: CacheName)
    requires c in config
  {
    && (c in before || config[c].Status() != Offline)
    && WaitedFor(config[c])
    && (config[c].Status() == Online || config[c].Status() == Offline || config[c].url == "")
  }

  /** After a configuration, serving waits for exactly the caches that are polled iff none is waited for in vain. */
  lemma {:induction false} WaitsForPolledCachesIff(before: map<CacheName, bool>, after: map<CacheName, bool>,
                                                   config: Servers, waited: set<CacheName>)
    requires forall c :: Entry(after, c) == if c in config then Seeded(before, c, config[c]) else None
    requires waited == set c | c in after && c in config && WaitedFor(config[c])
    ensures waited == (set c | c in config && Polled(config[c])) <==> forall c | c in config :: !WaitedInVain(before, config, c)
  {
    var polled := set c | c in config && Polled(config[c]);
    forall c
      ensures c in polled ==> c in waited
      ensures c in waited && c !in polled <==> c in config && WaitedInVain(before, config, c)
    {
      assert Entry(after, c) == if c in config then Seeded(before, c, config[c]) else None;
      if c in config && !WaitedFor(config[c]) {
        PolledAreWaitedFor(config[c]);
      }
    }
  }

  lemma {:induction false} LowerIs(s: string, lower: string)
    requires |s| == |lower| && forall i | 0 <= i < |s| :: LowerRune(s[i]) == lower[i]
    ensures ToLower(s) == lower
  {
  }

  /** Another spelling of ONLINE is such a status, whatever the URL. */
  lemma {:induction false} SpellingMatters(before: map<CacheName, bool>, config: Servers, c: CacheName)
    requires c in config && config[c].rawStatus == "Online"
    ensures WaitedInVain(before, config, c)
  {
    LowerIs(config[c].rawStatus, "online");
  }

  /** A call without a result of the cache, or with a configuration that has it. */
  ghost predicate IsSilent(call: Gate.Call, c: CacheName) {
    match call
    case NewCaches(caches) => c in caches
    case Polled(p) => c !in p.last && forall n | 0 <= n < |p.results| :: p.results[n].id != c
  }

  /** A cache that is configured but never polled, as it has no polling URL, keeps the gate closed for good. */
  lemma {:induction false} GateStaysClosed(run: seq<Gate.State>, calls: seq<Gate.Call>, c: CacheName, i: nat, j: nat)
    requires Gate.IsRun(run, calls) && i <= j < |run|
    requires c in run[i].unpolled && forall k | i <= k < |calls| :: IsSilent(calls[k], c)
    ensures c in run[j].unpolled
  {
    forall k: nat | i <= k < j
      ensures !Gate.LeftFor(run[k], calls[k], c)
    {
      assert IsSilent(calls[k], c);
    }
    Gate.LeavesOnlyForAReason(run, calls, c, i, j);
  }
}
