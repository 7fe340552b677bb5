/** The availability of the caches over batches of poll results (`traffic_monitor/health/cache.go`). */
module Availability {
  import opened Core
  import opened CRStates
  import opened Events
  import opened Thresholds
  import opened DisabledLocations

  /** `stat` is the stat whose threshold made the cache unavailable, or empty. */
  datatype AvailableStatus = AvailableStatus(available: bool, stat: string, poller: string)

  type Statuses = map<CacheName, AvailableStatus>

  /** The statuses of all caches, as committed by the last batch. */
  class StatusStore {
    var statuses: Statuses

    constructor ()
      ensures statuses == map[]
    {
      statuses := map[];
    }
  }

  /** An available result of a cache that some threshold took down does not count if it lacks the stat
      of that threshold. */
  predicate Blocked(statuses: Statuses, r: Result, v: Verdict) {
    && v.available
    && r.info.id in statuses
    && !statuses[r.info.id].available && statuses[r.info.id].stat != ""
    && !HasStat(r, statuses[r.info.id].stat)
  }

  function SetStatus(statuses: Statuses, r: Result, v: Verdict, poller: string): Statuses {
    statuses[r.info.id := AvailableStatus(v.available, v.stat, poller)]
  }

  function SetLocal(caches: map<CacheName, bool>, r: Result, v: Verdict): map<CacheName, bool> {
    if r.info.id in caches then caches[r.info.id := v.available] else caches
  }

  /** An event is added when the local state changes, or there is none. */
  function StatusEvents(caches: map<CacheName, bool>, r: Result, v: Verdict, poller: string, index: nat): seq<Event> {
    if r.info.id in caches && caches[r.info.id] == v.available then []
    else [Event(r.info.id, Status(poller), v.available, index)]
  }

  // ---------- Batches ----------

  /** A result with its verdict. */
  datatype Judged = Judged(r: Result, v: Verdict)

  ghost function StatusesAfter(statuses: Statuses, done: seq<Judged>, poller: string): Statuses {
    if done == [] then statuses
    else
      var last := done[|done| - 1];
      SetStatus(StatusesAfter(statuses, done[..|done| - 1], poller), last.r, last.v, poller)
  }

  ghost function LocalAfter(caches: map<CacheName, bool>, done: seq<Judged>): map<CacheName, bool> {
    if done == [] then caches
    else SetLocal(LocalAfter(caches, done[..|done| - 1]), done[|done| - 1].r, done[|done| - 1].v)
  }

  ghost function EventsAfter(all: seq<Event>, caches: map<CacheName, bool>, done: seq<Judged>, poller: string): seq<Event> {
    if done == [] then all
    else
      var before, last := done[..|done| - 1], done[|done| - 1];
      var events := EventsAfter(all, caches, before, poller);
      events + StatusEvents(LocalAfter(caches, before), last.r, last.v, poller, |events|)
  }

  ghost predicate Unblocked(statuses: Statuses, done: seq<Judged>, poller: string) {
    done == [] ||
    var before, last := done[..|done| - 1], done[|done| - 1];
    Unblocked(statuses, before, poller) && !Blocked(StatusesAfter(statuses, before, poller), last.r, last.v)
  }

  type AllHistories = Option<map<CacheName, map<string, seq<Value>>>>

  ghost function HistoriesOf(histories: AllHistories, c: CacheName): StatHistories {
    if histories.Some? && c in histories.value then Some(histories.value[c]) else None
  }

  ghost predicate Judges(mc: Config, histories: AllHistories, j: Judged) {
    Justified(mc, j.r.info, HistoriesOf(histories, j.r.info.id), j.v)
  }

  /** `done` are the first results, each judged, and none of them blocked. */
  ghost predicate Applied(statuses: Statuses, results: seq<Result>, done: seq<Judged>, poller: string,
                          mc: Config, histories: AllHistories)
  {
    && |done| <= |results| && Unblocked(statuses, done, poller)
    && forall i | 0 <= i < |done| :: done[i].r == results[i] && Judges(mc, histories, done[i])
  }

  /** The next result is blocked. */
  ghost predicate Stops(statuses: Statuses, results: seq<Result>, done: seq<Judged>, poller: string,
                        mc: Config, histories: AllHistories, v: Verdict)
    requires |done| < |results|
  {
    var r := results[|done|];
    Judges(mc, histories, Judged(r, v)) && Blocked(StatusesAfter(statuses, done, poller), r, v)
  }

  /** `done` are the results that were applied: all of them, or those before the first blocked one. */
  ghost predicate Processed(statuses: Statuses, results: seq<Result>, done: seq<Judged>, poller: string,
                            mc: Config, histories: AllHistories)
  {
    && Applied(statuses, results, done, poller, mc, histories)
    && (|done| < |results| ==> exists v :: Stops(statuses, results, done, poller, mc, histories, v))
  }

  /** One more result applied. */
  lemma {:induction false} ApplyStep(statuses: Statuses, results: seq<Result>, done: seq<Judged>, poller: string,
                                     mc: Config, histories: AllHistories, v: Verdict, caches: map<CacheName, bool>,
                                     all: seq<Event>)
    requires Applied(statuses, results, done, poller, mc, histories) && |done| < |results|
    requires Judges(mc, histories, Judged(results[|done|], v))
    requires !Blocked(StatusesAfter(statuses, done, poller), results[|done|], v)
    ensures var r, done' := results[|done|], done + [Judged(results[|done|], v)];
      && Applied(statuses, results, done', poller, mc, histories)
      && StatusesAfter(statuses, done', poller) == SetStatus(StatusesAfter(statuses, done, poller), r, v, poller)
      && LocalAfter(caches, done') == SetLocal(LocalAfter(caches, done), r, v)
      && EventsAfter(all, caches, done', poller)
         == EventsAfter(all, caches, done, poller)
            + StatusEvents(LocalAfter(caches, done), r, v, poller, |EventsAfter(all, caches, done, poller)|)
  {
    var done' := done + [Judged(results[|done|], v)];
    assert done'[..|done'| - 1] == done;
  }

  /** The loop over the results. It ends early at a blocked one. The statuses are only returned, while
      the local states are written as it goes. */
  method ApplyResults(results: seq<Result>, poller: string, histories: AllHistories, mc: Config,
                      statuses: Statuses, localStates: Threadsafe, events: ThreadsafeEvents)
      returns (statuses': Statuses, ok: bool, ghost done: seq<Judged>)
    requires events.Valid()
    modifies localStates`caches, events
    ensures events.Valid() && Processed(statuses, results, done, poller, mc, histories)
    ensures ok <==> |done| == |results|
    ensures statuses' == StatusesAfter(statuses, done, poller)
    ensures localStates.caches == LocalAfter(old(localStates.caches), done)
    ensures events.all == EventsAfter(old(events.all), old(localStates.caches), done, poller)
  {
    statuses', ok, done := statuses, true, [];
    ghost var caches, all := localStates.caches, events.all;
    for i := 0 to |results|
      invariant events.Valid() && |done| == i && Applied(statuses, results, done, poller, mc, histories)
      invariant statuses' == StatusesAfter(statuses, done, poller)
      invariant localStates.caches == LocalAfter(caches, done)
      invariant events.all == EventsAfter(all, caches, done, poller)
    {
      var r := results[i];
      var statHistories: StatHistories := None;
      if histories.Some? && r.info.id in histories.value {
        statHistories := Some(histories.value[r.info.id]);
      }
      var v := EvalCache(mc, r.info, statHistories);
      if Blocked(statuses', r, v) {
        assert Stops(statuses, results, done, poller, mc, histories, v);
        ok := false;
        return;
      }
      ApplyStep(statuses, results, done, poller, mc, histories, v, caches, all);
      statuses' := SetStatus(statuses', r, v, poller);
      ReportAndSet(r, v, poller, localStates, events);
      done := done + [Judged(r, v)];
    }
  }

  /** Logs a change of the local state of a cache, and makes it. */
  method ReportAndSet(r: Result, v: Verdict, poller: string, localStates: Threadsafe, events: ThreadsafeEvents)
    requires events.Valid()
    modifies localStates`caches, events
    ensures events.Valid()
    ensures localStates.caches == SetLocal(old(localStates.caches), r, v)
    ensures events.all == old(events.all) + StatusEvents(old(localStates.caches), r, v, poller, |old(events.all)|)
  {
    if r.info.id !in localStates.caches || localStates.caches[r.info.id] != v.available {
      var _ := events.Add(Event(r.info.id, Status(poller), v.available, 0));
    }
    localStates.SetCache(r.info.id, v.available);
  }

  /** A batch of one poller. If a result is blocked, none of the statuses of the batch are committed and
      the delivery services are left alone; but the local states set before it stay set. */
  method CalcAvailability(results: seq<Result>, poller: string, histories: AllHistories, mc: Config, toData: TOData,
                          store: StatusStore, localStates: Threadsafe, events: ThreadsafeEvents)
      returns (ghost done: seq<Judged>)
    requires events.Valid()
    modifies store, localStates, events
    ensures events.Valid() && Processed(old(store.statuses), results, done, poller, mc, histories)
    ensures store.statuses
      == if |done| == |results| then StatusesAfter(old(store.statuses), done, poller) else old(store.statuses)
    ensures localStates.caches == LocalAfter(old(localStates.caches), done)
    ensures events.all == EventsAfter(old(events.all), old(localStates.caches), done, poller)
    ensures localStates.deliveryServices.Keys == old(localStates.deliveryServices.Keys)
    ensures forall d | d in localStates.deliveryServices ::
      localStates.deliveryServices[d].isAvailable == old(localStates.deliveryServices[d].isAvailable)
    ensures |done| < |results| ==> localStates.deliveryServices == old(localStates.deliveryServices)
    ensures |done| == |results| ==> forall d | d in localStates.deliveryServices ::
      if d in toData.deliveryServiceServers
      then DisabledAre(localStates.deliveryServices[d], toData.deliveryServiceServers[d], localStates.caches, toData.serverCachegroups)
      else localStates.deliveryServices[d] == old(localStates.deliveryServices[d])
  {
    var statuses, ok;
    statuses, ok, done := ApplyResults(results, poller, histories, mc, store.statuses, localStates, events);
    if !ok {
      return;
    }
    CalculateDeliveryServiceState(toData, localStates);
    store.statuses := statuses;
  }

  datatype TOData = TOData(
    deliveryServiceServers: map<DeliveryServiceName, seq<CacheName>>,
    serverCachegroups: map<CacheName, CacheGroupName>)

  /** The disabled locations of a delivery service are those that have a server of it but no available
      one. */
  ghost predicate DisabledAre(ds: DSState, servers: seq<CacheName>, caches: map<CacheName, bool>,
                              cachegroups: map<CacheName, CacheGroupName>)
    reads ds.disabledLocations
  {
    forall g :: g in ds.disabledLocations[..] <==> Disabled(g, servers, caches, cachegroups)
  }

  method CalculateDeliveryServiceState(toData: TOData, states: Threadsafe)
    modifies states`deliveryServices
    ensures states.deliveryServices.Keys == old(states.deliveryServices.Keys)
    ensures forall d | d in states.deliveryServices ::
      states.deliveryServices[d].isAvailable == old(states.deliveryServices[d].isAvailable)
    ensures forall d | d in states.deliveryServices ::
      if d in toData.deliveryServiceServers
      then DisabledAre(states.deliveryServices[d], toData.deliveryServiceServers[d], states.caches, toData.serverCachegroups)
      else states.deliveryServices[d] == old(states.deliveryServices[d])
  {
    var todo := states.deliveryServices.Keys;
    ghost var before := states.deliveryServices;
    while todo != {}
      invariant todo <= states.deliveryServices.Keys == before.Keys
      invariant forall d | d in before :: states.deliveryServices[d].isAvailable == before[d].isAvailable
      invariant forall d | d in todo :: states.deliveryServices[d] == before[d]
      invariant forall d | d in before && d !in todo ::
        if d in toData.deliveryServiceServers
        then DisabledAre(states.deliveryServices[d], toData.deliveryServiceServers[d], states.caches, toData.serverCachegroups)
        else states.deliveryServices[d] == before[d]
      decreases todo
    {
      var d :| d in todo;
      todo := todo - {d};
      if d in toData.deliveryServiceServers {
        Recalculate(d, toData, states);
      }
    }
  }

  /** Gives one delivery service its disabled locations. */
  method Recalculate(d: DeliveryServiceName, toData: TOData, states: Threadsafe)
    requires d in states.deliveryServices && d in toData.deliveryServiceServers
    modifies states`deliveryServices
    ensures d in states.deliveryServices && states.deliveryServices == old(states.deliveryServices)[d := states.deliveryServices[d]]
    ensures states.deliveryServices[d].isAvailable == old(states.deliveryServices[d].isAvailable)
    ensures DisabledAre(states.deliveryServices[d], toData.deliveryServiceServers[d], states.caches, toData.serverCachegroups)
  {
    var disabled := GetDisabledLocations(toData.deliveryServiceServers[d], states.caches, toData.serverCachegroups);
    var slice := new CacheGroupName[|disabled|](i requires 0 <= i < |disabled| => disabled[i]);
    assert slice[..] == disabled;
    states.SetDeliveryService(d, states.deliveryServices[d].(disabledLocations := slice));
  }

  // ---------- Hysteresis ----------

  /** The stat that took a cache down, if one did. */
  function DownBy(statuses: Statuses, c: CacheName): Option<string> {
    if c in statuses && !statuses[c].available && statuses[c].stat != "" then Some(statuses[c].stat) else None
  }

  predicate Up(statuses: Statuses, c: CacheName) {
    c in statuses && statuses[c].available
  }

  /** Result `i` is the first one of the cache. */
  ghost predicate First(done: seq<Judged>, c: CacheName, i: nat) {
    && i < |done| && done[i].r.info.id == c
    && forall k | 0 <= k < i :: done[k].r.info.id != c
  }

  ghost predicate LaterUp(done: seq<Judged>, c: CacheName, i: nat) {
    exists j :: i < j < |done| && done[j].r.info.id == c && done[j].v.available
  }

  /** The first result of the cache has the stat if it is available; and if it is not, the cache is up at the
      end only if a later one is available. */
  ghost predicate ComesBackOn(after: Statuses, done: seq<Judged>, c: CacheName, stat: string, i: nat) {
    && First(done, c, i)
    && (done[i].v.available ==> HasStat(done[i].r, stat))
    && (Up(after, c) && !done[i].v.available ==> LaterUp(done, c, i))
  }

  ghost predicate ComesBack(after: Statuses, done: seq<Judged>, c: CacheName, stat: string) {
    exists i: nat :: ComesBackOn(after, done, c, stat, i)
  }

  ghost predicate Missing(done: seq<Judged>, c: CacheName) {
    forall k | 0 <= k < |done| :: done[k].r.info.id != c
  }

  /** A cache that a stat took down comes back in a batch only if its first result there is available
      and has the stat; or if that result is not available, and a later one is. */
  lemma {:induction false} Hysteresis(statuses: Statuses, done: seq<Judged>, poller: string, c: CacheName)
    requires Unblocked(statuses, done, poller)
    requires DownBy(statuses, c).Some?
    ensures var after := StatusesAfter(statuses, done, poller);
      if Missing(done, c) then c in after && after[c] == statuses[c]
      else ComesBack(after, done, c, statuses[c].stat)
  {
    if done != [] {
      var before, last := done[..|done| - 1], done[|done| - 1];
      Hysteresis(statuses, before, poller, c);
      var now := StatusesAfter(statuses, before, poller);
      var after := SetStatus(now, last.r, last.v, poller);
      assert after == StatusesAfter(statuses, done, poller) && done == before + [last];
      if Missing(before, c) {
        if last.r.info.id == c {
          assert !Blocked(now, last.r, last.v);
          assert done[|before|].r.info.id == c;
          assert ComesBackOn(StatusesAfter(statuses, done, poller), done, c, statuses[c].stat, |before|);
        } else {
          assert Missing(done, c) && after[c] == now[c];
        }
      } else {
        assert ComesBack(now, before, c, statuses[c].stat);
        var i: nat :| ComesBackOn(now, before, c, statuses[c].stat, i);
        OneMoreComesBack(now, after, before, last, c, statuses[c].stat, i, poller);
        assert ComesBackOn(StatusesAfter(statuses, done, poller), done, c, statuses[c].stat, i);
        assert done[i].r.info.id == c;
      }
    }
  }

  lemma {:induction false} OneMoreComesBack(now: Statuses, after: Statuses, before: seq<Judged>, last: Judged,
                                            c: CacheName, stat: string, i: nat, poller: string)
    requires ComesBackOn(now, before, c, stat, i) && after == SetStatus(now, last.r, last.v, poller)
    ensures ComesBackOn(after, before + [last], c, stat, i)
  {
    var done := before + [last];
    assert forall k | 0 <= k <= i :: done[k] == before[k];
    if Up(after, c) && !done[i].v.available {
      if last.r.info.id == c {
        assert done[|before|].v.available;
      } else {
        var j :| i < j < |before| && before[j].r.info.id == c && before[j].v.available;
        assert done[j] == before[j];
      }
    }
  }

  ghost predicate NoRepeats(done: seq<Judged>) {
    forall i, j | 0 <= i < j < |done| :: done[i].r.info.id != done[j].r.info.id
  }

  ghost predicate SomeHas(done: seq<Judged>, c: CacheName, stat: string) {
    exists i :: 0 <= i < |done| && done[i].r.info.id == c && HasStat(done[i].r, stat)
  }

  /** When no cache has two results in a batch, a cache that a stat took down comes back only on a result
      that has the stat. */
  lemma {:induction false} HysteresisWithoutRepeats(statuses: Statuses, done: seq<Judged>, poller: string, c: CacheName)
    requires Unblocked(statuses, done, poller) && NoRepeats(done)
    requires DownBy(statuses, c).Some? && Up(StatusesAfter(statuses, done, poller), c)
    ensures SomeHas(done, c, statuses[c].stat)
  {
    Hysteresis(statuses, done, poller, c);
    assert !Missing(done, c);
    assert ComesBack(StatusesAfter(statuses, done, poller), done, c, statuses[c].stat);
    var i: nat :| ComesBackOn(StatusesAfter(statuses, done, poller), done, c, statuses[c].stat, i);
  }

  /** With two results of a cache in a batch this fails: when the first is down without naming a stat, as
      on an error, then the second brings the cache back whether or not any of them has the stat. `Repeats`
      shows that it fails for every kind of batch with repeated caches. */
  lemma {:induction false} RepeatsEscape(statuses: Statuses, down: Judged, up: Judged, poller: string)
    requires down.r.info.id == up.r.info.id && DownBy(statuses, up.r.info.id).Some?
    requires !down.v.available && up.v.available
    ensures Unblocked(statuses, [down, up], poller) <==> (down.v.stat != "" ==> HasStat(up.r, down.v.stat))
    ensures Up(StatusesAfter(statuses, [down, up], poller), up.r.info.id)
  {
    assert [down, up][..1] == [down] && [down][..0] == [];
    assert StatusesAfter(statuses, [down], poller) == SetStatus(statuses, down.r, down.v, poller);
    assert Unblocked(statuses, [], poller) && Unblocked(statuses, [down], poller);
  }

  // ---------- Runs of batches ----------

  /** A batch as it was processed: of the results, those in `done` were applied. */
  datatype Batch = Batch(results: seq<Result>, done: seq<Judged>, poller: string, mc: Config, histories: AllHistories) {
    /** Whether the batch was processed from the given statuses in one of the ways that it can be. */
    ghost predicate From(statuses: Statuses) {
      Processed(statuses, results, done, poller, mc, histories)
    }

    ghost predicate Whole() {
      |done| == |results|
    }
  }

  ghost function CommittedAfter(statuses: Statuses, batches: seq<Batch>): Statuses {
    if batches == [] then statuses
    else Commit(CommittedAfter(statuses, batches[..|batches| - 1]), batches[|batches| - 1])
  }

  ghost function Commit(statuses: Statuses, b: Batch): Statuses {
    if b.Whole() then StatusesAfter(statuses, b.done, b.poller) else statuses
  }

  ghost function LocalAfterAll(caches: map<CacheName, bool>, batches: seq<Batch>): map<CacheName, bool> {
    if batches == [] then caches
    else LocalAfter(LocalAfterAll(caches, batches[..|batches| - 1]), batches[|batches| - 1].done)
  }

  /** Each batch was processed from the statuses which the batches before it committed. */
  ghost predicate IsRun(statuses: Statuses, batches: seq<Batch>) {
    forall k | 0 <= k < |batches| :: batches[k].From(CommittedAfter(statuses, batches[..k]))
  }

  /** Batch `k` brings the cache up from being down by the stat. */
  ghost predicate Recovers(statuses: Statuses, batches: seq<Batch>, k: nat, c: CacheName, stat: string)
    requires k < |batches|
  {
    && DownBy(CommittedAfter(statuses, batches[..k]), c) == Some(stat)
    && Up(CommittedAfter(statuses, batches[..k + 1]), c)
  }

  /** In every run of batches without repeated caches, a committed status goes from unavailable because
      of a stat to available only in a batch with a result of the cache that has the stat. */
  lemma {:induction false} RecoversOnlyWithStat(statuses: Statuses, batches: seq<Batch>)
    requires IsRun(statuses, batches) && forall k | 0 <= k < |batches| :: NoRepeats(batches[k].done)
    ensures forall k, c, stat | 0 <= k < |batches| && Recovers(statuses, batches, k, c, stat) ::
      batches[k].Whole() && SomeHas(batches[k].done, c, stat)
  {
    forall k, c, stat | 0 <= k < |batches| && Recovers(statuses, batches, k, c, stat)
      ensures batches[k].Whole() && SomeHas(batches[k].done, c, stat)
    {
      assert batches[..k + 1][..k] == batches[..k];
      HysteresisWithoutRepeats(CommittedAfter(statuses, batches[..k]), batches[k].done, batches[k].poller, c);
    }
  }

  // ---------- Statuses and local states ----------

  /** A result never brings back a cache that was removed from the local states, and removes none. */
  lemma {:induction false} ResultsKeepTheCaches(caches: map<CacheName, bool>, done: seq<Judged>)
    ensures LocalAfter(caches, done).Keys == caches.Keys
  {
    if done != [] {
      ResultsKeepTheCaches(caches, done[..|done| - 1]);
    }
  }

  lemma {:induction false} BatchesKeepTheCaches(caches: map<CacheName, bool>, batches: seq<Batch>)
    ensures LocalAfterAll(caches, batches).Keys == caches.Keys
  {
    if batches != [] {
      BatchesKeepTheCaches(caches, batches[..|batches| - 1]);
      ResultsKeepTheCaches(LocalAfterAll(caches, batches[..|batches| - 1]), batches[|batches| - 1].done);
    }
  }

  /** The local state of a cache is that of its committed status, where it has both. */
  ghost predicate Agree(statuses: Statuses, caches: map<CacheName, bool>) {
    forall c | c in statuses && c in caches :: caches[c] == statuses[c].available
  }

  lemma {:induction false} ResultsAgree(statuses: Statuses, caches: map<CacheName, bool>, done: seq<Judged>, poller: string)
    requires Agree(statuses, caches)
    ensures Agree(StatusesAfter(statuses, done, poller), LocalAfter(caches, done))
    ensures statuses.Keys <= StatusesAfter(statuses, done, poller).Keys
  {
    if done != [] {
      ResultsAgree(statuses, caches, done[..|done| - 1], poller);
    }
  }

  /** The verdict of the last result of a cache, if there is one. */
  function LastVerdict(done: seq<Judged>, c: CacheName): Option<Verdict> {
    if done == [] then None
    else if done[|done| - 1].r.info.id == c then Some(done[|done| - 1].v)
    else LastVerdict(done[..|done| - 1], c)
  }

  lemma {:induction false} LastVerdictCounts(statuses: Statuses, done: seq<Judged>, poller: string, c: CacheName)
    requires c in statuses
    ensures Up(StatusesAfter(statuses, done, poller), c) ==
      match LastVerdict(done, c)
      case None => statuses[c].available
      case Some(v) => v.available
    ensures c in StatusesAfter(statuses, done, poller)
  {
    if done != [] {
      LastVerdictCounts(statuses, done[..|done| - 1], poller, c);
    }
  }

  /** The last verdict of the cache before the batch was cut short is another availability than it had. */
  ghost predicate Turned(statuses: Statuses, done: seq<Judged>, c: CacheName)
    requires c in statuses
  {
    LastVerdict(done, c).Some? && LastVerdict(done, c).value.available != statuses[c].available
  }

  /** The statuses agree with the local states after a batch iff it was not cut short by a blocked result, or
      the last verdicts before that one turned no cache over. */
  lemma {:induction false} AgreesUnlessCutShort(statuses: Statuses, caches: map<CacheName, bool>, b: Batch)
    requires Agree(statuses, caches)
    ensures Agree(Commit(statuses, b), LocalAfter(caches, b.done))
      <==> b.Whole() || forall c | c in statuses && c in caches :: !Turned(statuses, b.done, c)
  {
    ResultsAgree(statuses, caches, b.done, b.poller);
    ResultsKeepTheCaches(caches, b.done);
    forall c | c in statuses && c in caches
      ensures LocalAfter(caches, b.done)[c] == statuses[c].available <==> !Turned(statuses, b.done, c)
    {
      LastVerdictCounts(statuses, b.done, b.poller, c);
    }
  }

  /** In a run in which every batch is applied in full, they always agree. */
  lemma {:induction false} FullBatchesAgree(statuses: Statuses, caches: map<CacheName, bool>, batches: seq<Batch>)
    requires Agree(statuses, caches) && forall b | b in batches :: b.Whole()
    ensures Agree(CommittedAfter(statuses, batches), LocalAfterAll(caches, batches))
  {
    if batches != [] {
      var before, b := batches[..|batches| - 1], batches[|batches| - 1];
      assert b in batches && forall x | x in before :: x in batches;
      FullBatchesAgree(statuses, caches, before);
      ResultsAgree(CommittedAfter(statuses, before), LocalAfterAll(caches, before), b.done, b.poller);
    }
  }
}
