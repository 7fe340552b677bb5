/** When a cache that a threshold took down does come back (`traffic_monitor/health/cache.go`,
    `traffic_monitor/cache/cache.go`). */
module Comebacks {
  import opened Core
  import opened Thresholds
  import opened Verdicts
  import opened Availability
  import opened Repeats
  import opened Returns

  /** The result by itself speaks for the cache: it is ONLINE, or REPORTED and the result is good. */
  ghost predicate SpeaksFor(b: Batch, r: Result) {
    && Known(b.mc, r.info)
    && (b.mc.servers[r.info.id].status == Online
        || (b.mc.servers[r.info.id].status == Reported && IsGood(b.mc, r.info, HistoriesOf(b.histories, r.info.id))))
  }

  /** The result is of a cache that is down by a stat which neither the cache returned in it nor the monitor computes. */
  predicate Lacks(statuses: Statuses, r: Result) {
    r.info.id in statuses
    && var status := statuses[r.info.id];
       !status.available && status.stat != "" && status.stat !in r.ats && status.stat !in COMPUTED_STATS
  }

  lemma {:induction false} BlockedIff(statuses: Statuses, b: Batch, r: Result, v: Verdict)
    requires Judges(b.mc, b.histories, Judged(r, v))
    ensures v.available <==> SpeaksFor(b, r)
    ensures Blocked(statuses, r, v) <==> SpeaksFor(b, r) && Lacks(statuses, r)
  {
    VerdictIs(b.mc, r.info, HistoriesOf(b.histories, r.info.id), v);
    if r.info.id in statuses {
      ComputedAre(r, statuses[r.info.id].stat);
    }
  }

  /** Each result that was applied was not blocked at its turn. */
  lemma {:induction false} UnblockedAt(statuses: Statuses, done: seq<Judged>, poller: string, k: nat)
    requires k < |done| && Unblocked(statuses, done, poller)
    ensures !Blocked(StatusesAfter(statuses, done[..k], poller), done[k].r, done[k].v)
  {
    if k < |done| - 1 {
      UnblockedAt(statuses, done[..|done| - 1], poller, k);
      assert done[..|done| - 1][..k] == done[..k];
    }
  }

  /** In a batch without repeats the status of a cache is still the old one when its result has its turn. */
  lemma {:induction false} OldStatusAt(statuses: Statuses, b: Batch, k: nat)
    requires Distinct(Ids(b.results)) && b.From(statuses) && k < |b.results| && k <= |b.done|
    ensures var now, r := StatusesAfter(statuses, b.done[..k], b.poller), b.results[k];
      Entry(now, r.info.id) == Entry(statuses, r.info.id) && (Lacks(now, r) <==> Lacks(statuses, r))
  {
    var before, c := b.done[..k], b.results[k].info.id;
    forall n | 0 <= n < |before|
      ensures before[n].r.info.id != c
    {
      assert Ids(b.results)[n] != Ids(b.results)[k];
      assert b.done[n].r == b.results[n];
    }
    MissingKeeps(statuses, before, b.poller, c);
    SameLack(StatusesAfter(statuses, before, b.poller), statuses, b.results[k]);
  }

  lemma {:induction false} SameLack(a: Statuses, b: Statuses, r: Result)
    requires Entry(a, r.info.id) == Entry(b, r.info.id)
    ensures Lacks(a, r) <==> Lacks(b, r)
  {
    assert r.info.id in a <==> r.info.id in b;
    assert r.info.id in a ==> Entry(a, r.info.id) == Some(a[r.info.id]) && Entry(b, r.info.id) == Some(b[r.info.id]);
  }

  lemma {:induction false} AppliedDoesNotLack(statuses: Statuses, b: Batch, k: nat)
    requires Distinct(Ids(b.results)) && b.From(statuses) && k < |b.done|
    ensures !(SpeaksFor(b, b.results[k]) && Lacks(statuses, b.results[k]))
    ensures b.done[k].v.available <==> SpeaksFor(b, b.results[k])
  {
    var now := StatusesAfter(statuses, b.done[..k], b.poller);
    assert b.done[k].r == b.results[k] && Judges(b.mc, b.histories, b.done[k]);
    UnblockedAt(statuses, b.done, b.poller, k);
    OldStatusAt(statuses, b, k);
    BlockedIff(now, b, b.results[k], b.done[k].v);
  }

  lemma {:induction false} StopLacks(statuses: Statuses, b: Batch)
    requires Distinct(Ids(b.results)) && b.From(statuses) && !b.Whole()
    ensures |b.done| < |b.results|
    ensures SpeaksFor(b, b.results[|b.done|]) && Lacks(statuses, b.results[|b.done|])
  {
    var k := |b.done|;
    var v :| Stops(statuses, b.results, b.done, b.poller, b.mc, b.histories, v);
    assert b.done[..k] == b.done;
    OldStatusAt(statuses, b, k);
    BlockedIff(StatusesAfter(statuses, b.done, b.poller), b, b.results[k], v);
  }

  /** Results that speak for their cache, and lack the stat that took it down. */
  ghost predicate NoneLacks(statuses: Statuses, b: Batch) {
    forall k | 0 <= k < |b.results| && SpeaksFor(b, b.results[k]) :: !Lacks(statuses, b.results[k])
  }

  /** A batch without repeats is applied as a whole iff no result in it speaks for a cache and lacks the stat that took
      it down. */
  lemma {:induction false} WholeIff(statuses: Statuses, b: Batch)
    requires Distinct(Ids(b.results)) && b.From(statuses)
    ensures b.Whole() <==> NoneLacks(statuses, b)
  {
    if b.Whole() {
      forall k | 0 <= k < |b.results| && SpeaksFor(b, b.results[k])
        ensures !Lacks(statuses, b.results[k])
      {
        AppliedDoesNotLack(statuses, b, k);
      }
    } else {
      StopLacks(statuses, b);
    }
  }

  /** After a whole batch without repeats each cache has the verdict of its own result. */
  lemma {:induction false} StatusIsOfResult(statuses: Statuses, done: seq<Judged>, poller: string, k: nat)
    requires NoRepeats(done) && k < |done|
    ensures var c, v := done[k].r.info.id, done[k].v;
      Entry(StatusesAfter(statuses, done, poller), c) == Some(AvailableStatus(v.available, v.stat, poller))
  {
    var before := done[..|done| - 1];
    if k < |before| {
      assert forall n | 0 <= n < |before| :: before[n] == done[n];
      StatusIsOfResult(statuses, before, poller, k);
      assert done[k].r.info.id != done[|done| - 1].r.info.id;
    }
  }

  lemma {:induction false} WholeHasNoRepeats(statuses: Statuses, b: Batch)
    requires Distinct(Ids(b.results)) && b.From(statuses)
    ensures NoRepeats(b.done)
  {
    DistinctKeeps(statuses, b, "");
  }

  /** A cache that is down by a stat, and has a result that speaks for it, comes back iff the batch is applied as a whole;
      for that the cache must have returned the stat in this result, or the monitor computes it. */
  lemma {:induction false} ComesBackIff(statuses: Statuses, b: Batch, next: Statuses, k: nat)
    requires Distinct(Ids(b.results)) && Commits(statuses, b, next) && k < |b.results|
    requires var c := b.results[k].info.id; c in statuses && !statuses[c].available && statuses[c].stat != ""
    requires SpeaksFor(b, b.results[k])
    ensures var c := b.results[k].info.id;
      && c in next
      && (next[c].available <==> NoneLacks(statuses, b))
      && (next[c].available ==> statuses[c].stat in b.results[k].ats || statuses[c].stat in COMPUTED_STATS)
      && (!next[c].available ==> next == statuses)
  {
    WholeIff(statuses, b);
    if b.Whole() {
      WholeHasNoRepeats(statuses, b);
      AppliedDoesNotLack(statuses, b, k);
      assert b.done[k].r == b.results[k];
      StatusIsOfResult(statuses, b.done, b.poller, k);
    }
  }

  // ---------- Runs ----------

  /** No committed verdict of the cache in the batch does anything but take it down by the stat again. */
  ghost predicate OnlyHolds(b: Batch, c: CacheName, stat: string) {
    b.Whole() ==> forall n | 0 <= n < |b.done| && b.done[n].r.info.id == c :: !b.done[n].v.available && b.done[n].v.stat == stat
  }

  lemma {:induction false} BatchOnlyHolds(statuses: Statuses, done: seq<Judged>, poller: string, c: CacheName, stat: string)
    requires DownBy(statuses, c) == Some(stat)
    requires forall n | 0 <= n < |done| && done[n].r.info.id == c :: !done[n].v.available && done[n].v.stat == stat
    ensures DownBy(StatusesAfter(statuses, done, poller), c) == Some(stat)
  {
    if done != [] {
      var before := done[..|done| - 1];
      assert forall n | 0 <= n < |before| :: before[n] == done[n];
      BatchOnlyHolds(statuses, before, poller, c, stat);
    }
  }

  lemma {:induction false} StaysDown(run: seq<Statuses>, batches: seq<Batch>, i: nat, j: nat, c: CacheName, stat: string)
    requires Run(run, batches) && i <= j <= |batches| && DownBy(run[i], c) == Some(stat)
    requires forall m | i <= m < j :: OnlyHolds(batches[m], c, stat)
    ensures DownBy(run[j], c) == Some(stat)
  {
    if i < j {
      StaysDown(run, batches, i, j - 1, c, stat);
      assert Commits(run[j - 1], batches[j - 1], run[j - 1 + 1]) && OnlyHolds(batches[j - 1], c, stat);
      if batches[j - 1].Whole() {
        BatchOnlyHolds(run[j - 1], batches[j - 1].done, batches[j - 1].poller, c, stat);
      }
    }
  }

  /** Over a run: a cache that a stat took down, and that was only held down since, returns with the first result that speaks
      for it and has the stat, unless a result of another cache cuts that batch short; and it does not return before. */
  lemma {:induction false} ReturnsOnFirst(run: seq<Statuses>, batches: seq<Batch>, i: nat, k: nat, n: nat, c: CacheName, stat: string)
    requires Run(run, batches) && i <= k < |batches| && n < |batches[k].results| && batches[k].results[n].info.id == c
    requires DownBy(run[i], c) == Some(stat) && Distinct(Ids(batches[k].results))
    requires forall m | i <= m < k :: OnlyHolds(batches[m], c, stat)
    requires var r := batches[k].results[n]; SpeaksFor(batches[k], r) && (stat in r.ats || stat in COMPUTED_STATS)
    ensures forall m | i <= m <= k :: DownBy(run[m], c) == Some(stat)
    ensures Up(run[k + 1], c) <==>
      forall q | 0 <= q < |batches[k].results| && q != n && SpeaksFor(batches[k], batches[k].results[q]) ::
        !Lacks(run[k], batches[k].results[q])
  {
    forall m | i <= m <= k
      ensures DownBy(run[m], c) == Some(stat)
    {
      StaysDown(run, batches, i, m, c, stat);
    }
    assert Commits(run[k], batches[k], run[k + 1]);
    ComesBackIff(run[k], batches[k], run[k + 1], n);
    assert !Lacks(run[k], batches[k].results[n]);
  }
}
