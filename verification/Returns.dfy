/** When a cache that a threshold took down comes back without the stat of that threshold, over whole runs of batches
    (`traffic_monitor/health/cache.go`). */
module Returns {
  import opened Core
  import opened Thresholds
  import opened Availability
  import opened Repeats

  ghost predicate Commits(now: Statuses, b: Batch, next: Statuses) {
    b.From(now) && next == Commit(now, b)
  }

  /** A run: the committed statuses before each batch and after the last one. */
  ghost predicate Run(run: seq<Statuses>, batches: seq<Batch>) {
    |run| == |batches| + 1 && forall k | 0 <= k < |batches| :: Commits(run[k], batches[k], run[k + 1])
  }

  ghost predicate SomeHasBetween(batches: seq<Batch>, i: nat, j: nat, c: CacheName, stat: string)
    requires i <= j <= |batches|
  {
    exists k :: i <= k < j && SomeHas(batches[k].done, c, stat)
  }

  /** A cache that is down by a stat at some time and up at a later one has had a result with the stat in between. */
  ghost predicate ReturnsWithStat(run: seq<Statuses>, batches: seq<Batch>)
    requires |run| == |batches| + 1
  {
    forall i, j, c, stat | 0 <= i <= j <= |batches| && DownBy(run[i], c) == Some(stat) && Up(run[j], c) ::
      SomeHasBetween(batches, i, j, c, stat)
  }

  // ---------- Runs ----------

  /** A verdict that takes a cache down without naming the stat. */
  predicate ReplacesStat(j: Judged, c: CacheName, stat: string) {
    j.r.info.id == c && !j.v.available && j.v.stat != stat
  }

  ghost predicate Holds(done: seq<Judged>, c: CacheName, stat: string) {
    !SomeHas(done, c, stat) && forall n | 0 <= n < |done| :: !ReplacesStat(done[n], c, stat)
  }

  /** Down by the stat, a cache is held down by results that lack it, as long as no verdict replaces it. */
  lemma {:induction false} BatchHolds(statuses: Statuses, done: seq<Judged>, poller: string, c: CacheName, stat: string)
    requires Unblocked(statuses, done, poller) && DownBy(statuses, c) == Some(stat) && Holds(done, c, stat)
    ensures DownBy(StatusesAfter(statuses, done, poller), c) == Some(stat)
  {
    if done != [] {
      var before, last := done[..|done| - 1], done[|done| - 1];
      assert forall n | 0 <= n < |before| :: before[n] == done[n];
      BatchHolds(statuses, before, poller, c, stat);
      if last.r.info.id == c {
        assert !ReplacesStat(done[|done| - 1], c, stat) && !HasStat(last.r, stat);
      }
    }
  }

  lemma {:induction false} CommitHolds(now: Statuses, b: Batch, next: Statuses, c: CacheName, stat: string)
    requires Commits(now, b, next) && DownBy(now, c) == Some(stat) && (b.Whole() ==> Holds(b.done, c, stat))
    ensures DownBy(next, c) == Some(stat)
  {
    if b.Whole() {
      BatchHolds(now, b.done, b.poller, c, stat);
    }
  }

  /** Whatever its batches are, a cache that is down by a stat stays so as long as no committed result of it has the stat
      and no committed verdict takes it down without naming the stat. */
  lemma {:induction false} HeldDown(run: seq<Statuses>, batches: seq<Batch>, i: nat, j: nat, c: CacheName, stat: string)
    requires Run(run, batches) && i <= j <= |batches| && DownBy(run[i], c) == Some(stat)
    requires forall k | i <= k < j && batches[k].Whole() :: Holds(batches[k].done, c, stat)
    ensures DownBy(run[j], c) == Some(stat)
  {
    if i < j {
      HeldDown(run, batches, i, j - 1, c, stat);
      assert Commits(run[j - 1], batches[j - 1], run[j - 1 + 1]);
      CommitHolds(run[j - 1], batches[j - 1], run[j], c, stat);
    }
  }

  lemma {:induction false} ReplacedAtOnce(statuses: Statuses, done: seq<Judged>, poller: string, c: CacheName, stat: string, n: nat)
    requires NoRepeats(done) && n < |done| && ReplacesStat(done[n], c, stat)
    ensures DownBy(StatusesAfter(statuses, done, poller), c) != Some(stat)
  {
    var before := done[..|done| - 1];
    if n < |before| {
      assert forall k | 0 <= k < |before| :: before[k] == done[k];
      ReplacedAtOnce(statuses, before, poller, c, stat, n);
    }
  }

  ghost predicate NoneHas(batches: seq<Batch>, i: nat, j: nat, c: CacheName, stat: string)
    requires i <= j <= |batches|
  {
    forall k | i <= k < j && batches[k].Whole() :: !SomeHas(batches[k].done, c, stat)
  }

  ghost predicate Replaced(batches: seq<Batch>, i: nat, j: nat, c: CacheName, stat: string)
    requires i <= j <= |batches|
  {
    exists k, n :: i <= k < j && batches[k].Whole() && 0 <= n < |batches[k].done| && ReplacesStat(batches[k].done[n], c, stat)
  }

  /** In a run without repeats within a batch, and without a result of the cache that has the stat, the cache is down by
      it all the time iff no committed verdict takes it down without naming the stat, as a mere error does. */
  lemma {:induction false} HeldDownIff(run: seq<Statuses>, batches: seq<Batch>, i: nat, j: nat, c: CacheName, stat: string)
    requires Run(run, batches) && i <= j <= |batches| && forall k | 0 <= k < |batches| :: NoRepeats(batches[k].done)
    requires DownBy(run[i], c) == Some(stat) && NoneHas(batches, i, j, c, stat)
    ensures (forall m | i <= m <= j :: DownBy(run[m], c) == Some(stat)) <==> !Replaced(batches, i, j, c, stat)
  {
    if Replaced(batches, i, j, c, stat) {
      var k, n :| i <= k < j && batches[k].Whole() && 0 <= n < |batches[k].done| && ReplacesStat(batches[k].done[n], c, stat);
      assert Commits(run[k], batches[k], run[k + 1]);
      ReplacedAtOnce(run[k], batches[k].done, batches[k].poller, c, stat, n);
      assert DownBy(run[k + 1], c) != Some(stat);
    } else {
      forall m | i <= m <= j
        ensures DownBy(run[m], c) == Some(stat)
      {
        HeldDown(run, batches, i, m, c, stat);
      }
    }
  }

  // ---------- Shapes ----------

  ghost predicate AllReturnWithStat(shapes: seq<seq<CacheName>>) {
    forall run, batches: seq<Batch> | HasShapes(batches, shapes) && Run(run, batches) :: ReturnsWithStat(run, batches)
  }

  /** No cache is listed twice, in one batch or in two. */
  ghost predicate OnceInAll(shapes: seq<seq<CacheName>>) {
    && (forall k | 0 <= k < |shapes| :: Distinct(shapes[k]))
    && (forall k, m, c | 0 <= k < m < |shapes| && c in shapes[k] :: c !in shapes[m])
  }

  /** A cache without results keeps its status. */
  lemma {:induction false} MissingKeeps(statuses: Statuses, done: seq<Judged>, poller: string, c: CacheName)
    requires Missing(done, c)
    ensures Entry(StatusesAfter(statuses, done, poller), c) == Entry(statuses, c)
  {
    if done != [] {
      var before := done[..|done| - 1];
      assert forall n | 0 <= n < |before| :: before[n] == done[n];
      MissingKeeps(statuses, before, poller, c);
    }
  }

  predicate SameStatus(a: Statuses, b: Statuses, c: CacheName) {
    DownBy(a, c) == DownBy(b, c) && Up(a, c) == Up(b, c)
  }

  lemma {:induction false} UnlistedCommit(now: Statuses, b: Batch, next: Statuses, c: CacheName)
    requires Commits(now, b, next) && c !in Ids(b.results)
    ensures SameStatus(now, next, c)
  {
    forall n | 0 <= n < |b.done|
      ensures b.done[n].r.info.id != c
    {
      assert Ids(b.results)[n] == b.results[n].info.id;
    }
    MissingKeeps(now, b.done, b.poller, c);
    assert b.Whole() ==> Entry(next, c) == Entry(now, c);
    assert c in next <==> c in now;
  }

  lemma {:induction false} UnlistedKeeps(run: seq<Statuses>, batches: seq<Batch>, i: nat, j: nat, c: CacheName)
    requires Run(run, batches) && i <= j <= |batches| && forall k | i <= k < j :: c !in Ids(batches[k].results)
    ensures SameStatus(run[i], run[j], c)
  {
    if i < j {
      UnlistedKeeps(run, batches, i, j - 1, c);
      assert Commits(run[j - 1], batches[j - 1], run[j - 1 + 1]);
      UnlistedCommit(run[j - 1], batches[j - 1], run[j], c);
    }
  }

  lemma {:induction false} OneBatchReturns(now: Statuses, b: Batch, next: Statuses, c: CacheName, stat: string)
    requires Distinct(Ids(b.results)) && Commits(now, b, next) && DownBy(now, c) == Some(stat) && Up(next, c)
    ensures SomeHas(b.done, c, stat)
  {
    DistinctKeeps(now, b, c);
  }

  /** The only batch that lists a cache brings it back. */
  lemma {:induction false} OnceReturnsWithStat(shapes: seq<seq<CacheName>>, run: seq<Statuses>, batches: seq<Batch>,
                                               i: nat, j: nat, c: CacheName, stat: string)
    requires OnceInAll(shapes) && HasShapes(batches, shapes) && Run(run, batches) && i <= j <= |batches|
    requires DownBy(run[i], c) == Some(stat) && Up(run[j], c)
    ensures SomeHasBetween(batches, i, j, c, stat)
  {
    var k := i;
    while k < j && c !in shapes[k]
      invariant i <= k <= j && forall n | i <= n < k :: c !in Ids(batches[n].results)
    {
      k := k + 1;
    }
    UnlistedKeeps(run, batches, i, k, c);
    if k < j {
      UnlistedKeeps(run, batches, k + 1, j, c);
      assert Commits(run[k], batches[k], run[k + 1]);
      OneBatchReturns(run[k], batches[k], run[k + 1], c, stat);
    }
  }

  // ---------- Shapes that repeat a cache ----------

  ghost function RunOf(statuses: Statuses, batches: seq<Batch>): seq<Statuses> {
    seq(|batches| + 1, k requires 0 <= k <= |batches| => CommittedAfter(statuses, batches[..k]))
  }

  lemma {:induction false} CommittedNext(statuses: Statuses, batches: seq<Batch>, k: nat)
    requires k < |batches|
    ensures CommittedAfter(statuses, batches[..k + 1]) == Commit(CommittedAfter(statuses, batches[..k]), batches[k])
  {
    assert batches[..k + 1][..k] == batches[..k];
  }

  lemma {:induction false} RunOfIsRun(statuses: Statuses, batches: seq<Batch>)
    requires IsRun(statuses, batches)
    ensures Run(RunOf(statuses, batches), batches)
  {
    var run := RunOf(statuses, batches);
    forall k | 0 <= k < |batches|
      ensures Commits(run[k], batches[k], run[k + 1])
    {
      CommittedNext(statuses, batches, k);
    }
  }

  lemma {:induction false} UpAfterAll(ids: seq<CacheName>, c: CacheName, n: nat, statuses: Statuses)
    requires n <= |ids| && c in ids[..n]
    ensures Up(StatusesAfter(statuses, EscapeDone(ids, c, -1)[..n], ""), c)
  {
    EscapeStep(ids, c, -1, n, statuses);
    if ids[n - 1] != c {
      UpAfterAll(ids, c, n - 1, statuses);
    }
  }

  lemma {:induction false} UpLater(ids: seq<CacheName>, c: CacheName, now: Statuses, next: Statuses)
    requires c in ids && Commits(now, Escape(ids, c, -1), next)
    ensures Up(next, c)
  {
    UpAfterAll(ids, c, |ids|, now);
  }

  lemma {:induction false} EscapingBatchHasNot(shapes: seq<seq<CacheName>>, k: nat, c: CacheName, i: nat, m: nat)
    requires m < |shapes|
    ensures !SomeHas(EscapingBatch(shapes, k, c, i, m).done, c, STAT)
  {
    EscapeHasNot(shapes[m], c, if m == k then i else -1, if m < k then FirstOf(shapes[m], c) else |shapes[m]|);
  }

  lemma {:induction false} OneRunFails(shapes: seq<seq<CacheName>>, run: seq<Statuses>, batches: seq<Batch>, i: nat, j: nat, c: CacheName)
    requires HasShapes(batches, shapes) && Run(run, batches) && i <= j <= |batches|
    requires DownBy(run[i], c) == Some(STAT) && Up(run[j], c) && !SomeHasBetween(batches, i, j, c, STAT)
    ensures !AllReturnWithStat(shapes)
  {
    assert !ReturnsWithStat(run, batches);
  }

  /** A cache that is listed twice in a batch comes back in it. */
  lemma {:induction false} RepeatInBatchFails(shapes: seq<seq<CacheName>>, k: nat)
    requires k < |shapes| && !Distinct(shapes[k])
    ensures !AllReturnWithStat(shapes)
  {
    var i, j :| 0 <= i < j < |shapes[k]| && shapes[k][i] == shapes[k][j];
    var c := shapes[k][i];
    var batches := seq(|shapes|, m requires 0 <= m < |shapes| => EscapingBatch(shapes, k, c, i, m));
    EscapingIsRun(shapes, k, c, i, batches);
    EscapingRecovers(shapes, k, i, j, batches);
    RunOfIsRun(map[c := DOWN], batches);
    OneRunFails(shapes, RunOf(map[c := DOWN], batches), batches, k, k + 1, c);
  }

  /** A cache that is listed in batch `k`, where an error replaces the stat, and again in batch `m` comes back in the latter. */
  lemma {:induction false} RepeatLaterFails(shapes: seq<seq<CacheName>>, k: nat, m: nat, c: CacheName)
    requires k < m < |shapes| && c in shapes[k] && c in shapes[m]
    ensures !AllReturnWithStat(shapes)
  {
    var i := FirstOf(shapes[k], c);
    var batches := seq(|shapes|, n requires 0 <= n < |shapes| => EscapingBatch(shapes, k, c, i, n));
    EscapingIsRun(shapes, k, c, i, batches);
    RunOfIsRun(map[c := DOWN], batches);
    LaterReturn(shapes, k, m, c, batches, RunOf(map[c := DOWN], batches));
    OneRunFails(shapes, RunOf(map[c := DOWN], batches), batches, 0, m + 1, c);
  }

  lemma {:induction false} LaterReturn(shapes: seq<seq<CacheName>>, k: nat, m: nat, c: CacheName, batches: seq<Batch>, run: seq<Statuses>)
    requires k < m < |shapes| == |batches| && c in shapes[m] && Run(run, batches)
    requires forall n | 0 <= n < |shapes| :: batches[n] == EscapingBatch(shapes, k, c, FirstOf(shapes[k], c), n)
    ensures Up(run[m + 1], c) && !SomeHasBetween(batches, 0, m + 1, c, STAT)
  {
    assert Commits(run[m], batches[m], run[m + 1]);
    UpLater(shapes[m], c, run[m], run[m + 1]);
    forall n | 0 <= n <= m
      ensures !SomeHas(batches[n].done, c, STAT)
    {
      EscapingBatchHasNot(shapes, k, c, FirstOf(shapes[k], c), n);
    }
  }

  /** In all whole runs over batches of the given caches, no cache that a stat took down comes back without a result that
      has the stat, iff no cache is listed twice in all batches together: after one error, any good result will do. */
  lemma {:induction false} AllReturnWithStatIff(shapes: seq<seq<CacheName>>)
    ensures AllReturnWithStat(shapes) <==> OnceInAll(shapes)
  {
    if OnceInAll(shapes) {
      forall run, batches: seq<Batch> | HasShapes(batches, shapes) && Run(run, batches)
        ensures ReturnsWithStat(run, batches)
      {
        forall i, j, c, stat | 0 <= i <= j <= |batches| && DownBy(run[i], c) == Some(stat) && Up(run[j], c)
          ensures SomeHasBetween(batches, i, j, c, stat)
        {
          OnceReturnsWithStat(shapes, run, batches, i, j, c, stat);
        }
      }
    } else if k :| 0 <= k < |shapes| && !Distinct(shapes[k]) {
      RepeatInBatchFails(shapes, k);
    } else {
      var k, m, c :| 0 <= k < m < |shapes| && c in shapes[k] && c in shapes[m];
      RepeatLaterFails(shapes, k, m, c);
    }
  }
}
