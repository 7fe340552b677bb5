/** Exactly which batches keep the hysteresis of thresholds (`traffic_monitor/health/cache.go`). */
module Repeats {
  import opened Core
  import opened Events
  import opened Thresholds
  import opened Availability

  function Ids(results: seq<Result>): seq<CacheName> {
    seq(|results|, i requires 0 <= i < |results| => results[i].info.id)
  }

  ghost predicate Distinct(ids: seq<CacheName>) {
    forall i, j | 0 <= i < j < |ids| :: ids[i] != ids[j]
  }

  /** However a batch of results of these caches is processed, a cache that a stat took down comes back only if one
      of its results has the stat. */
  ghost predicate BatchesKeep(ids: seq<CacheName>) {
    forall statuses, b: Batch, c | Ids(b.results) == ids && b.Whole() && b.From(statuses) :: Keeps(statuses, b, c)
  }

  ghost predicate Keeps(statuses: Statuses, b: Batch, c: CacheName) {
    DownBy(statuses, c).Some? && Up(StatusesAfter(statuses, b.done, b.poller), c) ==> SomeHas(b.done, c, statuses[c].stat)
  }

  lemma {:induction false} DistinctKeeps(statuses: Statuses, b: Batch, c: CacheName)
    requires Distinct(Ids(b.results)) && b.From(statuses)
    ensures NoRepeats(b.done) && Keeps(statuses, b, c)
  {
    forall i, j | 0 <= i < j < |b.done|
      ensures b.done[i].r.info.id != b.done[j].r.info.id
    {
      assert Ids(b.results)[i] != Ids(b.results)[j];
    }
    if DownBy(statuses, c).Some? && Up(StatusesAfter(statuses, b.done, b.poller), c) {
      HysteresisWithoutRepeats(statuses, b.done, b.poller, c);
    }
  }

  /** Batches keep the hysteresis iff no cache has two results in them. */
  lemma {:induction false} BatchesKeepIff(ids: seq<CacheName>)
    ensures BatchesKeep(ids) <==> Distinct(ids)
  {
    if Distinct(ids) {
      forall statuses, b: Batch, c | Ids(b.results) == ids && b.Whole() && b.From(statuses)
        ensures Keeps(statuses, b, c)
      {
        DistinctKeeps(statuses, b, c);
      }
    } else {
      var i, j :| 0 <= i < j < |ids| && ids[i] == ids[j];
      OneEscapes(ids, i, j);
    }
  }

  lemma {:induction false} OneEscapes(ids: seq<CacheName>, i: nat, j: nat)
    requires i < j < |ids| && ids[i] == ids[j]
    ensures !BatchesKeep(ids)
  {
    var c := ids[i];
    EscapeIsWhole(ids, c, i, map[c := DOWN]);
    EscapeHasNot(ids, c, i, |ids|);
    OneFails(ids, map[c := DOWN], Escape(ids, c, i), c);
  }

  lemma {:induction false} OneFails(ids: seq<CacheName>, statuses: Statuses, b: Batch, c: CacheName)
    requires Ids(b.results) == ids && b.Whole() && b.From(statuses) && !Keeps(statuses, b, c)
    ensures !BatchesKeep(ids)
  {
  }

  // ---------- The witness ----------

  /** A stat that is not one of the computed ones, and the status of a cache that it took down. */
  const STAT := "x"

  const DOWN := AvailableStatus(false, STAT, "")

  /** All caches are reported, without thresholds. */
  ghost function EscapeConfig(ids: seq<CacheName>): Config {
    Config(map c | c in ids :: Server(Reported, "profile"), map["profile" := map[]])
  }

  /** A good result without stats, or an error. */
  function EscapeResult(c: CacheName, up: bool): Result {
    Result(ResultInfo(c, !up, up, 0, Vitals(0.0, 0, 0), System(0, 0, 0, 0, 0, 0, false)), {})
  }

  /** Errors but for the results of one cache after its result at `i`. */
  ghost function EscapeDone(ids: seq<CacheName>, c: CacheName, i: int): seq<Judged> {
    seq(|ids|, n requires 0 <= n < |ids| =>
      Judged(EscapeResult(ids[n], ids[n] == c && n > i), Verdict(ids[n] == c && n > i, "")))
  }

  ghost function EscapeResults(ids: seq<CacheName>, c: CacheName, i: int): seq<Result> {
    seq(|ids|, n requires 0 <= n < |ids| => EscapeResult(ids[n], ids[n] == c && n > i))
  }

  /** The batch, with the first `n` results applied. */
  ghost function EscapeTo(ids: seq<CacheName>, c: CacheName, i: int, n: nat): Batch
    requires n <= |ids|
  {
    Batch(EscapeResults(ids, c, i), EscapeDone(ids, c, i)[..n], "", EscapeConfig(ids), None)
  }

  ghost function Escape(ids: seq<CacheName>, c: CacheName, i: int): Batch {
    EscapeTo(ids, c, i, |ids|)
  }

  /** These are verdicts that `EvalCache` gives. */
  lemma {:induction false} EscapeIsJudged(ids: seq<CacheName>, c: CacheName, up: bool)
    requires c in ids
    ensures Judges(EscapeConfig(ids), None, Judged(EscapeResult(c, up), Verdict(up, "")))
  {
    var mc, info := EscapeConfig(ids), EscapeResult(c, up).info;
    assert Applicable(mc, info) == map[];
    assert !AnyViolated(mc, info, None);
  }

  lemma {:induction false} EscapeHasNot(ids: seq<CacheName>, c: CacheName, i: int, n: nat)
    requires n <= |ids|
    ensures !SomeHas(EscapeTo(ids, c, i, n).done, c, STAT)
  {
  }

  /** Only the one cache is down by a stat. */
  ghost predicate OnlyDown(statuses: Statuses, c: CacheName) {
    forall x | DownBy(statuses, x).Some? :: x == c
  }

  ghost predicate NoneDown(statuses: Statuses) {
    forall x :: DownBy(statuses, x).None?
  }

  lemma {:induction false} EscapeIsApplied(ids: seq<CacheName>, c: CacheName, i: int, n: nat, statuses: Statuses)
    requires n <= |ids| && Unblocked(statuses, EscapeDone(ids, c, i)[..n], "")
    ensures Applied(statuses, EscapeResults(ids, c, i), EscapeDone(ids, c, i)[..n], "", EscapeConfig(ids), None)
  {
    forall k | 0 <= k < n
      ensures Judges(EscapeConfig(ids), None, EscapeDone(ids, c, i)[..n][k])
    {
      EscapeIsJudged(ids, ids[k], ids[k] == c && k > i);
    }
  }

  /** One more result of the witness. */
  lemma {:induction false} EscapeStep(ids: seq<CacheName>, c: CacheName, i: int, n: nat, statuses: Statuses)
    requires 0 < n <= |ids|
    ensures var done, up := EscapeDone(ids, c, i), ids[n - 1] == c && n - 1 > i;
            var now := StatusesAfter(statuses, done[..n - 1], "");
      && StatusesAfter(statuses, done[..n], "") == now[ids[n - 1] := AvailableStatus(up, "", "")]
      && (forall x :: DownBy(StatusesAfter(statuses, done[..n], ""), x) == if x == ids[n - 1] then None else DownBy(now, x))
      && (Unblocked(statuses, done[..n], "")
          <==> Unblocked(statuses, done[..n - 1], "") && !(up && DownBy(now, c).Some? && DownBy(now, c).value !in NUMERIC_STATS + OTHER_STATS))
  {
    var done := EscapeDone(ids, c, i);
    assert done[..n][..n - 1] == done[..n - 1] && done[..n][n - 1] == done[n - 1];
  }

  /** Once its error at `i` has replaced what took it down, nothing keeps the cache from coming back. */
  lemma {:induction false} EscapePrefix(ids: seq<CacheName>, c: CacheName, i: nat, n: nat, statuses: Statuses)
    requires n <= |ids| && i < |ids| && ids[i] == c && OnlyDown(statuses, c)
    ensures Unblocked(statuses, EscapeDone(ids, c, i)[..n], "")
    ensures var after := StatusesAfter(statuses, EscapeDone(ids, c, i)[..n], "");
      && OnlyDown(after, c) && (n > i ==> NoneDown(after))
      && ((exists k :: i < k < n && ids[k] == c) ==> Up(after, c))
  {
    if n > 0 {
      EscapePrefix(ids, c, i, n - 1, statuses);
      EscapeStep(ids, c, i, n, statuses);
    }
  }

  lemma {:induction false} EscapeIsWhole(ids: seq<CacheName>, c: CacheName, i: nat, statuses: Statuses)
    requires i < |ids| && ids[i] == c && OnlyDown(statuses, c)
    ensures Escape(ids, c, i).Whole() && Escape(ids, c, i).From(statuses)
    ensures var after := StatusesAfter(statuses, Escape(ids, c, i).done, "");
      NoneDown(after) && ((exists k :: i < k < |ids| && ids[k] == c) ==> Up(after, c))
  {
    EscapePrefix(ids, c, i, |ids|, statuses);
    EscapeIsApplied(ids, c, i, |ids|, statuses);
  }

  // ---------- Single batches of runs ----------

  ghost predicate HasShapes(batches: seq<Batch>, shapes: seq<seq<CacheName>>) {
    |batches| == |shapes| && forall k | 0 <= k < |batches| :: Ids(batches[k].results) == shapes[k]
  }

  ghost predicate RunKeeps(statuses: Statuses, batches: seq<Batch>) {
    forall k, c, stat | 0 <= k < |batches| && Recovers(statuses, batches, k, c, stat) ::
      batches[k].Whole() && SomeHas(batches[k].done, c, stat)
  }

  /** In every run over batches of the given caches, each batch that takes a committed status from unavailable because
      of a stat to available has a result of the cache with the stat. This is about single batches: below it is the whole
      run between the two. */
  ghost predicate RunsKeep(shapes: seq<seq<CacheName>>) {
    forall statuses, batches: seq<Batch> | HasShapes(batches, shapes) && IsRun(statuses, batches) :: RunKeeps(statuses, batches)
  }

  /** They do iff no cache has two results in one batch. */
  lemma {:induction false} RunsKeepIff(shapes: seq<seq<CacheName>>)
    ensures RunsKeep(shapes) <==> forall k | 0 <= k < |shapes| :: Distinct(shapes[k])
  {
    if forall k | 0 <= k < |shapes| :: Distinct(shapes[k]) {
      forall statuses, batches: seq<Batch> | HasShapes(batches, shapes) && IsRun(statuses, batches)
        ensures RunKeeps(statuses, batches)
      {
        forall k | 0 <= k < |batches|
          ensures NoRepeats(batches[k].done)
        {
          DistinctKeeps(CommittedAfter(statuses, batches[..k]), batches[k], "");
        }
        RecoversOnlyWithStat(statuses, batches);
      }
    } else {
      var k :| 0 <= k < |shapes| && !Distinct(shapes[k]);
      var i, j :| 0 <= i < j < |shapes[k]| && shapes[k][i] == shapes[k][j];
      EscapingRun(shapes, k, i, j);
    }
  }

  /** The first result of the cache, or the end. */
  function FirstOf(ids: seq<CacheName>, c: CacheName): (n: nat)
    ensures n <= |ids| && (n < |ids| ==> ids[n] == c) && forall k | 0 <= k < n :: ids[k] != c
  {
    if ids == [] || ids[0] == c then 0 else 1 + FirstOf(ids[1..], c)
  }

  /** Good results of the cache, which lack the stat, cut the batches before `k` short and so leave it down; in
      batch `k` it escapes. */
  ghost function EscapingBatch(shapes: seq<seq<CacheName>>, k: nat, c: CacheName, i: nat, m: nat): Batch
    requires m < |shapes|
  {
    if m < k then EscapeTo(shapes[m], c, -1, FirstOf(shapes[m], c))
    else if m == k then Escape(shapes[m], c, i)
    else Escape(shapes[m], c, -1)
  }

  lemma {:induction false} QuietPrefix(ids: seq<CacheName>, c: CacheName, n: nat, statuses: Statuses)
    requires n <= FirstOf(ids, c) && OnlyDown(statuses, c) && c in statuses
    ensures Unblocked(statuses, EscapeDone(ids, c, -1)[..n], "")
    ensures var after := StatusesAfter(statuses, EscapeDone(ids, c, -1)[..n], "");
            OnlyDown(after, c) && c in after && after[c] == statuses[c]
  {
    if n > 0 {
      QuietPrefix(ids, c, n - 1, statuses);
      EscapeStep(ids, c, -1, n, statuses);
    }
  }

  /** A batch before: the cache stays down by the stat. */
  lemma {:induction false} StaysDown(ids: seq<CacheName>, c: CacheName, statuses: Statuses)
    requires OnlyDown(statuses, c) && DownBy(statuses, c) == Some(STAT)
    ensures var b := EscapeTo(ids, c, -1, FirstOf(ids, c));
      b.From(statuses) && OnlyDown(Commit(statuses, b), c) && DownBy(Commit(statuses, b), c) == Some(STAT)
  {
    var n := FirstOf(ids, c);
    QuietPrefix(ids, c, n, statuses);
    EscapeIsApplied(ids, c, -1, n, statuses);
    if n < |ids| {
      EscapeIsJudged(ids, c, true);
      var results, done := EscapeResults(ids, c, -1), EscapeDone(ids, c, -1)[..n];
      assert results[n] == EscapeResult(c, true);
      assert Stops(statuses, results, done, "", EscapeConfig(ids), None, Verdict(true, ""));
    }
  }

  /** A batch after: nothing is blocked. */
  lemma {:induction false} NothingBlocked(ids: seq<CacheName>, c: CacheName, n: nat, statuses: Statuses)
    requires n <= |ids| && NoneDown(statuses)
    ensures Unblocked(statuses, EscapeDone(ids, c, -1)[..n], "")
    ensures NoneDown(StatusesAfter(statuses, EscapeDone(ids, c, -1)[..n], ""))
  {
    if n > 0 {
      NothingBlocked(ids, c, n - 1, statuses);
      EscapeStep(ids, c, -1, n, statuses);
    }
  }

  lemma {:induction false} EscapingRunAt(shapes: seq<seq<CacheName>>, k: nat, c: CacheName, i: nat, batches: seq<Batch>, m: nat)
    requires k < |shapes| && i < |shapes[k]| && shapes[k][i] == c && m <= |batches| == |shapes|
    requires forall n | 0 <= n < |shapes| :: batches[n] == EscapingBatch(shapes, k, c, i, n)
    ensures var now := CommittedAfter(map[c := DOWN], batches[..m]);
      && OnlyDown(now, c)
      && (if m <= k then DownBy(now, c) == Some(STAT) else NoneDown(now))
      && (m < |batches| ==> batches[m].From(now))
  {
    var statuses: Statuses := map[c := DOWN];
    if m > 0 {
      EscapingRunAt(shapes, k, c, i, batches, m - 1);
      assert batches[..m][..m - 1] == batches[..m - 1];
      CommittedStep(shapes, k, c, i, CommittedAfter(statuses, batches[..m - 1]), m - 1);
    }
    if m < |batches| {
      CommittedStep(shapes, k, c, i, CommittedAfter(statuses, batches[..m]), m);
    }
  }

  lemma {:induction false} CommittedStep(shapes: seq<seq<CacheName>>, k: nat, c: CacheName, i: nat, now: Statuses, m: nat)
    requires k < |shapes| && i < |shapes[k]| && shapes[k][i] == c && m < |shapes| && OnlyDown(now, c)
    requires if m <= k then DownBy(now, c) == Some(STAT) else NoneDown(now)
    ensures var b := EscapingBatch(shapes, k, c, i, m);
      && b.From(now) && OnlyDown(Commit(now, b), c)
      && (if m + 1 <= k then DownBy(Commit(now, b), c) == Some(STAT) else NoneDown(Commit(now, b)))
  {
    if m < k {
      StaysDown(shapes[m], c, now);
    } else if m == k {
      EscapeIsWhole(shapes[m], c, i, now);
    } else {
      NothingBlocked(shapes[m], c, |shapes[m]|, now);
      EscapeIsApplied(shapes[m], c, -1, |shapes[m]|, now);
    }
  }

  lemma {:induction false} IdsOfEscape(ids: seq<CacheName>, c: CacheName, i: int)
    ensures Ids(EscapeResults(ids, c, i)) == ids
  {
  }

  lemma {:induction false} EscapingIsRun(shapes: seq<seq<CacheName>>, k: nat, c: CacheName, i: nat, batches: seq<Batch>)
    requires k < |shapes| && i < |shapes[k]| && shapes[k][i] == c && |batches| == |shapes|
    requires forall n | 0 <= n < |shapes| :: batches[n] == EscapingBatch(shapes, k, c, i, n)
    ensures HasShapes(batches, shapes) && IsRun(map[c := DOWN], batches)
  {
    forall m | 0 <= m < |batches|
      ensures batches[m].From(CommittedAfter(map[c := DOWN], batches[..m]))
    {
      EscapingRunAt(shapes, k, c, i, batches, m);
    }
    forall m | 0 <= m < |batches|
      ensures Ids(batches[m].results) == shapes[m]
    {
      IdsOfEscape(shapes[m], c, if m == k then i else -1);
    }
  }

  /** In batch `k` the cache comes back without the stat. */
  lemma {:induction false} EscapingRecovers(shapes: seq<seq<CacheName>>, k: nat, i: nat, j: nat, batches: seq<Batch>)
    requires k < |shapes| && i < j < |shapes[k]| && shapes[k][i] == shapes[k][j] && |batches| == |shapes|
    requires forall n | 0 <= n < |shapes| :: batches[n] == EscapingBatch(shapes, k, shapes[k][i], i, n)
    ensures Recovers(map[shapes[k][i] := DOWN], batches, k, shapes[k][i], STAT)
    ensures !SomeHas(batches[k].done, shapes[k][i], STAT)
  {
    var c := shapes[k][i];
    EscapingRunAt(shapes, k, c, i, batches, k);
    EscapeIsWhole(shapes[k], c, i, CommittedAfter(map[c := DOWN], batches[..k]));
    EscapeHasNot(shapes[k], c, i, |shapes[k]|);
    assert batches[..k + 1][..k] == batches[..k];
  }

  lemma {:induction false} EscapingFails(shapes: seq<seq<CacheName>>, k: nat, i: nat, j: nat, batches: seq<Batch>)
    requires k < |shapes| && i < j < |shapes[k]| && shapes[k][i] == shapes[k][j] && |batches| == |shapes|
    requires forall n | 0 <= n < |shapes| :: batches[n] == EscapingBatch(shapes, k, shapes[k][i], i, n)
    ensures !RunKeeps(map[shapes[k][i] := DOWN], batches)
  {
    EscapingRecovers(shapes, k, i, j, batches);
  }

  lemma {:induction false} OneRunFails(shapes: seq<seq<CacheName>>, statuses: Statuses, batches: seq<Batch>)
    requires HasShapes(batches, shapes) && IsRun(statuses, batches) && !RunKeeps(statuses, batches)
    ensures !RunsKeep(shapes)
  {
  }

  lemma {:induction false} EscapingRun(shapes: seq<seq<CacheName>>, k: nat, i: nat, j: nat)
    requires k < |shapes| && i < j < |shapes[k]| && shapes[k][i] == shapes[k][j]
    ensures !RunsKeep(shapes)
  {
    var c := shapes[k][i];
    var batches := seq(|shapes|, m requires 0 <= m < |shapes| => EscapingBatch(shapes, k, c, i, m));
    EscapingIsRun(shapes, k, c, i, batches);
    EscapingFails(shapes, k, i, j, batches);
    OneRunFails(shapes, map[c := DOWN], batches);
  }
}
