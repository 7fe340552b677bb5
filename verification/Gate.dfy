/** The startup gate: which caches were not polled yet, so that serving has to wait
    (`traffic_monitor/threadsafe/polledcaches.go`). */
module Gate {
  import opened Core

  datatype CacheResult = CacheResult(id: CacheName, available: bool, error: bool, notAvailable: bool)

  predicate IsDown(r: CacheResult) {
    !r.available || r.error || r.notAvailable
  }

  /** The last bandwidth that was computed for a cache. */
  datatype LastBytes = LastBytes(perSec: real, time: int)

  datatype State = State(initialized: bool, unpolled: set<CacheName>, seen: map<CacheName, int>, all: set<CacheName>)

  const INITIAL := State(false, {}, map[], {})

  /** Ten seconds. Times are in nanoseconds. */
  const TIMEOUT := 10_000_000_000

  /** What one call knows of the polls. */
  datatype Polls = Polls(results: seq<CacheResult>, last: map<CacheName, LastBytes>, now: int)

  ghost predicate FoundDown(p: Polls, c: CacheName) {
    exists i :: 0 <= i < |p.results| && p.results[i].id == c && IsDown(p.results[i])
  }

  /** The time from which the timeout of an idle cache counts: that of the first bandwidth that was seen. */
  ghost function SeenSince(s: State, p: Polls, c: CacheName): int
    requires c in p.last
  {
    if c in s.seen && !FoundDown(p, c) then s.seen[c] else p.last[c].time
  }

  /** A cache counts as polled when it is down, when it has a bandwidth, or when that has been zero for too
      long. */
  ghost predicate Leaves(s: State, p: Polls, c: CacheName) {
    || FoundDown(p, c)
    || (c in p.last && (p.last[c].perSec != 0.0 || p.now - SeenSince(s, p, c) > TIMEOUT))
  }

  ghost function Remaining(s: State, p: Polls): set<CacheName> {
    set c | c in s.unpolled && !Leaves(s, p, c)
  }

  /** When a cache was first seen. That of a cache found down can come back after it was removed. */
  ghost function SeenEntry(s: State, p: Polls, c: CacheName): Option<int> {
    if c in p.last then
      if p.last[c].perSec != 0.0 || p.now - SeenSince(s, p, c) > TIMEOUT then None else Some(SeenSince(s, p, c))
    else if FoundDown(p, c) then None
    else Entry(s.seen, c)
  }

  /** Nothing at all is kept, not even when caches were first seen, unless some cache leaves. */
  ghost predicate AfterPolled(s: State, p: Polls, s': State) {
    && s'.initialized == (s.initialized || Remaining(s, p) != s.unpolled) && s'.all == s.all
    && s'.unpolled == Remaining(s, p)
    && (forall c :: Entry(s'.seen, c)
          == if Remaining(s, p) != s.unpolled && c in s.unpolled then SeenEntry(s, p, c) else Entry(s.seen, c))
  }

  /** Caches that are not configured any more are forgotten, and new ones wait to be polled. */
  ghost predicate AfterNewCaches(s: State, newCaches: set<CacheName>, s': State) {
    && s'.initialized && s'.all == newCaches
    && s'.unpolled == s.unpolled * newCaches + (newCaches - s.all)
    && s'.seen == s.seen - (s.unpolled - newCaches)
  }

  class UnpolledCaches {
    var unpolledCaches: set<CacheName>
    var seenCaches: map<CacheName, int>
    var allCaches: set<CacheName>
    var initialized: bool

    ghost function Contents(): State
      reads this
    {
      State(initialized, unpolledCaches, seenCaches, allCaches)
    }

    constructor ()
      ensures Contents() == INITIAL
    {
      unpolledCaches, seenCaches, allCaches, initialized := {}, map[], {}, false;
    }

    /** Whether serving has to wait. */
    predicate Any()
      reads this
    {
      !initialized || |unpolledCaches| > 0
    }

    method SetNewCaches(newCaches: set<CacheName>)
      modifies this
      ensures AfterNewCaches(old(Contents()), newCaches, Contents())
    {
      var unpolled, all, seen := unpolledCaches, allCaches, seenCaches;
      var todo := unpolled;
      while todo != {}
        invariant todo <= unpolledCaches
        invariant unpolled == unpolledCaches * newCaches + todo
        invariant seen == seenCaches - (unpolledCaches - newCaches - todo)
        decreases todo
      {
        var cache :| cache in todo;
        todo := todo - {cache};
        if cache !in newCaches {
          unpolled := unpolled - {cache};
          seen := seen - {cache};
        }
      }
      assert seen == seenCaches - (unpolledCaches - newCaches);
      todo := all;
      while todo != {}
        invariant todo <= allCaches
        invariant all == allCaches * newCaches + todo
        decreases todo
      {
        var cache :| cache in todo;
        todo := todo - {cache};
        if cache !in newCaches {
          all := all - {cache};
        }
      }
      todo := newCaches;
      while todo != {}
        invariant todo <= newCaches
        invariant all == allCaches * newCaches + (newCaches - todo)
        invariant unpolled == unpolledCaches * newCaches + (newCaches - allCaches - todo)
        decreases todo
      {
        var cache :| cache in todo;
        todo := todo - {cache};
        if cache !in all {
          unpolled := unpolled + {cache};
          all := all + {cache};
        }
      }
      allCaches, initialized, unpolledCaches, seenCaches := all, true, unpolled, seen;
    }

    method FindDown(p: Polls, cache: CacheName) returns (down: bool)
      ensures down <==> FoundDown(p, cache)
    {
      for i := 0 to |p.results|
        invariant forall k | 0 <= k < i :: !(p.results[k].id == cache && IsDown(p.results[k]))
      {
        if p.results[i].id != cache {
          continue;
        }
        if IsDown(p.results[i]) {
          return true;
        }
      }
      return false;
    }

    /** What a call makes of one unpolled cache. */
    method PollCache(p: Polls, cache: CacheName, unpolled: set<CacheName>, seen: map<CacheName, int>)
        returns (unpolled': set<CacheName>, seen': map<CacheName, int>)
      requires Entry(seen, cache) == Entry(seenCaches, cache)
      ensures unpolled' == if Leaves(Contents(), p, cache) then unpolled - {cache} else unpolled
      ensures forall c :: Entry(seen', c) == if c == cache then SeenEntry(Contents(), p, c) else Entry(seen, c)
    {
      unpolled', seen' := unpolled, seen;
      var down := FindDown(p, cache);
      if down {
        unpolled' := unpolled' - {cache};
        seen' := seen' - {cache};
      }
      if cache !in p.last {
        return;
      }
      if p.last[cache].perSec != 0.0 {
        unpolled' := unpolled' - {cache};
        seen' := seen' - {cache};
      } else {
        if cache !in seen' {
          seen' := seen'[cache := p.last[cache].time];
        }
      }
      if cache in seen' && p.now - seen'[cache] > TIMEOUT {
        unpolled' := unpolled' - {cache};
        seen' := seen' - {cache};
      }
    }

    /** In whatever order the caches are visited. */
    method SetPolled(p: Polls)
      modifies this
      ensures AfterPolled(old(Contents()), p, Contents())
    {
      ghost var s := Contents();
      var unpolled, seen := unpolledCaches, seenCaches;
      if unpolled == {} {
        return;
      }
      var todo := unpolled;
      while todo != {}
        invariant todo <= unpolledCaches && Contents() == s
        invariant unpolled == set c | c in unpolledCaches && (c in todo || !Leaves(s, p, c))
        invariant forall c ::
          Entry(seen, c) == if c in unpolledCaches && c !in todo then SeenEntry(s, p, c) else Entry(seenCaches, c)
        decreases todo
      {
        var cache :| cache in todo;
        assert Entry(seen, cache) == Entry(seenCaches, cache);
        unpolled, seen := PollCache(p, cache, unpolled, seen);
        todo := todo - {cache};
      }
      assert unpolled == Remaining(s, p);
      if |unpolled| == |unpolledCaches| {
        SameSize(unpolled, unpolledCaches);
        return;
      }
      initialized, unpolledCaches, seenCaches := true, unpolled, seen;
    }
  }

  lemma {:induction false} SameSize<T>(a: set<T>, b: set<T>)
    requires a <= b && |a| == |b|
    ensures a == b
  {
    assert |b - a| == |b| - |a|;
  }

  /** A cache waits no longer iff some result found it unavailable, with an error or not at all, or it has a bandwidth, or
      its bandwidth has been zero for more than ten seconds since it was first seen. */
  lemma {:induction false} LeavesIff(s: State, p: Polls, c: CacheName)
    ensures var down := exists i :: 0 <= i < |p.results| && p.results[i].id == c
                          && (!p.results[i].available || p.results[i].error || p.results[i].notAvailable);
      Leaves(s, p, c) <==>
        || down
        || (c in p.last && p.last[c].perSec != 0.0)
        || (c in p.last && c in s.seen && p.now > s.seen[c] + 10 * 1_000_000_000)
        || (c in p.last && c !in s.seen && p.now > p.last[c].time + 10 * 1_000_000_000)
  {
    assert forall r: CacheResult :: IsDown(r) <==> !r.available || r.error || r.notAvailable;
  }

  /** Serving may start iff there was a configuration and no cache waits. */
  lemma {:induction false} ServesIff(gate: UnpolledCaches)
    ensures !gate.Any() <==> gate.Contents().initialized && forall c :: c !in gate.Contents().unpolled
  {
    if gate.unpolledCaches != {} {
      var c :| c in gate.unpolledCaches;
      assert c in gate.Contents().unpolled;
    }
  }

  // ---------- Runs ----------

  datatype Call = NewCaches(caches: set<CacheName>) | Polled(polls: Polls)

  ghost predicate After(s: State, call: Call, s': State) {
    match call
    case NewCaches(caches) => AfterNewCaches(s, caches, s')
    case Polled(polls) => AfterPolled(s, polls, s')
  }

  ghost predicate IsRun(run: seq<State>, calls: seq<Call>) {
    && |run| == |calls| + 1
    && forall i | 0 <= i < |calls| :: After(run[i], calls[i], run[i + 1])
  }

  ghost function LastConfig(calls: seq<Call>): set<CacheName> {
    if calls == [] then {}
    else if calls[|calls| - 1].NewCaches? then calls[|calls| - 1].caches
    else LastConfig(calls[..|calls| - 1])
  }

  /** In every run the caches known are those of the last configuration, and only such ones are unpolled. */
  lemma {:induction false} KnowsTheLastConfig(run: seq<State>, calls: seq<Call>, i: nat)
    requires IsRun(run, calls) && run[0] == INITIAL && i < |run|
    ensures run[i].all == LastConfig(calls[..i]) && run[i].unpolled <= run[i].all
    ensures run[i].initialized <==> exists k :: 0 <= k < i && calls[k].NewCaches?
    ensures run[i].unpolled != {} ==> run[i].initialized
  {
    if i > 0 {
      KnowsTheLastConfig(run, calls, i - 1);
      assert calls[..i][..i - 1] == calls[..i - 1] && After(run[i - 1], calls[i - 1], run[i]);
      if calls[i - 1].Polled? {
        assert run[i].initialized == run[i - 1].initialized;
      } else {
        assert run[i].initialized && calls[i - 1].NewCaches?;
      }
    }
  }

  /** A known cache that has left is unpolled again only after a configuration without it. */
  lemma {:induction false} ReturnsOnlyIfDropped(run: seq<State>, calls: seq<Call>, c: CacheName, i: nat, j: nat)
    requires IsRun(run, calls) && i <= j < |run|
    requires c in run[i].all && c !in run[i].unpolled && c in run[j].unpolled
    ensures exists k :: i <= k < j && calls[k].NewCaches? && c !in calls[k].caches
  {
    if forall k | i <= k < j && calls[k].NewCaches? :: c in calls[k].caches {
      StaysPolled(run, calls, c, i, j);
      assert false;
    }
  }

  lemma {:induction false} StaysPolled(run: seq<State>, calls: seq<Call>, c: CacheName, i: nat, j: nat)
    requires IsRun(run, calls) && i <= j < |run|
    requires c in run[i].all && c !in run[i].unpolled
    requires forall k | i <= k < j && calls[k].NewCaches? :: c in calls[k].caches
    ensures c in run[j].all && c !in run[j].unpolled
  {
    if i < j {
      StaysPolled(run, calls, c, i, j - 1);
      assert After(run[j - 1], calls[j - 1], run[j]);
    }
  }

  ghost predicate LeftFor(s: State, call: Call, c: CacheName) {
    && c in s.unpolled
    && match call
       case NewCaches(caches) => c !in caches
       case Polled(polls) => Leaves(s, polls, c)
  }

  /** A cache leaves only for a reason: it was found down, has a bandwidth or timed out; or it is not in a
      new configuration. It stays as long as it has none. */
  lemma {:induction false} LeavesOnlyForAReason(run: seq<State>, calls: seq<Call>, c: CacheName, i: nat, j: nat)
    requires IsRun(run, calls) && i <= j < |run| && c in run[i].unpolled
    ensures c in run[j].unpolled || exists k: nat :: i <= k < j && LeftFor(run[k], calls[k], c)
  {
    if i < j {
      LeavesOnlyForAReason(run, calls, c, i, j - 1);
      assert After(run[j - 1], calls[j - 1], run[j]);
    }
  }

  /** The cache is polled, without a bandwidth, and the last poll is recent. */
  ghost predicate IdleAndFresh(p: Polls, c: CacheName) {
    !FoundDown(p, c) && c in p.last && p.last[c].perSec == 0.0 && p.now - p.last[c].time <= TIMEOUT
  }

  ghost predicate AllIdle(p: Polls, caches: set<CacheName>) {
    forall c | c in caches :: IdleAndFresh(p, c)
  }

  /** The timeout of idle caches does not work on its own: the time at which one was first seen is only
      kept when a cache leaves in the same call. As long as all unpolled caches are idle, and polled
      often enough, none ever leaves, however long this goes on. */
  lemma {:induction false} IdleNeverTimesOut(run: seq<State>, calls: seq<Call>, i: nat)
    requires IsRun(run, calls) && i < |run|
    requires forall c | c in run[0].unpolled :: c !in run[0].seen
    requires forall k | 0 <= k < |calls| :: calls[k].Polled? && AllIdle(calls[k].polls, run[0].unpolled)
    ensures run[i].unpolled == run[0].unpolled && forall c :: Entry(run[i].seen, c) == Entry(run[0].seen, c)
  {
    if i > 0 {
      IdleNeverTimesOut(run, calls, i - 1);
      assert calls[i - 1].Polled? && AllIdle(calls[i - 1].polls, run[0].unpolled);
      var s, p := run[i - 1], calls[i - 1].polls;
      assert After(s, calls[i - 1], run[i]);
      forall x | x in s.unpolled
        ensures !Leaves(s, p, x)
      {
        assert IdleAndFresh(p, x);
        assert Entry(s.seen, x) == Entry(run[0].seen, x);
      }
      assert Remaining(s, p) == s.unpolled;
    }
  }

  /** When some cache does leave, the first sight of an idle cache is kept, and from then on it leaves in
      the first call more than the timeout after it. */
  lemma {:induction false} KeptSightTimesOut(s: State, p: Polls, s': State, q: Polls, c: CacheName)
    requires AfterPolled(s, p, s') && c in s.unpolled && c !in s.seen && IdleAndFresh(p, c)
    requires !FoundDown(q, c) && c in q.last && q.last[c].perSec == 0.0
    ensures c in s'.unpolled
    ensures Remaining(s, p) != s.unpolled ==> (Leaves(s', q, c) <==> q.now - p.last[c].time > TIMEOUT)
    ensures Remaining(s, p) == s.unpolled ==> (Leaves(s', q, c) <==> q.now - q.last[c].time > TIMEOUT)
  {
    assert Entry(s'.seen, c) == if Remaining(s, p) != s.unpolled then Some(p.last[c].time) else None;
  }
}
