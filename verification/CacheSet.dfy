/** Which caches the local and combined states hold while configurations, results and combine passes
    interleave (`traffic_monitor/manager/monitorconfig.go`). */
module CacheSet {
  import opened Core
  import opened CRStates
  import opened Thresholds

  /** The rune as `strings.ToLower` leaves it, as far as the names of statuses go: two runes outside ASCII have
      a lower case inside. */
  function LowerRune(c: char): char {
    if 'A' <= c <= 'Z' then 'a' + (c - 'A')
    else if c == '\U{0130}' then 'i'
    else if c == '\U{212A}' then 'k'
    else c
  }

  function ToLower(s: string): (r: string)
    ensures |r| == |s| && forall i | 0 <= i < |s| :: r[i] == LowerRune(s[i])
  {
    if s == "" then "" else [LowerRune(s[0])] + ToLower(s[1..])
  }

  function CacheStatusFromString(raw: string): CacheStatus {
    var s := ToLower(raw);
    if s == "admin_down" || s == "admindown" then AdminDown
    else if s == "offline" then Offline
    else if s == "online" then Online
    else if s == "reported" then Reported
    else Invalid
  }

  // ---------- Spelling ----------

  /** The rune is the given lower case letter, or its upper case, or one of the two outside ASCII. */
  ghost predicate IsLetter(c: char, lower: char) {
    || c == lower
    || ('a' <= lower <= 'z' && 'A' <= c <= 'Z' && c - 'A' == lower - 'a')
    || (lower == 'i' && c == '\U{0130}') || (lower == 'k' && c == '\U{212A}')
  }

  /** The name, in letters of any case. */
  ghost predicate Spells(raw: string, name: string) {
    |raw| == |name| && forall i | 0 <= i < |name| :: IsLetter(raw[i], name[i])
  }

  lemma {:induction false} LetterIff(c: char, lower: char)
    requires lower == '_' || 'a' <= lower <= 'z'
    ensures LowerRune(c) == lower <==> IsLetter(c, lower)
  {
  }

  lemma {:induction false} SpellsIff(raw: string, name: string)
    requires forall i | 0 <= i < |name| :: name[i] == '_' || 'a' <= name[i] <= 'z'
    ensures ToLower(raw) == name <==> Spells(raw, name)
  {
    if |raw| == |name| {
      forall i | 0 <= i < |name|
        ensures ToLower(raw)[i] == name[i] <==> IsLetter(raw[i], name[i])
      {
        LetterIff(raw[i], name[i]);
      }
    }
  }

  /** Which texts are which status. */
  lemma {:induction false} StatusIff(raw: string)
    ensures CacheStatusFromString(raw) == AdminDown <==> Spells(raw, "admin_down") || Spells(raw, "admindown")
    ensures CacheStatusFromString(raw) == Offline <==> Spells(raw, "offline")
    ensures CacheStatusFromString(raw) == Online <==> Spells(raw, "online")
    ensures CacheStatusFromString(raw) == Reported <==> Spells(raw, "reported")
  {
    SpellsIff(raw, "admin_down");
    SpellsIff(raw, "admindown");
    SpellsIff(raw, "offline");
    SpellsIff(raw, "online");
    SpellsIff(raw, "reported");
    assert ToLower(raw) == "online" ==> ToLower(raw)[1] == 'n';
    assert ToLower(raw) == "offline" ==> ToLower(raw)[1] == 'f';
  }

  /** A server with the status as Traffic Ops gives it. */
  datatype CacheServer = CacheServer(rawStatus: string, url: string) {
    function Status(): CacheStatus {
      CacheStatusFromString(rawStatus)
    }
  }

  type Servers = map<CacheName, CacheServer>

  /** An OFFLINE cache is neither added nor polled; an ONLINE one is added, but not polled. */
  predicate Polled(srv: CacheServer) {
    srv.Status() != Online && srv.Status() != Offline && srv.url != ""
  }

  /** What a configuration makes of the local state of one of its caches. */
  function Seeded(before: map<CacheName, bool>, c: CacheName, srv: CacheServer): Option<bool> {
    if srv.Status() == Online then Some(true)
    else if c in before then Some(before[c])
    else if srv.Status() == Offline then None
    else Some(false)
  }

  /** The caches of the configuration but those in `todo` are seeded, and no others are touched. */
  ghost predicate SeededBut(before: map<CacheName, bool>, after: map<CacheName, bool>, config: Servers, todo: set<CacheName>) {
    forall c :: Entry(after, c) == if c in config && c !in todo then Seeded(before, c, config[c]) else Entry(before, c)
  }

  lemma {:induction false} SeedStep(before: map<CacheName, bool>, caches: map<CacheName, bool>,
                                    caches': map<CacheName, bool>, config: Servers, todo: set<CacheName>, c: CacheName)
    requires c in todo && c in config && SeededBut(before, caches, config, todo)
    requires forall d :: Entry(caches', d) == if d == c then Seeded(caches, c, config[c]) else Entry(caches, d)
    ensures SeededBut(before, caches', config, todo - {c})
  {
    assert Entry(caches, c) == Entry(before, c);
  }

  /** The loop over the servers of a configuration: seeds the local states, and lists what to poll. */
  method SeedCaches(config: Servers, localStates: Threadsafe) returns (urls: map<CacheName, string>)
    modifies localStates`caches
    ensures SeededBut(old(localStates.caches), localStates.caches, config, {})
    ensures urls == map c | c in config && Polled(config[c]) :: config[c].url
  {
    urls := map[];
    var todo := config.Keys;
    while todo != {}
      invariant todo <= config.Keys
      invariant SeededBut(old(localStates.caches), localStates.caches, config, todo)
      invariant urls == map c | c in config && c !in todo && Polled(config[c]) :: config[c].url
      decreases todo
    {
      var c :| c in todo;
      ghost var caches := localStates.caches;
      SeedCache(c, config[c], localStates);
      SeedStep(old(localStates.caches), caches, localStates.caches, config, todo, c);
      todo := todo - {c};
      if config[c].Status() == Online || config[c].Status() == Offline || config[c].url == "" {
        continue;
      }
      urls := urls[c := config[c].url];
    }
  }

  method SeedCache(c: CacheName, srv: CacheServer, localStates: Threadsafe)
    modifies localStates`caches
    ensures forall d ::
      Entry(localStates.caches, d) == if d == c then Seeded(old(localStates.caches), c, srv) else Entry(old(localStates.caches), d)
  {
    if srv.Status() == Online {
      localStates.AddCache(c, true);
    } else if srv.Status() != Offline {
      if c !in localStates.caches {
        localStates.AddCache(c, false);
      }
    }
  }

  /** A configuration applied while nothing else writes the local states. The caches that stay are those
      configured, but an OFFLINE cache is not added; the ONLINE ones are available, a new one is not, and
      every other one keeps its state, also when it went OFFLINE. */
  method Reconcile(config: Servers, localStates: Threadsafe) returns (urls: map<CacheName, string>)
    modifies localStates`caches
    ensures forall c :: Entry(localStates.caches, c) == if c in config then Seeded(old(localStates.caches), c, config[c]) else None
    ensures urls == map c | c in config && Polled(config[c]) :: config[c].url
  {
    urls := SeedCaches(config, localStates);
    ghost var seeded := localStates.caches;
    var snapshot := localStates.caches.Keys;
    while snapshot != {}
      invariant snapshot <= seeded.Keys
      invariant localStates.caches == map c | c in seeded && (c in config || c in snapshot) :: seeded[c]
      decreases snapshot
    {
      var c :| c in snapshot;
      snapshot := snapshot - {c};
      if c !in config {
        localStates.DeleteCache(c);
      }
    }
    assert forall c :: Entry(localStates.caches, c) == if c in config then Entry(seeded, c) else None;
  }

  // ---------- Interleaved ----------

  /** Where the goroutine of the configuration stands. `Seeding` is between looking a cache up, which was
      missing, and adding it; `Deleting` goes over a snapshot of the caches. */
  datatype Phase =
    | Idle(config: Servers)
    | Adding(before: Servers, config: Servers, todo: set<CacheName>)
    | Seeding(before: Servers, config: Servers, todo: set<CacheName>, c: CacheName)
    | Deleting(before: Servers, config: Servers, todo: set<CacheName>)

  /** `snapshot` are the local states that the combine pass under way works on. */
  datatype State = State(local: map<CacheName, bool>, phase: Phase, snapshot: Option<map<CacheName, bool>>,
                         combined: map<CacheName, bool>)

  /** A step takes the lock at most once. A combine pass is the only writer of the combined states. */
  datatype Step =
    | StartPass(config: Servers)
    | Visit(c: CacheName)
    | Seed
    | StartDeleting
    | Drop(c: CacheName)
    | EndPass
    | PollResult(c: CacheName, available: bool)
    | TakeSnapshot
    | Publish(onlineOnPeers: set<CacheName>)

  predicate Enabled(s: State, step: Step) {
    match step
    case StartPass(_) => s.phase.Idle?
    case Visit(c) => s.phase.Adding? && c in s.phase.todo && c in s.phase.config
    case Seed => s.phase.Seeding?
    case StartDeleting => s.phase.Adding? && s.phase.todo == {}
    case Drop(c) => s.phase.Deleting? && c in s.phase.todo
    case EndPass => s.phase.Deleting? && s.phase.todo == {}
    case PollResult(_, _) => true
    case TakeSnapshot => s.snapshot.None?
    case Publish(_) => s.snapshot.Some?
  }

  function Apply(s: State, step: Step): State
    requires Enabled(s, step)
  {
    match step
    case StartPass(config) => s.(phase := Adding(s.phase.config, config, config.Keys))
    case Visit(c) =>
      var status := s.phase.config[c].Status();
      var next := Adding(s.phase.before, s.phase.config, s.phase.todo - {c});
      if status == Online then s.(local := s.local[c := true], phase := next)
      else if status == Offline || c in s.local then s.(phase := next)
      else s.(phase := Seeding(s.phase.before, s.phase.config, s.phase.todo - {c}, c))
    case Seed => s.(local := s.local[s.phase.c := false], phase := Adding(s.phase.before, s.phase.config, s.phase.todo))
    case StartDeleting => s.(phase := Deleting(s.phase.before, s.phase.config, s.local.Keys))
    case Drop(c) =>
      s.(local := if c in s.phase.config then s.local else s.local - {c},
         phase := Deleting(s.phase.before, s.phase.config, s.phase.todo - {c}))
    case EndPass => s.(phase := Idle(s.phase.config))
    case PollResult(c, available) => if c in s.local then s.(local := s.local[c := available]) else s
    case TakeSnapshot => s.(snapshot := Some(s.local))
    case Publish(onlineOnPeers) =>
      var caches := s.snapshot.value;
      s.(combined := map c | c in caches :: caches[c] || c in onlineOnPeers, snapshot := None)
  }

  /** A visit with nothing in between does what the loop above does with one server. */
  lemma {:induction false} VisitSeeds(s: State, c: CacheName)
    requires Enabled(s, Visit(c))
    ensures var v := Apply(s, Visit(c));
            var local := if v.phase.Seeding? then Apply(v, Seed).local else v.local;
            forall d :: Entry(local, d) == if d == c then Seeded(s.local, c, s.phase.config[c]) else Entry(s.local, d)
  {
    var v := Apply(s, Visit(c));
    if v.phase.Seeding? {
      var local := s.local[c := false];
      assert Apply(v, Seed).local == local && Seeded(s.local, c, s.phase.config[c]) == Some(false);
      assert forall d :: Entry(local, d) == if d == c then Some(false) else Entry(s.local, d);
    } else {
      var srv := s.phase.config[c];
      assert Entry(v.local, c) == Seeded(s.local, c, srv);
      assert forall d | d != c :: Entry(v.local, d) == Entry(s.local, d);
    }
  }

  /** Every configured cache that is not OFFLINE, and no cache that is not configured. */
  predicate Matches(caches: set<CacheName>, config: Servers) {
    caches <= config.Keys && forall c | c in config && config[c].Status() != Offline :: c in caches
  }

  /** What every step keeps. */
  predicate Inv(s: State) {
    match s.phase
    case Idle(config) => Matches(s.local.Keys, config)
    case Adding(before, config, todo) =>
      && todo <= config.Keys && s.local.Keys <= before.Keys + config.Keys
      && forall c | c in config && c !in todo && config[c].Status() != Offline :: c in s.local
    case Seeding(before, config, todo, x) =>
      && todo <= config.Keys && s.local.Keys <= before.Keys + config.Keys && x in config && x !in s.local
      && forall c | c in config && c !in todo && c != x && config[c].Status() != Offline :: c in s.local
    case Deleting(before, config, todo) =>
      && s.local.Keys <= before.Keys + config.Keys && s.local.Keys <= config.Keys + todo
      && forall c | c in config && config[c].Status() != Offline :: c in s.local
  }

  lemma {:induction false} StepKeepsInv(s: State, step: Step)
    requires Inv(s) && Enabled(s, step)
    ensures Inv(Apply(s, step))
  {
  }

  ghost predicate IsRun(run: seq<State>, steps: seq<Step>) {
    && |run| == |steps| + 1
    && run[0] == State(map[], Idle(map[]), None, map[])
    && forall i | 0 <= i < |steps| :: Enabled(run[i], steps[i]) && run[i + 1] == Apply(run[i], steps[i])
  }

  /** In every run: between passes the local caches match the last configuration, whatever results came
      in. During a pass they are at most those of the old and the new configuration. And a cache that is
      seeded as unavailable is still missing then, so that no polled state is overwritten. */
  lemma {:induction false} CachesMatchConfig(run: seq<State>, steps: seq<Step>, i: nat)
    requires IsRun(run, steps) && i < |run|
    ensures Inv(run[i])
    ensures run[i].phase.Idle? ==> Matches(run[i].local.Keys, run[i].phase.config)
    ensures !run[i].phase.Idle? ==> run[i].local.Keys <= run[i].phase.before.Keys + run[i].phase.config.Keys
    ensures run[i].phase.Seeding? ==> run[i].phase.c !in run[i].local
  {
    if i > 0 {
      CachesMatchConfig(run, steps, i - 1);
      StepKeepsInv(run[i - 1], steps[i - 1]);
    }
  }

  /** No configuration from state `i` to state `j` has the cache. */
  ghost predicate NeverConfigured(run: seq<State>, c: CacheName, i: nat, j: nat)
    requires i <= j < |run|
  {
    forall k | i <= k <= j :: c !in run[k].phase.config
  }

  lemma {:induction false} StaysAwayStep(s: State, step: Step, c: CacheName)
    requires Inv(s) && Enabled(s, step) && c !in s.local && c !in s.phase.config
    ensures c !in Apply(s, step).local
  {
  }

  /** A cache that was deleted stays away until a configuration has it again: no result that was in
      flight re-creates it. */
  lemma {:induction false} DeletedStaysAway(run: seq<State>, steps: seq<Step>, c: CacheName, i: nat, j: nat)
    requires IsRun(run, steps) && i <= j < |run|
    requires c !in run[i].local && NeverConfigured(run, c, i, j)
    ensures c !in run[j].local
  {
    if i < j {
      DeletedStaysAway(run, steps, c, i, j - 1);
      CachesMatchConfig(run, steps, j - 1);
      StaysAwayStep(run[j - 1], steps[j - 1], c);
    }
  }

  /** Step `j` publishes the snapshot that step `i` took. */
  ghost predicate SamePass(steps: seq<Step>, i: nat, j: nat)
    requires i < j < |steps|
  {
    && steps[i].TakeSnapshot? && steps[j].Publish?
    && forall k | i < k < j :: !steps[k].Publish?
  }

  lemma {:induction false} SnapshotIsKept(run: seq<State>, steps: seq<Step>, i: nat, j: nat)
    requires IsRun(run, steps) && i < j <= |steps|
    requires steps[i].TakeSnapshot? && forall k | i < k < j :: !steps[k].Publish?
    ensures run[j].snapshot == Some(run[i].local)
  {
    if i + 1 < j {
      SnapshotIsKept(run, steps, i, j - 1);
      assert Enabled(run[j - 1], steps[j - 1]);
    }
  }

  /** A combine pass whose snapshot is taken between passes makes the combined caches match the
      configuration, even if another configuration or any result comes in before it ends. */
  lemma {:induction false} CombinedMatchConfig(run: seq<State>, steps: seq<Step>, i: nat, j: nat)
    requires IsRun(run, steps) && i < j < |steps| && SamePass(steps, i, j)
    requires run[i].phase.Idle?
    ensures Matches(run[j + 1].combined.Keys, run[i].phase.config)
  {
    SnapshotIsKept(run, steps, i, j);
    CachesMatchConfig(run, steps, i);
    assert run[j + 1] == Apply(run[j], steps[j]);
    assert run[j + 1].combined.Keys == run[i].local.Keys;
  }

  /** The next combine after a cache was deleted removes it from the combined states as well. */
  lemma {:induction false} DeletedFromCombined(run: seq<State>, steps: seq<Step>, c: CacheName, d: nat, i: nat, j: nat)
    requires IsRun(run, steps) && d <= i < j < |steps| && SamePass(steps, i, j)
    requires c !in run[d].local && NeverConfigured(run, c, d, i)
    ensures c !in run[j + 1].combined
  {
    DeletedStaysAway(run, steps, c, d, i);
    SnapshotIsKept(run, steps, i, j);
    assert run[j + 1] == Apply(run[j], steps[j]);
  }

  /** From state `i` to state `j` the cache is configured, as OFFLINE, and no result of it comes in. */
  ghost predicate IsOffline(run: seq<State>, steps: seq<Step>, c: CacheName, i: nat, j: nat)
    requires i <= j < |run| == |steps| + 1
  {
    && (forall k | i <= k <= j :: c in run[k].phase.config && run[k].phase.config[c].Status() == Offline)
    && (forall k | i <= k < j :: !(steps[k].PollResult? && steps[k].c == c))
  }

  lemma {:induction false} OfflineStep(s: State, step: Step, c: CacheName)
    requires Inv(s) && Enabled(s, step) && c in s.local && !(step.PollResult? && step.c == c)
    requires c in s.phase.config && s.phase.config[c].Status() == Offline
    ensures c in Apply(s, step).local && Apply(s, step).local[c] == s.local[c]
  {
  }

  /** A cache that goes OFFLINE keeps the state it had, available or not, over all following passes. */
  lemma {:induction false} OfflineKeepsItsState(run: seq<State>, steps: seq<Step>, c: CacheName, i: nat, j: nat)
    requires IsRun(run, steps) && i <= j < |run| && IsOffline(run, steps, c, i, j) && c in run[i].local
    ensures c in run[j].local && run[j].local[c] == run[i].local[c]
  {
    if i < j {
      OfflineKeepsItsState(run, steps, c, i, j - 1);
      CachesMatchConfig(run, steps, j - 1);
      OfflineStep(run[j - 1], steps[j - 1], c);
    }
  }

  // ---------- The last word on a cache ----------

  /** A result says what it found of a cache that is there, a visit of an ONLINE one that it is available, and seeding
      that it is not. */
  ghost predicate Says(s: State, step: Step, c: CacheName, available: bool)
    requires Enabled(s, step)
  {
    || (step.PollResult? && step.c == c && c in s.local && step.available == available)
    || (step.Visit? && step.c == c && s.phase.config[c].Status() == Online && available)
    || (step.Seed? && s.phase.c == c && !available)
  }

  /** Step `k` says so, and no later one before state `i` says anything. */
  ghost predicate IsLastWord(run: seq<State>, steps: seq<Step>, c: CacheName, available: bool, k: nat, i: nat)
    requires IsRun(run, steps) && i < |run|
  {
    && k < i && Says(run[k], steps[k], c, available)
    && forall j | k < j < i :: !Says(run[j], steps[j], c, true) && !Says(run[j], steps[j], c, false)
  }

  lemma {:induction false} SaysStep(s: State, step: Step, c: CacheName)
    requires Enabled(s, step) && c in Apply(s, step).local
    ensures Says(s, step, c, Apply(s, step).local[c])
      || (c in s.local && Apply(s, step).local[c] == s.local[c] && !Says(s, step, c, true) && !Says(s, step, c, false))
  {
  }

  /** In every interleaving the local state of a cache is the last word on it: what a configuration or a result says is
      lost only to a later one that says something else. */
  lemma {:induction false} LastWordCounts(run: seq<State>, steps: seq<Step>, c: CacheName, i: nat) returns (k: nat)
    requires IsRun(run, steps) && i < |run| && c in run[i].local
    ensures IsLastWord(run, steps, c, run[i].local[c], k, i)
  {
    SaysStep(run[i - 1], steps[i - 1], c);
    if Says(run[i - 1], steps[i - 1], c, run[i].local[c]) {
      k := i - 1;
    } else {
      k := LastWordCounts(run, steps, c, i - 1);
    }
  }

  /** So a pass publishes a cache as available iff the last word before its snapshot was that it is, or it was found on a
      peer; and the caches that it publishes are those of the snapshot. */
  lemma {:induction false} PublishedIsLastWord(run: seq<State>, steps: seq<Step>, i: nat, j: nat, c: CacheName)
    requires IsRun(run, steps) && i < j < |steps| && SamePass(steps, i, j)
    ensures c in run[j + 1].combined <==> c in run[i].local
    ensures c in run[i].local ==> exists available, k ::
      IsLastWord(run, steps, c, available, k, i) && run[j + 1].combined[c] == (available || c in steps[j].onlineOnPeers)
  {
    SnapshotIsKept(run, steps, i, j);
    assert run[j + 1] == Apply(run[j], steps[j]);
    if c in run[i].local {
      var k := LastWordCounts(run, steps, c, i);
    }
  }
}
