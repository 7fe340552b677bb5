/** The state combiner: the local states of the caches merged optimistically with those of the peers
    (`traffic_monitor/manager/statecombiner.go`). */
module Combiner {
  import opened Core
  import opened CRStates
  import opened Events
  import opened Peers
  import DisabledLocations

  type Flags = map<CacheName, bool>

  function Overridden(overrides: Flags, c: CacheName): bool {
    c in overrides && overrides[c]
  }

  /** Some peer that is up, online and not timed out reports the cache available. */
  ghost predicate OnlineOnPeers(peers: PeersThreadsafe, now: int, c: CacheName)
    reads peers
  {
    exists p :: p in peers.crStates && peers.GetPeerAvailability(p, now) && CacheAvailable(peers.crStates[p].caches, c)
  }

  // ---------- Override events ----------

  /** Whether the last override event of a cache set its override. */
  ghost function LastOverride(all: seq<Event>, c: CacheName): bool {
    if all == [] then false
    else
      var e := all[|all| - 1];
      if e.kind.Override? && e.name == c then e.kind.on else LastOverride(all[..|all| - 1], c)
  }

  /** Every override event changes the override of its cache. */
  ghost predicate EachFlips(all: seq<Event>) {
    forall i | 0 <= i < |all| && all[i].kind.Override? :: all[i].kind.on != LastOverride(all[..i], all[i].name)
  }

  /** The override events of a cache, oldest first. */
  ghost function OverridesOf(all: seq<Event>, c: CacheName): seq<bool> {
    if all == [] then []
    else
      var e := all[|all| - 1];
      OverridesOf(all[..|all| - 1], c) + if e.kind.Override? && e.name == c then [e.kind.on] else []
  }

  /** When each event flips, the events of a cache alternate: set, cleared, set and so on. */
  lemma {:induction false} OverridesAlternate(all: seq<Event>, c: CacheName)
    requires EachFlips(all)
    ensures forall k | 0 <= k < |OverridesOf(all, c)| :: OverridesOf(all, c)[k] <==> k % 2 == 0
    ensures LastOverride(all, c) <==> |OverridesOf(all, c)| % 2 == 1
  {
    if all != [] {
      var before := all[..|all| - 1];
      forall i | 0 <= i < |before|
        ensures before[..i] == all[..i]
      {
      }
      OverridesAlternate(before, c);
    }
  }

  /** The log of all events agrees with the override map. */
  ghost predicate Agrees(overrides: Flags, all: seq<Event>) {
    EachFlips(all) && forall c :: Overridden(overrides, c) == LastOverride(all, c)
  }

  /** The log after more events, which get the next indices. */
  ghost function Logged(all: seq<Event>, more: seq<Event>): seq<Event> {
    if more == [] then all
    else
      var before := Logged(all, more[..|more| - 1]);
      before + [more[|more| - 1].(index := |before|)]
  }

  lemma {:induction false} LoggedOne(all: seq<Event>, e: Event)
    ensures Logged(all, [e]) == all + [e.(index := |all|)]
  {
    assert [e][..0] == [] && Logged(all, []) == all;
  }

  lemma {:induction false} LoggedTwice(all: seq<Event>, first: seq<Event>, second: seq<Event>)
    ensures Logged(Logged(all, first), second) == Logged(all, first + second)
  {
    if second == [] {
      assert first + second == first;
    } else {
      var both := first + second;
      assert both[..|both| - 1] == first + second[..|second| - 1];
      LoggedTwice(all, first, second[..|second| - 1]);
    }
  }

  /** Events of others: the combiner alone logs overrides. */
  ghost predicate OfOthers(more: seq<Event>) {
    forall i | 0 <= i < |more| :: !more[i].kind.Override?
  }

  /** Events of other kinds leave the agreement as it was. */
  lemma {:induction false} OthersAgree(overrides: Flags, all: seq<Event>, more: seq<Event>)
    requires Agrees(overrides, all) && OfOthers(more)
    ensures Agrees(overrides, Logged(all, more))
  {
    if more != [] {
      var before := Logged(all, more[..|more| - 1]);
      OthersAgree(overrides, all, more[..|more| - 1]);
      ExtendFlips(before, more[|more| - 1].(index := |before|));
    }
  }

  lemma {:induction false} OverridesOfMore(all: seq<Event>, e: Event, c: CacheName)
    ensures OverridesOf(all + [e], c) == OverridesOf(all, c) + if e.kind.Override? && e.name == c then [e.kind.on] else []
  {
    assert (all + [e])[..|all|] == all;
  }

  lemma {:induction false} OverridesOfLogged(all: seq<Event>, more: seq<Event>, c: CacheName)
    ensures OverridesOf(Logged(all, more), c) == OverridesOf(all, c) + OverridesOf(more, c)
  {
    if more != [] {
      var before, e := Logged(all, more[..|more| - 1]), more[|more| - 1];
      OverridesOfLogged(all, more[..|more| - 1], c);
      OverridesOfMore(before, e.(index := |before|), c);
    }
  }

  lemma {:induction false} OthersHaveNone(more: seq<Event>, c: CacheName)
    requires OfOthers(more)
    ensures OverridesOf(more, c) == []
  {
    if more != [] {
      OthersHaveNone(more[..|more| - 1], c);
    }
  }

  lemma {:induction false} ExtendFlips(all: seq<Event>, e: Event)
    requires EachFlips(all)
    requires e.kind.Override? ==> e.kind.on != LastOverride(all, e.name)
    ensures EachFlips(all + [e])
    ensures forall c :: LastOverride(all + [e], c) == if e.kind.Override? && e.name == c then e.kind.on else LastOverride(all, c)
  {
    var all' := all + [e];
    assert all'[..|all|] == all;
    forall i | 0 <= i < |all'| && all'[i].kind.Override?
      ensures all'[i].kind.on != LastOverride(all'[..i], all'[i].name)
    {
      assert i < |all| ==> all'[..i] == all[..i];
    }
  }

  /** What the combiner reads of the peers in the turn of a cache: whether the last result of any was good, and the
      peers that it finds available and reporting the cache. Peers may move between these reads. */
  datatype View = View(anyUp: bool, online: set<MonitorName>) {
    predicate Online() {
      anyUp && online != {}
    }
  }

  /** The turn of a cache, with the events that others log before it, and between its decision and its own event. */
  datatype Turn = Turn(view: View, before: seq<Event>, between: seq<Event>) {
    ghost predicate Valid() {
      OfOthers(before) && OfOthers(between)
    }
  }

  /** The events of a turn: none if the override stays, and otherwise one of the cache after those in between. */
  ghost function EventsOf(overrides: Flags, c: CacheName, mine: bool, turn: Turn): seq<Event> {
    var available := mine || turn.view.Online();
    turn.before +
    if Overridden(overrides, c) == (available && !mine) then []
    else turn.between + [Event(c, Override(available && !mine), available, 0)]
  }

  /** A turn keeps the agreement: its own event comes exactly with a flip. */
  lemma {:induction false} TurnAgrees(flags: Flags, flags': Flags, all: seq<Event>, c: CacheName, mine: bool, turn: Turn)
    requires Agrees(flags, all) && turn.Valid()
    requires forall d :: Overridden(flags', d) == if d == c then (mine || turn.view.Online()) && !mine else Overridden(flags, d)
    ensures Agrees(flags', Logged(all, EventsOf(flags, c, mine, turn)))
  {
    var available := mine || turn.view.Online();
    OthersAgree(flags, all, turn.before);
    if Overridden(flags, c) == (available && !mine) {
      assert turn.before + [] == turn.before;
    } else {
      var e := Event(c, Override(available && !mine), available, 0);
      var now := Logged(Logged(all, turn.before), turn.between);
      OthersAgree(flags, Logged(all, turn.before), turn.between);
      ExtendFlips(now, e.(index := |now|));
      LoggedEvents(flags, all, c, mine, turn, e);
    }
  }

  lemma {:induction false} LoggedEvents(flags: Flags, all: seq<Event>, c: CacheName, mine: bool, turn: Turn, e: Event)
    requires var available := mine || turn.view.Online();
      Overridden(flags, c) != (available && !mine) && e == Event(c, Override(available && !mine), available, 0)
    ensures var now := Logged(Logged(all, turn.before), turn.between);
      Logged(all, EventsOf(flags, c, mine, turn)) == now + [e.(index := |now|)]
  {
    LoggedOne(Logged(Logged(all, turn.before), turn.between), e);
    LoggedTwice(Logged(all, turn.before), turn.between, [e]);
    LoggedTwice(all, turn.before, turn.between + [e]);
  }

  class StateCombiner {
    const events: ThreadsafeEvents
    const peerStates: PeersThreadsafe
    const combinedStates: Threadsafe
    var overrideMap: Flags

    ghost predicate Valid()
      reads this, events
    {
      events.Valid() && Agrees(overrideMap, events.all)
    }

    constructor (log: ThreadsafeEvents, peers: PeersThreadsafe, combined: Threadsafe)
      requires log.Valid() && OfOthers(log.all)
      ensures Valid() && events == log && peerStates == peers && combinedStates == combined && overrideMap == map[]
    {
      events, peerStates, combinedStates, overrideMap := log, peers, combined, map[];
      NoOverrides(log.all);
    }

    /** Other writers of the log. */
    method LogAll(more: seq<Event>)
      requires events.Valid()
      modifies events
      ensures events.Valid() && events.all == Logged(old(events.all), more)
    {
      for i := 0 to |more|
        invariant events.Valid() && events.all == Logged(old(events.all), more[..i])
      {
        assert more[..i + 1] == more[..i] + [more[i]];
        LoggedTwice(old(events.all), more[..i], [more[i]]);
        LoggedOne(events.all, more[i]);
        var _ := events.Add(more[i]);
      }
      assert more[..|more|] == more;
    }

    /** Combines one cache, whatever peers and other writers of the log do meanwhile: it is available if it is so
        locally or was found so on some peer; its override says that it is so only on a peer; and an event is
        added iff the override flips. */
    method CombineCacheState(c: CacheName, mine: bool, turn: Turn)
      requires Valid() && turn.Valid()
      modifies this, events, combinedStates`caches
      ensures Valid()
      ensures var available := mine || turn.view.Online();
        && combinedStates.caches == old(combinedStates.caches)[c := available]
        && Overridden(overrideMap, c) == (available && !mine)
        && (forall d | d != c :: Overridden(overrideMap, d) == old(Overridden(overrideMap, d)))
        && events.all == Logged(old(events.all), EventsOf(old(overrideMap), c, mine, turn))
    {
      ghost var flags, all := overrideMap, events.all;
      LogAll(turn.before);
      var available, changed := Decide(c, mine, turn.view);
      if changed {
        LogAll(turn.between);
        var e := Event(c, Override(available && !mine), available, 0);
        LoggedEvents(flags, all, c, mine, turn, e);
        var _ := events.Add(e);
      } else {
        assert turn.before + [] == turn.before;
      }
      TurnAgrees(flags, overrideMap, all, c, mine, turn);
      combinedStates.AddCache(c, available);
    }

    /** The availability of a cache, and whether that changes its override. What was read of the peers matters only
        when the cache is unavailable locally. */
    method Decide(c: CacheName, mine: bool, view: View) returns (available: bool, changed: bool)
      modifies this`overrideMap
      ensures available == (mine || view.Online())
      ensures changed == (old(Overridden(overrideMap, c)) != (available && !mine))
      ensures Overridden(overrideMap, c) == (available && !mine)
      ensures forall d | d != c :: Overridden(overrideMap, d) == old(Overridden(overrideMap, d))
    {
      changed, available := false, false;
      var override := c in overrideMap && overrideMap[c];
      if mine {
        available := true;
        if override {
          changed := true;
          overrideMap := overrideMap[c := false];
        }
      } else if !view.anyUp {
        if override {
          changed := true;
          overrideMap := overrideMap[c := false];
        }
      } else if view.online != {} {
        available := true;
        if !override {
          changed := true;
          overrideMap := overrideMap[c := true];
        }
      } else if override {
        changed := true;
        overrideMap := overrideMap[c := false];
      }
    }

    /** Reads the peers at one time. They are asked only when the last result of any was good, which never changes
        the answer. */
    method Look(c: CacheName, now: int) returns (view: View)
      ensures view.Online() <==> OnlineOnPeers(peerStates, now, c)
    {
      var anyUp := peerStates.HasAvailablePeers();
      var online := {};
      if anyUp {
        online := PeersWith(c, now);
      }
      view := View(anyUp, online);
    }

    /** The available peers which report a cache available. */
    method PeersWith(c: CacheName, now: int) returns (names: set<MonitorName>)
      ensures names != {} <==> OnlineOnPeers(peerStates, now, c)
    {
      names := {};
      var todo := peerStates.crStates.Keys;
      while todo != {}
        invariant todo <= peerStates.crStates.Keys
        invariant names == set p | p in peerStates.crStates && p !in todo && peerStates.GetPeerAvailability(p, now)
                                && CacheAvailable(peerStates.crStates[p].caches, c)
        decreases todo
      {
        var p :| p in todo;
        todo := todo - {p};
        if peerStates.GetPeerAvailability(p, now) && CacheAvailable(peerStates.crStates[p].caches, c) {
          names := names + {p};
        }
      }
      if OnlineOnPeers(peerStates, now, c) {
        var p :| p in peerStates.crStates && peerStates.GetPeerAvailability(p, now) && CacheAvailable(peerStates.crStates[p].caches, c);
        assert p in names;
      }
    }

    /** Removes the caches that are gone from the local states. */
    method PruneCombinedCaches(local: map<CacheName, bool>)
      modifies combinedStates`caches
      ensures combinedStates.caches == map c | c in old(combinedStates.caches) && c in local :: old(combinedStates.caches)[c]
    {
      var todo := combinedStates.caches.Keys;
      while todo != {}
        invariant todo <= old(combinedStates.caches.Keys)
        invariant combinedStates.caches ==
          map c | c in old(combinedStates.caches) && (c in local || c in todo) :: old(combinedStates.caches)[c]
        decreases todo
      {
        var c :| c in todo;
        todo := todo - {c};
        if c !in local {
          combinedStates.DeleteCache(c);
        }
      }
    }

    /** The cache part of a pass. */
    method CombineCaches(local: map<CacheName, bool>, turns: map<CacheName, Turn>)
      requires Valid() && TurnsOf(turns, local)
      modifies this, events, combinedStates`caches
      ensures Valid()
      ensures Passed(local, Up(turns), local.Keys, combinedStates.caches, old(overrideMap), overrideMap)
      ensures FlipsLogged(old(events.all), events.all, old(overrideMap), overrideMap)
    {
      ghost var flags, all, up := overrideMap, events.all, Up(turns);
      var todo := local.Keys;
      while todo != {}
        invariant Valid() && todo <= local.Keys
        invariant Passed(local, up, local.Keys - todo, combinedStates.caches, flags, overrideMap)
        invariant FlipsLogged(all, events.all, flags, overrideMap)
        decreases todo
      {
        var c :| c in todo;
        ghost var caches1, flags1, all1 := combinedStates.caches, overrideMap, events.all;
        CombineCacheState(c, local[c], turns[c]);
        PassStep(local, up, local.Keys - todo, c, caches1, combinedStates.caches, flags, flags1, overrideMap);
        FlipStep(all, all1, events.all, flags, flags1, overrideMap, c, local[c], turns[c]);
        assert local.Keys - (todo - {c}) == (local.Keys - todo) + {c};
        todo := todo - {c};
      }
      assert local.Keys - {} == local.Keys;
    }

    /** One pass over a snapshot of the local states, while peers move and others log events. Afterwards the combined
        caches are exactly the local ones, each available iff it is so locally or was found so on some peer; the
        override of each says that only a peer was found to have it; the log has one more override event for exactly
        the caches whose override the pass flipped; and the delivery services are combined. */
    method CombineCrStates(local: States, turns: map<CacheName, Turn>, views: DisabledLocations.Views,
                           ghost bags: DisabledLocations.Bags)
      requires Valid() && TurnsOf(turns, local.caches)
      requires DisabledLocations.Hold(bags) && DisabledLocations.AllKnown(views, bags)
      requires DisabledLocations.KnownHere(local.deliveryServices, bags)
      modifies this, events, combinedStates, bags.Keys
      ensures Valid() && DisabledLocations.Hold(bags)
      ensures Merged(local.caches, Up(turns), combinedStates.caches, old(overrideMap), overrideMap)
      ensures FlipsLogged(old(events.all), events.all, old(overrideMap), overrideMap)
      ensures local.deliveryServices.Keys <= combinedStates.deliveryServices.Keys
      ensures forall d | d in local.deliveryServices ::
        DisabledLocations.CombinedDS(combinedStates.deliveryServices[d], d, local.deliveryServices[d], DisabledLocations.At(views, d), bags)
    {
      CombineCaches(local.caches, turns);
      ghost var caches := combinedStates.caches;
      DisabledLocations.CombineDeliveryServices(local.deliveryServices, views, combinedStates, bags);
      PruneCombinedCaches(local.caches);
      PassMerges(local.caches, Up(turns), caches, combinedStates.caches, old(overrideMap), overrideMap);
    }

    /** A pass during which nothing else happens finds a cache on the peers iff some available peer reports it. */
    method LookAll(local: map<CacheName, bool>, now: int) returns (turns: map<CacheName, Turn>)
      ensures TurnsOf(turns, local)
      ensures forall c | c in local :: c in Up(turns) <==> OnlineOnPeers(peerStates, now, c)
    {
      turns := map[];
      var todo := local.Keys;
      while todo != {}
        invariant todo <= local.Keys && turns.Keys == local.Keys - todo
        invariant forall c | c in turns :: turns[c].Valid()
        invariant forall c | c in turns :: turns[c].view.Online() <==> OnlineOnPeers(peerStates, now, c)
        decreases todo
      {
        var c :| c in todo;
        todo := todo - {c};
        var view := Look(c, now);
        turns := turns[c := Turn(view, [], [])];
      }
    }
  }

  ghost predicate TurnsOf(turns: map<CacheName, Turn>, local: map<CacheName, bool>) {
    local.Keys <= turns.Keys && forall c | c in turns :: turns[c].Valid()
  }

  /** The caches that are found on some peer in their turn. */
  ghost function Up(turns: map<CacheName, Turn>): set<CacheName> {
    set c | c in turns && turns[c].view.Online()
  }

  // ---------- A pass, on values ----------

  /** The caches `done` are combined; the others are not touched. */
  ghost predicate Passed(local: map<CacheName, bool>, up: set<CacheName>, done: set<CacheName>,
                         caches: map<CacheName, bool>, flags0: Flags, flags: Flags)
    requires done <= local.Keys
  {
    && (forall c | c in done :: c in caches && caches[c] == (local[c] || c in up))
    && (forall c :: Overridden(flags, c) == if c in done then c in up && !local[c] else Overridden(flags0, c))
  }

  /** The combined caches are exactly the local ones, each available iff it is so locally or on a peer; and the override
      of each says that only a peer has it. */
  ghost predicate Merged(local: map<CacheName, bool>, up: set<CacheName>, caches: map<CacheName, bool>, flags0: Flags, flags: Flags) {
    && caches == (map c | c in local :: local[c] || c in up)
    && (forall c :: Overridden(flags, c) == if c in local then caches[c] && !local[c] else Overridden(flags0, c))
  }

  lemma {:induction false} PassMerges(local: map<CacheName, bool>, up: set<CacheName>, caches: map<CacheName, bool>,
                                      pruned: map<CacheName, bool>, flags0: Flags, flags: Flags)
    requires Passed(local, up, local.Keys, caches, flags0, flags)
    requires pruned == map c | c in caches && c in local :: caches[c]
    ensures Merged(local, up, pruned, flags0, flags)
  {
  }

  lemma {:induction false} PassStep(local: map<CacheName, bool>, up: set<CacheName>, done: set<CacheName>, c: CacheName,
                                    caches: map<CacheName, bool>, caches': map<CacheName, bool>, flags0: Flags,
                                    flags: Flags, flags': Flags)
    requires done <= local.Keys && c in local && c !in done
    requires Passed(local, up, done, caches, flags0, flags)
    requires caches' == caches[c := local[c] || c in up]
    requires forall d :: Overridden(flags', d) == if d == c then c in up && !local[c] else Overridden(flags, d)
    ensures Passed(local, up, done + {c}, caches', flags0, flags')
  {
  }

  /** The event that a change of an override makes, as its new value. */
  ghost function Flip(before: bool, after: bool): seq<bool> {
    if before == after then [] else [after]
  }

  /** The log has one more override event for exactly the caches whose override has changed. */
  ghost predicate FlipsLogged(all: seq<Event>, all': seq<Event>, flags: Flags, flags': Flags) {
    forall c :: FlipLogged(all, all', flags, flags', c)
  }

  ghost predicate FlipLogged(all: seq<Event>, all': seq<Event>, flags: Flags, flags': Flags, c: CacheName) {
    OverridesOf(all', c) == OverridesOf(all, c) + Flip(Overridden(flags, c), Overridden(flags', c))
  }

  lemma {:induction false} TurnOverrides(flags: Flags, c: CacheName, mine: bool, turn: Turn, d: CacheName)
    requires turn.Valid()
    ensures OverridesOf(EventsOf(flags, c, mine, turn), d)
      == if d == c then Flip(Overridden(flags, c), (mine || turn.view.Online()) && !mine) else []
  {
    OthersHaveNone(turn.before, d);
    var available := mine || turn.view.Online();
    if Overridden(flags, c) == (available && !mine) {
      assert turn.before + [] == turn.before;
    } else {
      var e := Event(c, Override(available && !mine), available, 0);
      OthersHaveNone(turn.before + turn.between, d);
      OverridesOfMore(turn.before + turn.between, e, d);
      assert EventsOf(flags, c, mine, turn) == turn.before + turn.between + [e];
    }
  }

  lemma {:induction false} FlipStep(all0: seq<Event>, all1: seq<Event>, all2: seq<Event>, flags0: Flags, flags1: Flags,
                                    flags2: Flags, c: CacheName, mine: bool, turn: Turn)
    requires FlipsLogged(all0, all1, flags0, flags1) && turn.Valid()
    requires all2 == Logged(all1, EventsOf(flags1, c, mine, turn))
    requires Overridden(flags1, c) == Overridden(flags0, c)
    requires forall d :: Overridden(flags2, d) == if d == c then (mine || turn.view.Online()) && !mine else Overridden(flags1, d)
    ensures FlipsLogged(all0, all2, flags0, flags2)
  {
    forall d
      ensures FlipLogged(all0, all2, flags0, flags2, d)
    {
      FlipStepOf(all0, all1, all2, flags0, flags1, flags2, c, mine, turn, d);
    }
  }

  lemma {:induction false} FlipStepOf(all0: seq<Event>, all1: seq<Event>, all2: seq<Event>, flags0: Flags,
                                      flags1: Flags, flags2: Flags, c: CacheName, mine: bool, turn: Turn, d: CacheName)
    requires FlipLogged(all0, all1, flags0, flags1, d) && turn.Valid()
    requires all2 == Logged(all1, EventsOf(flags1, c, mine, turn))
    requires Overridden(flags1, c) == Overridden(flags0, c)
    requires Overridden(flags2, d) == if d == c then (mine || turn.view.Online()) && !mine else Overridden(flags1, d)
    ensures FlipLogged(all0, all2, flags0, flags2, d)
  {
    OverridesOfLogged(all1, EventsOf(flags1, c, mine, turn), d);
    TurnOverrides(flags1, c, mine, turn, d);
  }

  // ---------- Runs ----------

  /** What happens around the combiner: passes over snapshots of the local states, during which anything may happen or
      nothing; results and configuration of peers; and events of others. */
  datatype Step =
    | Pass(local: map<CacheName, bool>, turns: map<CacheName, Turn>)
    | PassAtOnce(local: map<CacheName, bool>, now: int)
    | PeerResult(result: Peers.Result)
    | NewPeers(peers: set<MonitorName>)
    | NewTimeout(timeout: int)
    | OtherEvents(events: seq<Event>)

  ghost predicate Possible(step: Step) {
    && (step.Pass? ==> TurnsOf(step.turns, step.local))
    && (step.OtherEvents? ==> OfOthers(step.events))
  }

  /** In every run, from an empty override map on, the override events of each cache alternate, starting
      with a set; and the last of them says whether the cache is overridden now. */
  method Run(combiner: StateCombiner, steps: seq<Step>)
    requires combiner.Valid() && combiner.peerStates.Valid()
    requires forall i | 0 <= i < |steps| :: Possible(steps[i])
    modifies combiner, combiner.events, combiner.peerStates, combiner.combinedStates`caches
    ensures combiner.Valid() && combiner.peerStates.Valid()
    ensures forall c, k | 0 <= k < |OverridesOf(combiner.events.all, c)| ::
      OverridesOf(combiner.events.all, c)[k] <==> k % 2 == 0
    ensures forall c :: Overridden(combiner.overrideMap, c) <==> |OverridesOf(combiner.events.all, c)| % 2 == 1
  {
    for i := 0 to |steps|
      invariant combiner.Valid() && combiner.peerStates.Valid()
    {
      assert Possible(steps[i]);
      match steps[i]
      case Pass(local, turns) =>
        combiner.CombineCaches(local, turns);
        combiner.PruneCombinedCaches(local);
      case PassAtOnce(local, now) =>
        var turns := combiner.LookAll(local, now);
        combiner.CombineCaches(local, turns);
        combiner.PruneCombinedCaches(local);
      case PeerResult(result) => combiner.peerStates.Set(result);
      case NewPeers(peers) => combiner.peerStates.SetPeers(peers);
      case NewTimeout(timeout) => combiner.peerStates.SetTimeout(timeout);
      case OtherEvents(more) =>
        OthersAgree(combiner.overrideMap, combiner.events.all, more);
        combiner.LogAll(more);
    }
    forall c
      ensures forall k | 0 <= k < |OverridesOf(combiner.events.all, c)| ::
        OverridesOf(combiner.events.all, c)[k] <==> k % 2 == 0
      ensures Overridden(combiner.overrideMap, c) <==> |OverridesOf(combiner.events.all, c)| % 2 == 1
    {
      OverridesAlternate(combiner.events.all, c);
    }
  }

  lemma {:induction false} NoOverrides(all: seq<Event>)
    requires OfOthers(all)
    ensures Agrees(map[], all)
  {
    if all != [] {
      NoOverrides(all[..|all| - 1]);
    }
  }
}
