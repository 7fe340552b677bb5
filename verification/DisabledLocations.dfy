/** Locations in which a delivery service has no available cache: found locally, and intersected with
    those of the peers (`traffic_monitor/health/cache.go`, `traffic_monitor/manager/statecombiner.go`). */
module DisabledLocations {
  import opened Core
  import opened CRStates
  import opened Sorting

  // ---------- Local ----------

  /** A location is disabled iff it holds a server of the delivery service and none of its servers of
      the delivery service is available. A server without a state is not available. */
  ghost predicate Disabled(g: CacheGroupName, servers: seq<CacheName>, caches: map<CacheName, bool>,
                           cachegroups: map<CacheName, CacheGroupName>)
  {
    && (exists s :: s in servers && s in cachegroups && cachegroups[s] == g)
    && (forall s :: s in servers && s in cachegroups && cachegroups[s] == g ==> !CacheAvailable(caches, s))
  }

  /** The states of the servers of the delivery service. */
  method ServerAvailability(caches: map<CacheName, bool>, servers: seq<CacheName>) returns (states: map<CacheName, bool>)
    ensures forall s :: s in states <==> s in servers
    ensures forall s | s in states :: states[s] == CacheAvailable(caches, s)
  {
    states := map[];
    for i := 0 to |servers|
      invariant forall s :: s in states <==> s in servers[..i]
      invariant forall s | s in states :: states[s] == CacheAvailable(caches, s)
    {
      states := states[servers[i] := CacheAvailable(caches, servers[i])];
    }
    assert servers[..|servers|] == servers;
  }

  /** Whether a cachegroup has an available server among the given ones. */
  method CachegroupAvailability(states: map<CacheName, bool>, cachegroups: map<CacheName, CacheGroupName>)
      returns (avail: map<CacheGroupName, bool>)
    ensures forall g :: g in avail <==> exists s :: s in states && s in cachegroups && cachegroups[s] == g
    ensures forall g | g in avail ::
      avail[g] <==> exists s :: s in states && s in cachegroups && cachegroups[s] == g && states[s]
  {
    avail := map[];
    var todo := states.Keys;
    while todo != {}
      invariant todo <= states.Keys
      invariant forall g :: g in avail <==> exists s :: s in states && s !in todo && s in cachegroups && cachegroups[s] == g
      invariant forall g | g in avail ::
        avail[g] <==> exists s :: s in states && s !in todo && s in cachegroups && cachegroups[s] == g && states[s]
      decreases todo
    {
      var cache :| cache in todo;
      todo := todo - {cache};
      if cache !in cachegroups {
        continue;
      }
      var cg := cachegroups[cache];
      if cg !in avail || states[cache] {
        avail := avail[cg := states[cache]];
      }
    }
  }

  method GetDisabledLocations(servers: seq<CacheName>, caches: map<CacheName, bool>,
                              cachegroups: map<CacheName, CacheGroupName>)
      returns (disabled: seq<CacheGroupName>)
    ensures forall g :: g in disabled <==> Disabled(g, servers, caches, cachegroups)
    ensures forall i, j | 0 <= i < j < |disabled| :: disabled[i] != disabled[j]
  {
    var states := ServerAvailability(caches, servers);
    var avail := CachegroupAvailability(states, cachegroups);
    disabled := [];
    var todo := avail.Keys;
    while todo != {}
      invariant todo <= avail.Keys
      invariant forall g :: g in disabled <==> g in avail && g !in todo && !avail[g]
      invariant forall i, j | 0 <= i < j < |disabled| :: disabled[i] != disabled[j]
      decreases todo
    {
      var cg :| cg in todo;
      todo := todo - {cg};
      if !avail[cg] {
        assert forall i | 0 <= i < |disabled| :: disabled[i] in disabled;
        disabled := disabled + [cg];
      }
    }
  }

  // ---------- Combined with the peers ----------

  /** In a sorted sequence, bisection finds an element that is there. */
  lemma {:induction false} NotFound(b: seq<string>, s: string, i: nat)
    requires Sorted(b) && i <= |b|
    requires forall k | 0 <= k < i :: Less(b[k], s)
    requires forall k | i <= k < |b| :: !Less(b[k], s)
    requires i == |b| || b[i] != s
    ensures s !in b
  {
    LessIsTotal(s, s);
    if i < |b| {
      LessIsTotal(b[i], s);
    }
  }

  type Locations = multiset<CacheGroupName>

  /** The elements of `a` that are also in `b`, as often as in `a`. */
  ghost predicate Both(c: Locations, a: Locations, b: Locations) {
    forall g :: c[g] == if g in b then a[g] else 0
  }

  /** Looks up each element of one sorted slice in another. */
  method Common(a: array<CacheGroupName>, b: array<CacheGroupName>) returns (c: seq<CacheGroupName>)
    requires Sorted(a[..]) && Sorted(b[..])
    ensures Sorted(c)
    ensures forall g :: multiset(c)[g] == if g in b[..] then multiset(a[..])[g] else 0
  {
    c := [];
    ghost var sa, sb := a[..], b[..];
    for k := 0 to a.Length
      invariant Sorted(c) && forall x, y | 0 <= x < |c| && k <= y < |sa| :: !Less(sa[y], c[x])
      invariant forall g :: multiset(c)[g] == if g in sb then multiset(sa[..k])[g] else 0
    {
      var s := a[k];
      var i := Search(b, s);
      assert sa[..k + 1] == sa[..k] + [s] && s == sa[k];
      if i < b.Length && b[i] == s {
        assert s == sb[i];
        c := c + [s];
      } else {
        NotFound(sb, s, i);
      }
    }
    assert sa[..|sa|] == sa;
  }

  /** The elements of `a` that are in `b`, with their multiplicities in `a`, in sorted order. Both
      slices are sorted in place, and only permuted. */
  method Intersection(a: array<CacheGroupName>, b: array<CacheGroupName>) returns (c: array<CacheGroupName>)
    modifies a, b
    ensures fresh(c) && Sorted(c[..]) && Sorted(a[..]) && Sorted(b[..])
    ensures multiset(a[..]) == old(multiset(a[..])) && multiset(b[..]) == old(multiset(b[..]))
    ensures Both(multiset(c[..]), old(multiset(a[..])), old(multiset(b[..])))
  {
    Sort(a);
    Sort(b);
    var common := Common(a, b);
    c := new CacheGroupName[|common|](j requires 0 <= j < |common| => common[j]);
    assert c[..] == common;
    assert forall g :: g in b[..] <==> g in multiset(b[..]);
  }

  /** Whether a peer lists the delivery service. */
  predicate Lists(peer: States, d: DeliveryServiceName) {
    d in peer.deliveryServices
  }

  type Peers = map<MonitorName, States>

  /** What the slices of the local and peer states hold. */
  type Bags = map<array<CacheGroupName>, Locations>

  ghost predicate Hold(bags: Bags)
    reads bags.Keys
  {
    forall x | x in bags :: multiset(x[..]) == bags[x]
  }

  ghost predicate Known(peers: Peers, bags: Bags) {
    forall p, d | p in peers && Lists(peers[p], d) :: peers[p].deliveryServices[d].disabledLocations in bags
  }

  /** The locations that each peer which lists the delivery service has for it. */
  ghost function Listed(peers: Peers, d: DeliveryServiceName, bags: Bags): map<MonitorName, Locations>
    requires Known(peers, bags)
  {
    map p | p in peers && Lists(peers[p], d) :: bags[peers[p].deliveryServices[d].disabledLocations]
  }

  /** How often a location is in the combined list: as often as in the local one if every peer but those
      in `todo` also has it, and not at all otherwise. */
  ghost predicate Combined(result: Locations, mine: Locations, listed: map<MonitorName, Locations>, todo: set<MonitorName>) {
    forall g :: result[g] == if Agreed(g, listed, todo) then mine[g] else 0
  }

  ghost predicate Agreed(g: CacheGroupName, listed: map<MonitorName, Locations>, todo: set<MonitorName>) {
    forall p | p in listed && p !in todo :: g in listed[p]
  }

  lemma {:induction false} CombinedStep(before: Locations, after: Locations, mine: Locations,
                                        listed: map<MonitorName, Locations>, todo: set<MonitorName>, p: MonitorName)
    requires p in todo && Combined(before, mine, listed, todo)
    requires p !in listed ==> after == before
    requires p in listed ==> Both(after, before, listed[p])
    ensures Combined(after, mine, listed, todo - {p})
  {
    forall g
      ensures Agreed(g, listed, todo - {p}) <==> Agreed(g, listed, todo) && (p in listed ==> g in listed[p])
    {
    }
  }

  /** Some peer but those in `todo` lists the delivery service as available. */
  ghost predicate AvailableAt(peers: Peers, d: DeliveryServiceName, todo: set<MonitorName>) {
    exists p :: p in peers && p !in todo && Lists(peers[p], d) && peers[p].deliveryServices[d].isAvailable
  }

  /** The slices that are sorted when a delivery service is combined with all peers but those in `todo`: those of the
      peers that list it and, if there are any, the local one. */
  ghost function Touched(d: DeliveryServiceName, mine: DSState, peers: Peers, todo: set<MonitorName>): set<array<CacheGroupName>> {
    (set p | p in peers && p !in todo && Lists(peers[p], d) :: peers[p].deliveryServices[d].disabledLocations)
    + if exists p :: p in peers && p !in todo && Lists(peers[p], d) then {mine.disabledLocations} else {}
  }

  /** The states of the peers are read anew for each delivery service, and may have changed in between. */
  type Views = map<DeliveryServiceName, Peers>

  function At(views: Views, d: DeliveryServiceName): Peers {
    if d in views then views[d] else map[]
  }

  ghost predicate AllKnown(views: Views, bags: Bags) {
    forall d | d in views :: Known(views[d], bags)
  }

  /** All slices that are sorted when the delivery services but those in `todo` are combined. */
  ghost function AllTouched(local: map<DeliveryServiceName, DSState>, views: Views, todo: set<DeliveryServiceName>): set<array<CacheGroupName>> {
    set d, x | d in local && d !in todo && x in Touched(d, local[d], At(views, d), {}) :: x
  }

  lemma {:induction false} AllTouchedStep(local: map<DeliveryServiceName, DSState>, views: Views,
                                          todo: set<DeliveryServiceName>, d: DeliveryServiceName)
    requires d in local && d in todo
    ensures AllTouched(local, views, todo - {d}) == AllTouched(local, views, todo) + Touched(d, local[d], At(views, d), {})
  {
  }

  type Slices = map<array<CacheGroupName>, seq<CacheGroupName>>

  ghost function Contents(slices: set<array<CacheGroupName>>): Slices
    reads slices
  {
    map x | x in slices :: x[..]
  }

  /** The touched slices are sorted now, and the others are as they were. */
  ghost predicate OnlySorted(was: Slices, now: Slices, touched: set<array<CacheGroupName>>) {
    && now.Keys == was.Keys
    && forall x | x in was :: if x in touched then Sorted(now[x]) else now[x] == was[x]
  }

  lemma {:induction false} SortedFurther(was: Slices, mid: Slices, now: Slices, touched: set<array<CacheGroupName>>,
                                         more: set<array<CacheGroupName>>)
    requires OnlySorted(was, mid, touched) && OnlySorted(mid, now, more)
    ensures OnlySorted(was, now, touched + more)
  {
  }

  lemma {:induction false} TouchedStep(d: DeliveryServiceName, mine: DSState, peers: Peers, todo: set<MonitorName>, p: MonitorName)
    requires p in todo && p in peers
    ensures Touched(d, mine, peers, todo - {p}) == Touched(d, mine, peers, todo) +
      if Lists(peers[p], d) then {mine.disabledLocations, peers[p].deliveryServices[d].disabledLocations} else {}
  {
    forall x | x in Touched(d, mine, peers, todo - {p})
      ensures x in Touched(d, mine, peers, todo) ||
        (Lists(peers[p], d) && x in {mine.disabledLocations, peers[p].deliveryServices[d].disabledLocations})
    {
      if x != mine.disabledLocations {
        var q :| q in peers && q !in todo - {p} && Lists(peers[q], d) && x == peers[q].deliveryServices[d].disabledLocations;
        assert q != p ==> q !in todo;
      } else if !(Lists(peers[p], d)) {
        var q :| q in peers && q !in todo - {p} && Lists(peers[q], d);
        assert q !in todo;
      }
    }
    if Lists(peers[p], d) {
      assert p !in todo - {p};
    }
    forall x | x in Touched(d, mine, peers, todo)
      ensures x in Touched(d, mine, peers, todo - {p})
    {
      if q :| q in peers && q !in todo && Lists(peers[q], d) && x == peers[q].deliveryServices[d].disabledLocations {
        assert q !in todo - {p};
      } else {
        var q :| q in peers && q !in todo && Lists(peers[q], d);
        assert q !in todo - {p};
      }
    }
  }

  /** One peer more: later ones are combined with a slice of the pass, not with the local one. */
  lemma {:induction false} SortedStep(was: Slices, mid: Slices, now: Slices, ds: DSState, bag: Locations,
                                      d: DeliveryServiceName, mine: DSState, peers: Peers, bags: Bags,
                                      todo: set<MonitorName>, p: MonitorName)
    requires Known(peers, bags) && mine.disabledLocations in bags && p in todo && p in peers && was.Keys == bags.Keys
    requires Visited(ds, bag, d, mine, peers, bags, todo) && OnlySorted(was, mid, Touched(d, mine, peers, todo))
    requires ds.disabledLocations == mine.disabledLocations || ds.disabledLocations !in bags
    requires if Lists(peers[p], d) then OnlySorted(mid, now, {ds.disabledLocations, peers[p].deliveryServices[d].disabledLocations})
             else now == mid
    ensures OnlySorted(was, now, Touched(d, mine, peers, todo - {p}))
  {
    TouchedStep(d, mine, peers, todo, p);
    if Lists(peers[p], d) {
      SortedFurther(was, mid, now, Touched(d, mine, peers, todo), {ds.disabledLocations, peers[p].deliveryServices[d].disabledLocations});
      if ds.disabledLocations != mine.disabledLocations {
        var q :| q in Listed(peers, d, bags) && q !in todo;
        assert mine.disabledLocations in Touched(d, mine, peers, todo);
      }
    }
  }

  /** What one peer that lists the delivery service does to its combined state. */
  method CombinePeer(ds: DSState, theirs: DSState, ghost bags: Bags) returns (ds': DSState)
    requires Hold(bags) && theirs.disabledLocations in bags
    modifies ds.disabledLocations, theirs.disabledLocations
    ensures Hold(bags)
    ensures ds'.isAvailable == (ds.isAvailable || theirs.isAvailable)
    ensures fresh(ds'.disabledLocations) && Sorted(ds'.disabledLocations[..])
    ensures OnlySorted(old(Contents(bags.Keys)), Contents(bags.Keys), {ds.disabledLocations, theirs.disabledLocations})
    ensures Both(multiset(ds'.disabledLocations[..]), old(multiset(ds.disabledLocations[..])), bags[theirs.disabledLocations])
  {
    ds' := ds;
    if theirs.isAvailable {
      ds' := ds'.(isAvailable := true);
    }
    var c := Intersection(ds'.disabledLocations, theirs.disabledLocations);
    ds' := ds'.(disabledLocations := c);
  }

  /** The combined state of a delivery service: available if the local monitor or any peer that lists it
      says so, with a location disabled only if all of them agree. */
  ghost predicate CombinedDS(ds: DSState, d: DeliveryServiceName, mine: DSState, peers: Peers, bags: Bags)
    requires Known(peers, bags) && mine.disabledLocations in bags
    reads ds.disabledLocations
  {
    && (ds.isAvailable <==> mine.isAvailable || AvailableAt(peers, d, {}))
    && Combined(multiset(ds.disabledLocations[..]), bags[mine.disabledLocations], Listed(peers, d, bags), {})
  }

  /** The state of a delivery service, whose slice holds `bag`, when all peers but those in `todo` were visited. */
  ghost predicate Visited(ds: DSState, bag: Locations, d: DeliveryServiceName, mine: DSState, peers: Peers, bags: Bags,
                          todo: set<MonitorName>)
    requires Known(peers, bags) && mine.disabledLocations in bags
  {
    && (ds.isAvailable <==> mine.isAvailable || AvailableAt(peers, d, todo))
    && Combined(bag, bags[mine.disabledLocations], Listed(peers, d, bags), todo)
    && (Listed(peers, d, bags).Keys <= todo <==> ds.disabledLocations == mine.disabledLocations)
  }

  lemma {:induction false} VisitStep(ds: DSState, ds': DSState, bag: Locations, bag': Locations, d: DeliveryServiceName,
                                     mine: DSState, peers: Peers, bags: Bags, todo: set<MonitorName>, p: MonitorName)
    requires Known(peers, bags) && mine.disabledLocations in bags && p in todo && p in peers
    requires Visited(ds, bag, d, mine, peers, bags, todo)
    requires !Lists(peers[p], d) ==> ds' == ds && bag' == bag
    requires Lists(peers[p], d) ==>
      && ds'.isAvailable == (ds.isAvailable || peers[p].deliveryServices[d].isAvailable)
      && ds'.disabledLocations != mine.disabledLocations
      && Both(bag', bag, bags[peers[p].deliveryServices[d].disabledLocations])
    ensures Visited(ds', bag', d, mine, peers, bags, todo - {p})
  {
    CombinedStep(bag, bag', bags[mine.disabledLocations], Listed(peers, d, bags), todo, p);
    if AvailableAt(peers, d, todo - {p}) {
      var q :| q in peers && q !in todo - {p} && Lists(peers[q], d) && peers[q].deliveryServices[d].isAvailable;
      assert q != p ==> q !in todo;
    }
  }

  /** A delivery service that is being combined with its peers; those in `todo` are still to come. */
  ghost predicate Combining(ds: DSState, d: DeliveryServiceName, mine: DSState, peers: Peers, bags: Bags,
                            todo: set<MonitorName>, was: Slices)
    requires Known(peers, bags) && mine.disabledLocations in bags
    reads bags.Keys, ds.disabledLocations
  {
    && Hold(bags) && was.Keys == bags.Keys && OnlySorted(was, Contents(bags.Keys), Touched(d, mine, peers, todo))
    && Visited(ds, multiset(ds.disabledLocations[..]), d, mine, peers, bags, todo)
    && (ds.disabledLocations == mine.disabledLocations || (ds.disabledLocations !in bags && Sorted(ds.disabledLocations[..])))
  }

  lemma {:induction false} StartsCombining(d: DeliveryServiceName, mine: DSState, peers: Peers, bags: Bags)
    requires Hold(bags) && Known(peers, bags) && mine.disabledLocations in bags
    ensures Combining(mine, d, mine, peers, bags, peers.Keys, Contents(bags.Keys))
  {
    assert Touched(d, mine, peers, peers.Keys) == {};
  }

  method VisitPeer(ds: DSState, d: DeliveryServiceName, mine: DSState, peers: Peers, ghost bags: Bags,
                   ghost todo: set<MonitorName>, p: MonitorName, ghost was: Slices) returns (ds': DSState)
    requires Known(peers, bags) && mine.disabledLocations in bags && p in todo && p in peers
    requires Combining(ds, d, mine, peers, bags, todo, was)
    modifies bags.Keys, ds.disabledLocations
    ensures Combining(ds', d, mine, peers, bags, todo - {p}, was)
    ensures ds'.disabledLocations == ds.disabledLocations || fresh(ds'.disabledLocations)
  {
    ds' := ds;
    ghost var bag, mid := multiset(ds.disabledLocations[..]), Contents(bags.Keys);
    if Lists(peers[p], d) {
      ds' := CombinePeer(ds, peers[p].deliveryServices[d], bags);
    }
    VisitStep(ds, ds', bag, multiset(ds'.disabledLocations[..]), d, mine, peers, bags, todo, p);
    SortedStep(was, mid, Contents(bags.Keys), ds, bag, d, mine, peers, bags, todo, p);
  }

  /** Combines the local state of a delivery service with that of every peer which lists it, in any
      order. The slices of the local and peer states are sorted, and otherwise keep their elements. */
  method CombineDSState(d: DeliveryServiceName, mine: DSState, peers: Peers, ghost bags: Bags) returns (ds: DSState)
    requires Hold(bags) && Known(peers, bags) && mine.disabledLocations in bags
    modifies bags.Keys
    ensures Hold(bags) && CombinedDS(ds, d, mine, peers, bags)
    ensures if Listed(peers, d, bags) == map[] then ds.disabledLocations == mine.disabledLocations
            else fresh(ds.disabledLocations) && Sorted(ds.disabledLocations[..])
    ensures OnlySorted(old(Contents(bags.Keys)), Contents(bags.Keys), Touched(d, mine, peers, {}))
  {
    ds := mine;
    ghost var was := Contents(bags.Keys);
    StartsCombining(d, mine, peers, bags);
    var todo := peers.Keys;
    while todo != {}
      invariant todo <= peers.Keys && Combining(ds, d, mine, peers, bags, todo, was)
      invariant ds.disabledLocations == mine.disabledLocations || fresh(ds.disabledLocations)
      decreases todo
    {
      var p :| p in todo;
      ds := VisitPeer(ds, d, mine, peers, bags, todo, p, was);
      todo := todo - {p};
    }
  }

  /** Some peer has the delivery service, with the given state. */
  ghost predicate IsThere(views: Views, d: DeliveryServiceName, p: MonitorName, ds: DSState) {
    && d in views && p in views[d] && d in views[d][p].deliveryServices && views[d][p].deliveryServices[d] == ds
  }

  /** Told from the peers: a combined delivery service is available iff it is so locally or at some peer that has it; and
      a location stays on its list iff all peers that have the service have the location too. */
  lemma {:induction false} CombinedIff(ds: DSState, d: DeliveryServiceName, mine: DSState, views: Views, bags: Bags)
    requires AllKnown(views, bags) && Hold(bags) && mine.disabledLocations in bags
    requires CombinedDS(ds, d, mine, At(views, d), bags)
    ensures ds.isAvailable <==> mine.isAvailable || exists p, theirs :: IsThere(views, d, p, theirs) && theirs.isAvailable
    ensures forall g :: g in ds.disabledLocations[..] <==>
      && g in mine.disabledLocations[..]
      && forall p, theirs | IsThere(views, d, p, theirs) :: g in theirs.disabledLocations[..]
  {
    var peers := At(views, d);
    if AvailableAt(peers, d, {}) {
      var p :| p in peers && Lists(peers[p], d) && peers[p].deliveryServices[d].isAvailable;
      assert IsThere(views, d, p, peers[p].deliveryServices[d]);
    }
    if p, theirs :| IsThere(views, d, p, theirs) && theirs.isAvailable {
      assert p in peers && Lists(peers[p], d);
    }
    forall g
      ensures Agreed(g, Listed(peers, d, bags), {})
        <==> forall p, theirs | IsThere(views, d, p, theirs) :: g in theirs.disabledLocations[..]
    {
      LocationAgreed(d, views, bags, g);
    }
    forall g
      ensures g in ds.disabledLocations[..] <==> g in mine.disabledLocations[..] && Agreed(g, Listed(peers, d, bags), {})
    {
      assert g in ds.disabledLocations[..] <==> multiset(ds.disabledLocations[..])[g] > 0;
      assert g in mine.disabledLocations[..] <==> bags[mine.disabledLocations][g] > 0;
    }
  }

  lemma {:induction false} LocationAgreed(d: DeliveryServiceName, views: Views, bags: Bags, g: CacheGroupName)
    requires AllKnown(views, bags) && Hold(bags)
    ensures Agreed(g, Listed(At(views, d), d, bags), {})
      <==> forall p, theirs | IsThere(views, d, p, theirs) :: g in theirs.disabledLocations[..]
  {
    var peers := At(views, d);
    forall p, theirs | IsThere(views, d, p, theirs)
      ensures p in Listed(peers, d, bags) && (g in Listed(peers, d, bags)[p] <==> g in theirs.disabledLocations[..])
    {
      assert Lists(peers[p], d) && theirs.disabledLocations in bags;
    }
    forall p | p in Listed(peers, d, bags)
      ensures IsThere(views, d, p, peers[p].deliveryServices[d])
    {
    }
  }

  /** What a slice holds now: the combined slices are either those of the local states or new ones. */
  ghost predicate CombinedInto(ds: DSState, d: DeliveryServiceName, mine: DSState, peers: Peers, bags: Bags, bag: Locations)
    requires Known(peers, bags) && mine.disabledLocations in bags
  {
    && (ds.isAvailable <==> mine.isAvailable || AvailableAt(peers, d, {}))
    && Combined(bag, bags[mine.disabledLocations], Listed(peers, d, bags), {})
    && (ds.disabledLocations in bags ==> bag == bags[ds.disabledLocations])
  }

  /** The delivery services but those in `todo` are combined; `made` are the slices made so far. */
  ghost predicate CombiningAll(now: map<DeliveryServiceName, DSState>, before: map<DeliveryServiceName, DSState>, made: Bags,
                               todo: set<DeliveryServiceName>, local: map<DeliveryServiceName, DSState>, views: Views,
                               bags: Bags, was: Slices)
    requires AllKnown(views, bags) && KnownHere(local, bags)
    reads bags.Keys, made.Keys
  {
    && Hold(bags) && Hold(made) && made.Keys !! bags.Keys && AllCombined(now, before, made, todo, local, views, bags)
    && OnlySorted(was, Contents(bags.Keys), AllTouched(local, views, todo))
  }

  ghost predicate KnownHere(local: map<DeliveryServiceName, DSState>, bags: Bags) {
    forall d | d in local :: local[d].disabledLocations in bags
  }

  /** A slice that is not one of the local states was made by the pass. */
  lemma {:induction false} HoldMore(ds: DSState, d: DeliveryServiceName, mine: DSState, peers: Peers, bags: Bags, made: Bags)
      returns (made': Bags)
    requires Hold(bags) && Hold(made) && made.Keys !! bags.Keys && Known(peers, bags) && mine.disabledLocations in bags
    requires CombinedDS(ds, d, mine, peers, bags) && ds.disabledLocations !in made
    ensures Hold(made') && made'.Keys !! bags.Keys && IsCombined(ds, d, mine, peers, bags, made') && More(made, made')
    ensures forall x | x in made' && x !in made :: x == ds.disabledLocations && x !in bags
  {
    var bag := multiset(ds.disabledLocations[..]);
    made' := if ds.disabledLocations in bags then made else made[ds.disabledLocations := bag];
    assert HoldsBag(ds.disabledLocations, bag, made', bags) && CombinedInto(ds, d, mine, peers, bags, bag);
  }

  method CombineOne(d: DeliveryServiceName, local: map<DeliveryServiceName, DSState>, views: Views, ghost bags: Bags,
                    ghost made: Bags, ghost now: map<DeliveryServiceName, DSState>,
                    ghost before: map<DeliveryServiceName, DSState>, ghost todo: set<DeliveryServiceName>, ghost was: Slices)
      returns (ds: DSState, ghost made': Bags)
    requires AllKnown(views, bags) && KnownHere(local, bags) && d in local && d in todo
    requires CombiningAll(now, before, made, todo, local, views, bags, was)
    modifies bags.Keys
    ensures CombiningAll(now[d := ds], before, made', todo - {d}, local, views, bags, was) && fresh(made'.Keys - made.Keys)
  {
    ghost var mid := Contents(bags.Keys);
    ds := CombineDSState(d, local[d], At(views, d), bags);
    made' := HoldMore(ds, d, local[d], At(views, d), bags, made);
    CombineStep(now, before, made, made', todo, local, views, bags, d, ds);
    AllTouchedStep(local, views, todo, d);
    SortedFurther(was, mid, Contents(bags.Keys), AllTouched(local, views, todo), Touched(d, local[d], At(views, d), {}));
  }

  /** Combines all delivery services of the local states, in any order. Those which are gone from the local
      states stay in the combined ones as they were: unlike caches, they are not pruned. */
  method CombineDeliveryServices(local: map<DeliveryServiceName, DSState>, views: Views, combinedStates: Threadsafe,
                                 ghost bags: Bags)
    requires Hold(bags) && AllKnown(views, bags) && KnownHere(local, bags)
    modifies combinedStates`deliveryServices, bags.Keys
    ensures Hold(bags)
    ensures combinedStates.deliveryServices.Keys == old(combinedStates.deliveryServices.Keys) + local.Keys
    ensures forall d | d in local :: CombinedDS(combinedStates.deliveryServices[d], d, local[d], At(views, d), bags)
    ensures forall d | d in old(combinedStates.deliveryServices) && d !in local ::
      combinedStates.deliveryServices[d] == old(combinedStates.deliveryServices[d])
    ensures OnlySorted(old(Contents(bags.Keys)), Contents(bags.Keys), AllTouched(local, views, {}))
  {
    var todo := local.Keys;
    ghost var before, was := combinedStates.deliveryServices, Contents(bags.Keys);
    ghost var made: Bags, now := map[], before;
    assert AllTouched(local, views, local.Keys) == {};
    while todo != {}
      invariant todo <= local.Keys && combinedStates.deliveryServices == now && fresh(made.Keys)
      invariant CombiningAll(now, before, made, todo, local, views, bags, was)
      decreases todo
    {
      var d :| d in todo;
      var ds;
      ds, made := CombineOne(d, local, views, bags, made, now, before, todo, was);
      combinedStates.SetDeliveryService(d, ds);
      todo, now := todo - {d}, now[d := ds];
    }
    Finished(now, before, made, local, views, bags);
  }

  /** The slices of the local states read as they did before. */
  ghost predicate SlicesKept(local: map<DeliveryServiceName, DSState>, was: Slices, now: Slices)
    requires forall d | d in local :: local[d].disabledLocations in was && local[d].disabledLocations in now
  {
    forall d | d in local :: now[local[d].disabledLocations] == was[local[d].disabledLocations]
  }

  /** Those of the slices that the pass sorts were sorted before. */
  ghost predicate SortedBefore(local: map<DeliveryServiceName, DSState>, views: Views, was: Slices)
    requires forall d | d in local :: local[d].disabledLocations in was
  {
    forall d | d in local && local[d].disabledLocations in AllTouched(local, views, {}) :: Sorted(was[local[d].disabledLocations])
  }

  lemma {:induction false} KeptIffSorted(local: map<DeliveryServiceName, DSState>, views: Views, was: Slices, now: Slices)
    requires forall d | d in local :: local[d].disabledLocations in was
    requires OnlySorted(was, now, AllTouched(local, views, {}))
    requires forall x | x in was :: multiset(now[x]) == multiset(was[x])
    ensures SlicesKept(local, was, now) <==> SortedBefore(local, views, was)
  {
    forall x | x in was && x in AllTouched(local, views, {})
      ensures now[x] == was[x] <==> Sorted(was[x])
    {
      if Sorted(was[x]) {
        SortedIsUnique(now[x], was[x]);
      }
    }
  }

  lemma {:induction false} SameBags(bags: Bags, was: Slices)
    requires Hold(bags) && was.Keys == bags.Keys && forall x | x in bags :: multiset(was[x]) == bags[x]
    ensures forall x | x in was :: multiset(Contents(bags.Keys)[x]) == multiset(was[x])
  {
  }

  /** Combining a snapshot of the local states, as each pass does. The maps of a snapshot are copies, so those of the
      local states do not change. But the slices are shared, so the pass shows in the local states themselves: it
      permutes their slices at most, and leaves them as they were iff all that it sorts were sorted before. */
  method CombineSnapshot(localStates: Threadsafe, views: Views, combinedStates: Threadsafe, ghost bags: Bags)
    requires localStates != combinedStates && Hold(bags) && AllKnown(views, bags) && KnownHere(localStates.deliveryServices, bags)
    modifies combinedStates`deliveryServices, bags.Keys
    ensures Hold(bags) && localStates.deliveryServices.Keys <= combinedStates.deliveryServices.Keys
    ensures forall d | d in localStates.deliveryServices ::
      CombinedDS(combinedStates.deliveryServices[d], d, localStates.deliveryServices[d], At(views, d), bags)
    ensures var local, was := localStates.deliveryServices, old(Contents(bags.Keys));
      SlicesKept(local, was, Contents(bags.Keys)) <==> SortedBefore(local, views, was)
  {
    ghost var was := Contents(bags.Keys);
    var local := localStates.Get();
    CombineDeliveryServices(local.deliveryServices, views, combinedStates, bags);
    SameBags(bags, was);
    KeptIffSorted(local.deliveryServices, views, was, Contents(bags.Keys));
  }

  /** What a slice of the combined states holds: it is one of the local states, or was made by the pass. */
  ghost predicate HoldsBag(x: array<CacheGroupName>, bag: Locations, made: Bags, bags: Bags) {
    if x in bags then bag == bags[x] else x in made && bag == made[x]
  }

  /** No slice made earlier is lost or changed. */
  ghost predicate More(made: Bags, made': Bags) {
    forall x | x in made :: x in made' && made'[x] == made[x]
  }

  ghost predicate IsCombined(ds: DSState, d: DeliveryServiceName, mine: DSState, peers: Peers, bags: Bags, made: Bags)
    requires Known(peers, bags) && mine.disabledLocations in bags
  {
    exists bag :: HoldsBag(ds.disabledLocations, bag, made, bags) && CombinedInto(ds, d, mine, peers, bags, bag)
  }

  /** The delivery services but those in `todo` are combined, and the others are what they were. */
  ghost predicate AllCombined(now: map<DeliveryServiceName, DSState>, before: map<DeliveryServiceName, DSState>, made: Bags,
                              todo: set<DeliveryServiceName>, local: map<DeliveryServiceName, DSState>, views: Views, bags: Bags)
    requires AllKnown(views, bags) && KnownHere(local, bags)
  {
    && (forall d :: d in now <==> d in before || (d in local && d !in todo))
    && (forall d | d in local && d !in todo :: IsCombined(now[d], d, local[d], At(views, d), bags, made))
    && (forall d | d in before && (d !in local || d in todo) :: now[d] == before[d])
  }

  lemma {:induction false} CombineStep(now: map<DeliveryServiceName, DSState>,
                                       before: map<DeliveryServiceName, DSState>, made: Bags, made': Bags,
                                       todo: set<DeliveryServiceName>, local: map<DeliveryServiceName, DSState>,
                                       views: Views, bags: Bags, d: DeliveryServiceName, ds: DSState)
    requires AllKnown(views, bags) && KnownHere(local, bags)
    requires AllCombined(now, before, made, todo, local, views, bags) && d in local && d in todo
    requires IsCombined(ds, d, local[d], At(views, d), bags, made') && More(made, made')
    ensures AllCombined(now[d := ds], before, made', todo - {d}, local, views, bags)
  {
    forall e | e in local && e !in todo
      ensures IsCombined(now[e], e, local[e], At(views, e), bags, made')
    {
      var b :| HoldsBag(now[e].disabledLocations, b, made, bags) && CombinedInto(now[e], e, local[e], At(views, e), bags, b);
      assert HoldsBag(now[e].disabledLocations, b, made', bags);
    }
  }

  lemma {:induction false} Finished(now: map<DeliveryServiceName, DSState>, before: map<DeliveryServiceName, DSState>,
                                    made: Bags, local: map<DeliveryServiceName, DSState>, views: Views, bags: Bags)
    requires AllKnown(views, bags) && KnownHere(local, bags)
    requires AllCombined(now, before, made, {}, local, views, bags) && Hold(bags) && Hold(made)
    ensures now.Keys == before.Keys + local.Keys
    ensures forall d | d in local :: CombinedDS(now[d], d, local[d], At(views, d), bags)
    ensures forall d | d in before && d !in local :: now[d] == before[d]
  {
    forall d | d in local
      ensures CombinedDS(now[d], d, local[d], At(views, d), bags)
    {
      assert IsCombined(now[d], d, local[d], At(views, d), bags, made);
      var bag :| HoldsBag(now[d].disabledLocations, bag, made, bags) && CombinedInto(now[d], d, local[d], At(views, d), bags, bag);
      assert multiset(now[d].disabledLocations[..]) == bag;
    }
  }

  /** The order in which the peers are visited cannot be told from the result: sorted lists of the same
      locations are the same. */
  lemma {:induction false} PeerOrderDoesNotMatter(a: seq<CacheGroupName>, b: seq<CacheGroupName>, mine: Locations,
                                                  listed: map<MonitorName, Locations>)
    requires Sorted(a) && Sorted(b)
    requires Combined(multiset(a), mine, listed, {}) && Combined(multiset(b), mine, listed, {})
    ensures a == b
  {
    assert multiset(a) == multiset(b);
    SortedIsUnique(a, b);
  }
}
