/** What the combiner finds on the peers, told from the messages about them (`traffic_monitor/peer/crstates.go`,
    `traffic_monitor/manager/statecombiner.go`). */
module PeerRuns {
  import opened Core
  import opened CRStates
  import opened Peers
  import Combiner

  /** A result of a peer, a configuration of peers, or a new timeout. */
  datatype Message =
    | PeerResult(result: Result)
    | NewPeers(peers: set<MonitorName>)
    | NewTimeout(timeout: int)

  /** The last result of a peer. */
  ghost function LastResult(messages: seq<Message>, p: MonitorName): Option<Result> {
    if messages == [] then None
    else
      var last := messages[|messages| - 1];
      if last.PeerResult? && last.result.id == p then Some(last.result) else LastResult(messages[..|messages| - 1], p)
  }

  /** The peer is in the last configuration, and some result of it came before that. */
  ghost predicate IsConfigured(messages: seq<Message>, p: MonitorName) {
    messages != [] &&
    var before, last := messages[..|messages| - 1], messages[|messages| - 1];
    if last.NewPeers? then p in last.peers && LastResult(before, p).Some? else IsConfigured(before, p)
  }

  ghost function LastTimeout(messages: seq<Message>, initial: int): int {
    if messages == [] then initial
    else
      var last := messages[|messages| - 1];
      if last.NewTimeout? then last.timeout else LastTimeout(messages[..|messages| - 1], initial)
  }

  /** Some peer has the cache: its last result was good and says that the cache is available, it is configured, and that
      result is younger than the timeout. */
  ghost predicate SomePeerHas(messages: seq<Message>, initial: int, now: int, c: CacheName) {
    exists p :: PeerHas(messages, initial, now, c, p)
  }

  ghost predicate PeerHas(messages: seq<Message>, initial: int, now: int, c: CacheName, p: MonitorName) {
    var result := LastResult(messages, p);
    && result.Some? && result.value.available
    && c in result.value.states.caches && result.value.states.caches[c]
    && IsConfigured(messages, p)
    && now - result.value.time < LastTimeout(messages, initial)
  }

  /** What the store says of one peer. */
  ghost predicate RemembersPeer(peers: PeersThreadsafe, messages: seq<Message>, p: MonitorName)
    reads peers
  {
    && (match LastResult(messages, p)
        case None => p !in peers.crStates
        case Some(r) =>
          p in peers.crStates && p in peers.peerStates && p in peers.peerTimes
          && peers.crStates[p] == r.states && peers.peerStates[p] == r.available && peers.peerTimes[p] == r.time)
    && (IsConfigured(messages, p) <==> p in peers.peerOnline && peers.peerOnline[p])
  }

  ghost predicate Remembers(peers: PeersThreadsafe, messages: seq<Message>, initial: int)
    reads peers
  {
    && peers.Valid() && peers.timeout == LastTimeout(messages, initial)
    && forall p :: RemembersPeer(peers, messages, p)
  }

  lemma {:induction false} MessageStep(before: seq<Message>, message: Message, p: MonitorName, initial: int)
    ensures var messages := before + [message];
      && LastResult(messages, p)
         == (if message.PeerResult? && message.result.id == p then Some(message.result) else LastResult(before, p))
      && (IsConfigured(messages, p)
          <==> if message.NewPeers? then p in message.peers && LastResult(before, p).Some? else IsConfigured(before, p))
      && LastTimeout(messages, initial) == if message.NewTimeout? then message.timeout else LastTimeout(before, initial)
  {
    assert (before + [message])[..|before|] == before;
  }

  /** One message, stored. */
  method Store(peers: PeersThreadsafe, message: Message, ghost before: seq<Message>, ghost initial: int)
    requires Remembers(peers, before, initial)
    modifies peers
    ensures Remembers(peers, before + [message], initial)
  {
    forall p
      ensures RemembersPeer(peers, before, p)
      ensures var messages := before + [message];
        && LastResult(messages, p)
           == (if message.PeerResult? && message.result.id == p then Some(message.result) else LastResult(before, p))
        && (IsConfigured(messages, p)
            <==> if message.NewPeers? then p in message.peers && LastResult(before, p).Some? else IsConfigured(before, p))
        && LastTimeout(messages, initial) == if message.NewTimeout? then message.timeout else LastTimeout(before, initial)
    {
      MessageStep(before, message, p, initial);
    }
    match message
    case PeerResult(result) => peers.Set(result);
    case NewPeers(newPeers) => peers.SetPeers(newPeers);
    case NewTimeout(timeout) => peers.SetTimeout(timeout);
  }

  /** Nothing has been heard of any peer. */
  ghost predicate IsInitial(peers: PeersThreadsafe, initial: int)
    reads peers
  {
    peers.crStates == map[] && peers.peerStates == map[] && peers.peerTimes == map[] && peers.peerOnline == map[] && peers.timeout == initial
  }

  method StoreAll(peers: PeersThreadsafe, messages: seq<Message>, ghost initial: int)
    requires IsInitial(peers, initial)
    modifies peers
    ensures Remembers(peers, messages, initial)
  {
    for i := 0 to |messages|
      invariant Remembers(peers, messages[..i], initial)
    {
      assert messages[..i + 1] == messages[..i] + [messages[i]];
      Store(peers, messages[i], messages[..i], initial);
    }
    assert messages[..|messages|] == messages;
  }

  lemma {:induction false} FoundIff(peers: PeersThreadsafe, messages: seq<Message>, initial: int, now: int, c: CacheName)
    requires Remembers(peers, messages, initial)
    ensures Combiner.OnlineOnPeers(peers, now, c) <==> SomePeerHas(messages, initial, now, c)
  {
    forall p
      ensures PeerHas(messages, initial, now, c, p)
        <==> p in peers.crStates && peers.GetPeerAvailability(p, now) && CacheAvailable(peers.crStates[p].caches, c)
    {
      assert RemembersPeer(peers, messages, p);
    }
  }

  /** After any messages about the peers, a look at one time finds a cache iff some peer has it. */
  method LookAfter(combiner: Combiner.StateCombiner, messages: seq<Message>, ghost initial: int, now: int, c: CacheName)
      returns (view: Combiner.View)
    requires IsInitial(combiner.peerStates, initial)
    modifies combiner.peerStates
    ensures view.Online() <==> SomePeerHas(messages, initial, now, c)
  {
    StoreAll(combiner.peerStates, messages, initial);
    view := combiner.Look(c, now);
    FoundIff(combiner.peerStates, messages, initial, now, c);
  }

  /** And a pass over the caches makes a cache available iff it is so locally or some peer has it, with an override iff
      only a peer does. */
  method PassAfter(combiner: Combiner.StateCombiner, messages: seq<Message>, ghost initial: int, local: map<CacheName, bool>, now: int)
    requires combiner.Valid() && IsInitial(combiner.peerStates, initial)
    modifies combiner, combiner.events, combiner.peerStates, combiner.combinedStates`caches
    ensures combiner.Valid()
    ensures combiner.combinedStates.caches == map c | c in local :: local[c] || SomePeerHas(messages, initial, now, c)
    ensures forall c | c in local ::
      (c in combiner.overrideMap && combiner.overrideMap[c]) <==> !local[c] && SomePeerHas(messages, initial, now, c)
  {
    StoreAll(combiner.peerStates, messages, initial);
    var turns := combiner.LookAll(local, now);
    forall c | c in local
      ensures c in Combiner.Up(turns) <==> SomePeerHas(messages, initial, now, c)
    {
      FoundIff(combiner.peerStates, messages, initial, now, c);
    }
    combiner.CombineCaches(local, turns);
    ghost var caches := combiner.combinedStates.caches;
    combiner.PruneCombinedCaches(local);
    Combiner.PassMerges(local, Combiner.Up(turns), caches, combiner.combinedStates.caches, old(combiner.overrideMap), combiner.overrideMap);
    assert forall c | c in local :: Combiner.Overridden(combiner.overrideMap, c) <==> !local[c] && c in Combiner.Up(turns);
  }
}
