/** What is known of the peer monitors (`traffic_monitor/peer/crstates.go`). */
module Peers {
  import opened Core
  import opened CRStates

  datatype Result = Result(id: MonitorName, available: bool, states: States, time: int)

  class PeersThreadsafe {
    var crStates: map<MonitorName, States>
    var peerStates: map<MonitorName, bool>
    var peerTimes: map<MonitorName, int>
    var peerOnline: map<MonitorName, bool>
    var timeout: int

    /** Everything is known of the same peers; only those can be online. */
    ghost predicate Valid()
      reads this
    {
      crStates.Keys == peerStates.Keys == peerTimes.Keys && peerOnline.Keys <= crStates.Keys
    }

    constructor (initialTimeout: int)
      ensures Valid() && crStates == map[] && timeout == initialTimeout
    {
      crStates, peerStates, peerTimes, peerOnline, timeout := map[], map[], map[], map[], initialTimeout;
    }

    method SetTimeout(newTimeout: int)
      requires Valid()
      modifies this`timeout
      ensures Valid() && timeout == newTimeout
    {
      timeout := newTimeout;
    }

    /** Marks the peers which have ever sent a result as online or not. A peer that has not is left out,
        and stays offline until the next call that follows its first result. */
    method SetPeers(newPeers: set<MonitorName>)
      requires Valid()
      modifies this`peerOnline
      ensures Valid()
      ensures peerOnline == map p | p in crStates :: p in newPeers
    {
      var todo := crStates.Keys;
      while todo != {}
        invariant todo <= crStates.Keys
        invariant peerOnline.Keys == old(peerOnline.Keys) + (crStates.Keys - todo)
        invariant forall p | p in crStates && p !in todo :: peerOnline[p] == (p in newPeers)
        decreases todo
      {
        var p :| p in todo;
        todo := todo - {p};
        peerOnline := peerOnline[p := p in newPeers];
      }
    }

    /** Whether a peer is up, online, and has been heard of within the timeout. */
    predicate GetPeerAvailability(p: MonitorName, now: int)
      reads this
    {
      && p in peerStates && peerStates[p]
      && p in peerOnline && peerOnline[p]
      && now - (if p in peerTimes then peerTimes[p] else 0) < timeout
    }

    /** Whether the last result of any peer was good, whether or not that peer is online. */
    method HasAvailablePeers() returns (r: bool)
      ensures r <==> exists p :: p in peerStates && peerStates[p]
    {
      r := false;
      var todo := peerStates.Keys;
      while todo != {}
        invariant todo <= peerStates.Keys
        invariant !r && forall p | p in peerStates && p !in todo :: !peerStates[p]
        decreases todo
      {
        var p :| p in todo;
        todo := todo - {p};
        if peerStates[p] {
          return true;
        }
      }
    }

    method Set(r: Result)
      requires Valid()
      modifies this`crStates, this`peerStates, this`peerTimes
      ensures Valid()
      ensures crStates == old(crStates)[r.id := r.states]
      ensures peerStates == old(peerStates)[r.id := r.available]
      ensures peerTimes == old(peerTimes)[r.id := r.time]
      ensures r.id !in old(crStates) ==> forall now :: !GetPeerAvailability(r.id, now)
    {
      crStates := crStates[r.id := r.states];
      peerStates := peerStates[r.id := r.available];
      peerTimes := peerTimes[r.id := r.time];
    }
  }
}
