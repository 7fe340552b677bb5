/** The event log (`traffic_monitor/health/event.go`). */
module Events {

  /** What an event is about. `Override` says that the health protocol override of a cache was set or
      cleared; the description texts are left out. */
  datatype Kind = Override(on: bool) | Status(poller: string) | Peer

  datatype Event = Event(name: string, kind: Kind, available: bool, index: nat)

  /** The `n` newest of all events, newest first. */
  ghost function NewestFirst(all: seq<Event>, n: nat): seq<Event>
    requires n <= |all|
  {
    seq(n, i requires 0 <= i < n => all[|all| - 1 - i])
  }

  const INT64_END := 0x8000_0000_0000_0000

  class ThreadsafeEvents {
    var events: seq<Event>
    var nextIndex: nat
    const max: nat
    /** Every event ever added, oldest first. */
    ghost var all: seq<Event>

    /** The maximum is unsigned, but compared as a signed number: no event fits a log with a maximum of 0 or too
        large a one. */
    predicate Fits() {
      1 <= max < INT64_END
    }

    /** The log holds the newest events, newest first, with consecutive indices. It never holds more than
        the maximum, and what is cut off leaves at least one less. */
    ghost predicate Wellformed()
      reads this
    {
      && nextIndex == |all|
      && (forall i | 0 <= i < |all| :: all[i].index == i)
      && |events| <= |all| && events == NewestFirst(all, |events|)
      && |events| <= max < 2 * INT64_END && (|events| == |all| || |events| >= max - 1)
      && (!Fits() ==> all == [])
    }

    /** A log to which events can be added. */
    ghost predicate Valid()
      reads this
    {
      Wellformed() && Fits()
    }

    constructor (maxEvents: nat)
      requires maxEvents < 2 * INT64_END
      ensures Wellformed() && all == [] && max == maxEvents
    {
      events, nextIndex, max, all := [], 0, maxEvents, [];
    }

    /** Adds an event; in a log that no event fits this panics, at the very first one. */
    method Add(e: Event) returns (ok: bool)
      requires Wellformed()
      modifies this
      ensures Wellformed() && ok == Fits() == (1 <= max <= 9_223_372_036_854_775_807)
      ensures all == if ok then old(all) + [e.(index := |old(all)|)] else old(all)
    {
      var e' := e.(index := nextIndex);
      var events' := [e'] + events;
      var limit := if max < INT64_END then max else max - 2 * INT64_END;
      if |events'| > limit {
        var last := if max == 0 then 2 * INT64_END - 1 else max - 1;
        if last > |events'| {
          return false;
        }
        events' := events'[..last];
      }
      all := all + [e'];
      events := events';
      nextIndex := nextIndex + 1;
      ok := true;
    }
  }

  /** The log is read newest first, with indices that fall by one from entry to entry. */
  lemma {:induction false} IndicesAreConsecutive(log: ThreadsafeEvents, i: nat)
    requires log.Wellformed() && i + 1 < |log.events|
    ensures log.events[i].index == log.events[i + 1].index + 1
    ensures log.events[0].index + 1 == log.nextIndex
  {
    assert log.events[i] == log.all[|log.all| - 1 - i];
    assert log.events[i + 1] == log.all[|log.all| - 2 - i];
    assert log.events[0] == log.all[|log.all| - 1];
  }
}
