/** Which CRConfigs are accepted (`traffic_monitor/towrap/towrap.go`). */
module CRConfigStore {
  import opened Core
  import Ring

  type Stats = Ring.Stats

  /** The CRConfig that was stored last for a CDN. */
  datatype Kept = Kept(bytes: string, stats: Stats)

  type Store = map<string, Kept>

  datatype Validity = Accepted | Rejected | Panic

  /** Whether a CRConfig may replace the one stored for the CDN that was asked for. An unnamed CDN on either
      side is a nil pointer. */
  function CRConfigValid(store: Store, cdn: string, stats: Stats): Validity {
    if cdn !in store then Accepted
    else
      var last := store[cdn].stats;
      if last.date.None? then Accepted
      else if last.cdn.None? || stats.cdn.None? then Panic
      else if last.cdn != stats.cdn then Rejected
      else if stats.date.None? then Rejected
      else if last.date.value > stats.date.value then Rejected
      else Accepted
  }

  /** What Traffic Ops answers. */
  datatype Response = FetchError | InvalidJSON | Parsed(bytes: string, stats: Stats)

  predicate Accepts(store: Store, cdn: string, response: Response) {
    response.Parsed? && CRConfigValid(store, cdn, response.stats) == Accepted
  }

  /** The store after one fetch. */
  function Fetched(store: Store, cdn: string, response: Response): Store {
    if Accepts(store, cdn, response) then store[cdn := Kept(response.bytes, response.stats)] else store
  }

  const NO_STATS := Ring.Stats(None, None)

  /** What the history says of a fetch. */
  function HistoryEntry(store: Store, cdn: string, response: Response, time: int, addr: string): Ring.Request {
    match response
    case FetchError => Ring.Request(time, addr, NO_STATS, true)
    case InvalidJSON => Ring.Request(time, addr, NO_STATS, true)
    case Parsed(_, stats) => Ring.Request(time, addr, stats, CRConfigValid(store, cdn, stats) == Rejected)
  }

  class Session {
    var lastCRConfig: Store
    const crConfigHist: Ring.CRConfigHistory

    ghost predicate Valid()
      reads this, crConfigHist, crConfigHist.hist
    {
      crConfigHist.Valid()
    }

    constructor (hist: Ring.CRConfigHistory)
      requires hist.Valid()
      ensures Valid() && lastCRConfig == map[] && crConfigHist == hist
    {
      lastCRConfig, crConfigHist := map[], hist;
    }

    /** Fetch, check and store as one step. Every fetch is added to the history, at the end, also when
        the check panics. */
    method CRConfigRaw(cdn: string, response: Response, time: int, addr: string) returns (ok: bool)
      requires Valid()
      modifies this`lastCRConfig, crConfigHist, crConfigHist.hist
      ensures Valid()
      ensures ok <==> Accepts(old(lastCRConfig), cdn, response)
      ensures lastCRConfig == Fetched(old(lastCRConfig), cdn, response)
      ensures crConfigHist.log == Ring.Logged(old(crConfigHist.log), crConfigHist.hist.Length,
                                              HistoryEntry(old(lastCRConfig), cdn, response, time, addr))
    {
      var entry := Ring.Request(time, addr, NO_STATS, response.FetchError?);
      ok := false;
      match response {
        case FetchError =>
        case InvalidJSON =>
          entry := entry.(err := true);
        case Parsed(bytes, stats) =>
          entry := entry.(stats := stats);
          var validity := CRConfigValid(lastCRConfig, cdn, stats);
          if validity == Rejected {
            entry := entry.(err := true);
          } else if validity == Accepted {
            lastCRConfig := lastCRConfig[cdn := Kept(bytes, stats)];
            ok := true;
          }
      }
      var _ := crConfigHist.Add(entry);
    }
  }

  // ---------- Runs ----------

  datatype Fetch = Fetch(cdn: string, response: Response)

  ghost function StoreAfter(store: Store, fetches: seq<Fetch>): Store {
    if fetches == [] then store
    else
      var last := fetches[|fetches| - 1];
      Fetched(StoreAfter(store, fetches[..|fetches| - 1]), last.cdn, last.response)
  }

  ghost predicate HasDate(store: Store, cdn: string) {
    cdn in store && store[cdn].stats.date.Some?
  }

  /** What is stored for the CDN is as new, and of the same name. */
  ghost predicate NotBefore(store: Store, store': Store, cdn: string)
    requires HasDate(store, cdn)
  {
    && HasDate(store', cdn)
    && store'[cdn].stats.date.value >= store[cdn].stats.date.value
    && store'[cdn].stats.cdn == store[cdn].stats.cdn
  }

  /** A CRConfig is accepted in place of a dated one iff it is dated, not older, and of the same name. */
  lemma {:induction false} AcceptedIffNotBefore(store: Store, cdn: string, kept: Kept)
    requires HasDate(store, cdn) && store[cdn].stats.cdn.Some? && kept.stats.cdn.Some?
    ensures CRConfigValid(store, cdn, kept.stats) == Accepted <==> NotBefore(store, store[cdn := kept], cdn)
  {
  }

  /** What is stored for the CDN gives way to the answer: there is none or one without a date, or both are of the same named
      CDN, and the answer has a date that is not before the stored one. */
  ghost predicate GivesWay(store: Store, cdn: string, stats: Stats) {
    cdn in store && store[cdn].stats.date.Some? ==>
      && store[cdn].stats.cdn.Some? && stats.cdn == store[cdn].stats.cdn
      && stats.date.Some? && store[cdn].stats.date.value <= stats.date.value
  }

  /** A name is missing that the check dereferences. */
  ghost predicate MissesName(store: Store, cdn: string, stats: Stats) {
    cdn in store && store[cdn].stats.date.Some? && (store[cdn].stats.cdn.None? || stats.cdn.None?)
  }

  /** Whatever is stored: an answer replaces it iff it parses and what is stored gives way, and else nothing changes; the
      history has the statistics of just the answers that parse, and an error iff it did not, or was rejected. */
  lemma {:induction false} StoredIff(store: Store, cdn: string, response: Response, time: int, addr: string)
    ensures var accepted := response.Parsed? && GivesWay(store, cdn, response.stats);
      && (Accepts(store, cdn, response) <==> accepted)
      && Fetched(store, cdn, response) == (if accepted then store[cdn := Kept(response.bytes, response.stats)] else store)
    ensures var entry := HistoryEntry(store, cdn, response, time, addr);
      && entry.time == time && entry.addr == addr
      && entry.stats == (if response.Parsed? then response.stats else Ring.Stats(None, None))
      && (entry.err <==>
            !response.Parsed? || (!GivesWay(store, cdn, response.stats) && !MissesName(store, cdn, response.stats)))
    ensures response.Parsed? ==>
      (CRConfigValid(store, cdn, response.stats) == Panic <==> MissesName(store, cdn, response.stats))
  {
  }

  /** Once a CRConfig with a date is stored for a CDN, every later one has a date too, the date never goes
      back, and the name in the statistics never changes; whatever is fetched, for it or for others. */
  lemma {:induction false} NeverGoesBack(store: Store, fetches: seq<Fetch>, cdn: string)
    requires HasDate(store, cdn)
    ensures NotBefore(store, StoreAfter(store, fetches), cdn)
  {
    if fetches != [] {
      NeverGoesBack(store, fetches[..|fetches| - 1], cdn);
    }
  }

  /** The same between any two states of a run. */
  lemma {:induction false} NeverGoesBackBetween(store: Store, fetches: seq<Fetch>, i: nat, j: nat, cdn: string)
    requires i <= j <= |fetches| && HasDate(StoreAfter(store, fetches[..i]), cdn)
    ensures NotBefore(StoreAfter(store, fetches[..i]), StoreAfter(store, fetches[..j]), cdn)
  {
    if i < j {
      NeverGoesBackBetween(store, fetches, i, j - 1, cdn);
      assert fetches[..j][..j - 1] == fetches[..j - 1];
    }
  }

  ghost predicate AcceptedAt(store: Store, fetches: seq<Fetch>, cdn: string, k: nat)
    requires k < |fetches|
  {
    fetches[k].cdn == cdn && Accepts(StoreAfter(store, fetches[..k]), cdn, fetches[k].response)
  }

  /** The last fetch for the CDN that was accepted. */
  ghost function LastAccepted(store: Store, fetches: seq<Fetch>, cdn: string): (last: Option<nat>)
    ensures last.Some? ==> last.value < |fetches| && fetches[last.value].response.Parsed?
  {
    if fetches == [] then None
    else if AcceptedAt(store, fetches, cdn, |fetches| - 1) then Some(|fetches| - 1)
    else LastAccepted(store, fetches[..|fetches| - 1], cdn)
  }

  lemma {:induction false} LastAcceptedIsLast(store: Store, fetches: seq<Fetch>, cdn: string)
    ensures var last := LastAccepted(store, fetches, cdn);
      && (last.Some? ==> last.value < |fetches| && AcceptedAt(store, fetches, cdn, last.value))
      && forall k | (if last.Some? then last.value + 1 else 0) <= k < |fetches| :: !AcceptedAt(store, fetches, cdn, k)
  {
    if fetches != [] {
      var before := fetches[..|fetches| - 1];
      LastAcceptedIsLast(store, before, cdn);
      forall k: nat | k < |before|
        ensures AcceptedAt(store, before, cdn, k) <==> AcceptedAt(store, fetches, cdn, k)
      {
        assert before[..k] == fetches[..k];
      }
    }
  }

  /** What is stored for a CDN is that of the last fetch for it which was accepted: rejected ones, and those
      for other CDNs, leave no trace. */
  lemma {:induction false} KeepsTheLastAccepted(store: Store, fetches: seq<Fetch>, cdn: string)
    ensures Entry(StoreAfter(store, fetches), cdn) ==
      match LastAccepted(store, fetches, cdn)
      case None => Entry(store, cdn)
      case Some(k) => Some(Kept(fetches[k].response.bytes, fetches[k].response.stats))
  {
    if fetches != [] {
      var n := |fetches| - 1;
      KeepsTheLastAccepted(store, fetches[..n], cdn);
      if !AcceptedAt(store, fetches, cdn, n) {
        assert Entry(StoreAfter(store, fetches), cdn) == Entry(StoreAfter(store, fetches[..n]), cdn);
      }
    }
  }

  // ---------- Without one step ----------

  /** Two fetches for a CDN at the same time. Both are checked before either is stored; then the first one
      is stored, and the second one over it. */
  ghost function Raced(store: Store, cdn: string, a: Kept, b: Kept): Store {
    store[cdn := a][cdn := b]
  }

  /** The stored date goes back then iff the second one is the older one. So fetching, checking and storing
      have to be one step for the claims above. */
  lemma {:induction false} RaceGoesBack(store: Store, cdn: string, a: Kept, b: Kept)
    requires HasDate(store, cdn)
    requires CRConfigValid(store, cdn, a.stats) == Accepted && CRConfigValid(store, cdn, b.stats) == Accepted
    ensures HasDate(store[cdn := a], cdn) && HasDate(Raced(store, cdn, a, b), cdn)
    ensures NotBefore(store, Raced(store, cdn, a, b), cdn)
    ensures NotBefore(store[cdn := a], Raced(store, cdn, a, b), cdn)
      <==> CRConfigValid(store[cdn := a], cdn, b.stats) == Accepted
    ensures NotBefore(store[cdn := a], Raced(store, cdn, a, b), cdn) <==> a.stats.date.value <= b.stats.date.value
  {
  }

  /** Fetches by many goroutines. A fetch is checked against the store and, in a later step, stored if it was accepted. */
  datatype Op = Check(g: nat, cdn: string) | End(g: nat)

  /** The fetches that were checked and did not end yet. */
  ghost function Busy(ops: seq<Op>, n: nat): map<nat, string>
    requires n <= |ops|
  {
    if n == 0 then map[] else BusyAfter(Busy(ops, n - 1), ops[n - 1])
  }

  ghost function BusyAfter(busy: map<nat, string>, op: Op): map<nat, string> {
    match op
    case Check(g, cdn) => busy[g := cdn]
    case End(g) => busy - {g}
  }

  ghost predicate Fits(ops: seq<Op>, n: nat)
    requires n < |ops|
  {
    ops[n].Check? <==> ops[n].g !in Busy(ops, n)
  }

  /** Each goroutine fetches one at a time, and all fetches end. */
  ghost predicate Schedule(ops: seq<Op>) {
    && (forall n | 0 <= n < |ops| :: Fits(ops, n))
    && Busy(ops, |ops|) == map[]
  }

  /** No fetch for a CDN is checked while another one for it has not ended. */
  ghost predicate NoneOverlap(ops: seq<Op>) {
    forall n | 0 <= n < |ops| :: Alone(ops, n)
  }

  ghost predicate Alone(ops: seq<Op>, n: nat)
    requires n < |ops|
  {
    ops[n].Check? ==> forall g | g in Busy(ops, n) :: Busy(ops, n)[g] != ops[n].cdn
  }

  /** The store, and what the fetches under way will store, if anything. */
  datatype World = World(store: Store, held: map<nat, Option<Kept>>)

  ghost function WorldAt(ops: seq<Op>, responses: seq<Response>, n: nat): World
    requires n <= |ops| == |responses|
  {
    if n == 0 then World(map[], map[])
    else WorldAfter(WorldAt(ops, responses, n - 1), Busy(ops, n - 1), ops[n - 1], responses[n - 1])
  }

  ghost function WorldAfter(w: World, busy: map<nat, string>, op: Op, r: Response): World {
    match op
    case Check(g, cdn) => w.(held := w.held[g := if Accepts(w.store, cdn, r) then Some(Kept(r.bytes, r.stats)) else None])
    case End(g) =>
      if g in w.held && w.held[g].Some? && g in busy then World(w.store[busy[g] := w.held[g].value], w.held - {g})
      else w.(held := w.held - {g})
  }

  /** From each step to the next, no dated CRConfig is replaced by one without a date, an older one, or one of
      another name. */
  ghost predicate InOrderAt(ops: seq<Op>, responses: seq<Response>, n: nat)
    requires n < |ops| == |responses|
  {
    forall cdn | HasDate(WorldAt(ops, responses, n).store, cdn) ::
      NotBefore(WorldAt(ops, responses, n).store, WorldAt(ops, responses, n + 1).store, cdn)
  }

  ghost predicate AlwaysInOrder(ops: seq<Op>) {
    forall responses: seq<Response>, n | |responses| == |ops| && 0 <= n < |ops| :: InOrderAt(ops, responses, n)
  }

  /** The fetches under way are for different CDNs, and each that was accepted still would be. */
  ghost predicate StillValid(w: World, busy: map<nat, string>) {
    && w.held.Keys == busy.Keys
    && (forall g, h | g in busy && h in busy && g != h :: busy[g] != busy[h])
    && (forall g | g in busy && w.held[g].Some? :: CRConfigValid(w.store, busy[g], w.held[g].value.stats) == Accepted)
  }

  lemma {:induction false} StaysValid(ops: seq<Op>, responses: seq<Response>, n: nat)
    requires n <= |ops| == |responses| && Schedule(ops) && NoneOverlap(ops)
    ensures StillValid(WorldAt(ops, responses, n), Busy(ops, n))
  {
    if n > 0 {
      StaysValid(ops, responses, n - 1);
      assert Fits(ops, n - 1) && Alone(ops, n - 1);
      ValidStep(WorldAt(ops, responses, n - 1), Busy(ops, n - 1), ops[n - 1], responses[n - 1]);
    }
  }

  lemma {:induction false} ValidStep(w: World, busy: map<nat, string>, op: Op, r: Response)
    requires StillValid(w, busy) && (op.Check? <==> op.g !in busy)
    requires op.Check? ==> forall g | g in busy :: busy[g] != op.cdn
    ensures StillValid(WorldAfter(w, busy, op, r), BusyAfter(busy, op))
  {
  }

  lemma {:induction false} ValidIsInOrder(ops: seq<Op>, responses: seq<Response>, n: nat)
    requires n < |ops| == |responses| && StillValid(WorldAt(ops, responses, n), Busy(ops, n))
    ensures InOrderAt(ops, responses, n)
  {
    assert WorldAt(ops, responses, n + 1) == WorldAfter(WorldAt(ops, responses, n), Busy(ops, n), ops[n], responses[n]);
  }

  /** A fetch from its check to its end. */
  ghost predicate Spans(ops: seq<Op>, g: nat, cdn: string, check: nat, end: nat) {
    && check < end < |ops| && ops[check] == Check(g, cdn) && ops[end] == End(g)
    && forall i | check < i <= end :: BusyWith(ops, i, g, cdn)
  }

  ghost predicate BusyWith(ops: seq<Op>, n: nat, g: nat, cdn: string)
    requires n <= |ops|
  {
    g in Busy(ops, n) && Busy(ops, n)[g] == cdn
  }

  lemma {:induction false} CheckOf(ops: seq<Op>, g: nat, cdn: string, n: nat) returns (check: nat)
    requires n <= |ops| && BusyWith(ops, n, g, cdn)
    ensures check < n && ops[check] == Check(g, cdn)
    ensures forall i | check < i <= n :: BusyWith(ops, i, g, cdn)
  {
    check := n - 1;
    if ops[n - 1] != Check(g, cdn) {
      assert BusyWith(ops, n - 1, g, cdn);
      check := CheckOf(ops, g, cdn, n - 1);
    }
  }

  lemma {:induction false} EndOf(ops: seq<Op>, g: nat, cdn: string, n: nat) returns (end: nat)
    requires Schedule(ops) && n <= |ops| && BusyWith(ops, n, g, cdn)
    ensures n <= end < |ops| && ops[end] == End(g)
    ensures forall i | n <= i <= end :: BusyWith(ops, i, g, cdn)
    decreases |ops| - n
  {
    assert n < |ops|;
    assert Fits(ops, n);
    end := n;
    if ops[n] != End(g) {
      assert Busy(ops, n + 1) == BusyAfter(Busy(ops, n), ops[n]);
      assert BusyWith(ops, n + 1, g, cdn);
      end := EndOf(ops, g, cdn, n + 1);
    }
  }

  lemma {:induction false} SpanAt(ops: seq<Op>, g: nat, cdn: string, n: nat) returns (check: nat, end: nat)
    requires Schedule(ops) && n <= |ops| && BusyWith(ops, n, g, cdn)
    ensures Spans(ops, g, cdn, check, end) && check < n <= end
  {
    check := CheckOf(ops, g, cdn, n);
    end := EndOf(ops, g, cdn, n);
  }

  /** Two fetches of one CDN, both checked before the first of them ends. */
  datatype Race = Race(cdn: string, x: nat, checkX: nat, endX: nat, y: nat, checkY: nat, endY: nat) {
    ghost predicate In(ops: seq<Op>) {
      && Spans(ops, x, cdn, checkX, endX) && Spans(ops, y, cdn, checkY, endY)
      && x != y && checkY < endX < endY
    }
  }

  function Dated(date: int): Kept {
    Kept("", Ring.Stats(Some(date), Some("")))
  }

  /** The one that ends first is the newer one; all other fetches fail. */
  ghost function Racing(ops: seq<Op>, r: Race): seq<Response> {
    seq(|ops|, n requires 0 <= n < |ops| => Answer(r, n))
  }

  ghost function Answer(r: Race, n: nat): Response {
    if n == r.checkX then Parsed("", Dated(1).stats) else if n == r.checkY then Parsed("", Dated(0).stats) else FetchError
  }

  ghost function StoreIn(r: Race, n: nat): Store {
    if n <= r.endX then map[] else if n <= r.endY then map[r.cdn := Dated(1)] else map[r.cdn := Dated(0)]
  }

  ghost function HeldIn(r: Race, n: nat, g: nat): Option<Kept> {
    if g == r.x && r.checkX < n <= r.endX then Some(Dated(1))
    else if g == r.y && r.checkY < n <= r.endY then Some(Dated(0))
    else None
  }

  ghost predicate AsRaced(r: Race, n: nat, w: World, busy: map<nat, string>) {
    w.store == StoreIn(r, n) && w.held.Keys == busy.Keys && forall g | g in w.held :: w.held[g] == HeldIn(r, n, g)
  }

  /** What a race says of one step. */
  ghost predicate StepOf(r: Race, n: nat, op: Op, busy: map<nat, string>) {
    && (op.Check? <==> op.g !in busy)
    && (n == r.checkX ==> op == Check(r.x, r.cdn)) && (n == r.endX ==> op == End(r.x))
    && (n == r.checkY ==> op == Check(r.y, r.cdn)) && (n == r.endY ==> op == End(r.y))
    && (r.checkX < n <= r.endX ==> r.x in busy && busy[r.x] == r.cdn)
    && (r.checkX < n < r.endX ==> op.g != r.x)
    && (r.checkY < n <= r.endY ==> r.y in busy && busy[r.y] == r.cdn)
    && (r.checkY < n < r.endY ==> op.g != r.y)
    && r.x != r.y && r.checkX < r.endX < r.endY && r.checkY < r.endX
  }

  lemma {:induction false} NotInSpan(ops: seq<Op>, g: nat, cdn: string, check: nat, end: nat, n: nat)
    requires Schedule(ops) && Spans(ops, g, cdn, check, end) && check < n < end
    ensures ops[n].g != g
  {
    assert Fits(ops, n) && BusyWith(ops, n, g, cdn) && BusyWith(ops, n + 1, g, cdn);
  }

  lemma {:induction false} StepOfRace(ops: seq<Op>, r: Race, n: nat)
    requires Schedule(ops) && r.In(ops) && n < |ops|
    ensures StepOf(r, n, ops[n], Busy(ops, n))
  {
    assert Fits(ops, n);
    if r.checkX < n <= r.endX {
      assert BusyWith(ops, n, r.x, r.cdn);
      if n < r.endX {
        NotInSpan(ops, r.x, r.cdn, r.checkX, r.endX, n);
      }
    }
    if r.checkY < n <= r.endY {
      assert BusyWith(ops, n, r.y, r.cdn);
      if n < r.endY {
        NotInSpan(ops, r.y, r.cdn, r.checkY, r.endY, n);
      }
    }
  }

  lemma {:induction false} RaceStep(r: Race, n: nat, w: World, busy: map<nat, string>, op: Op)
    requires StepOf(r, n, op, busy) && AsRaced(r, n, w, busy)
    ensures AsRaced(r, n + 1, WorldAfter(w, busy, op, Answer(r, n)), BusyAfter(busy, op))
  {
    if n == r.checkX || n == r.checkY {
      assert w.store == map[] && Accepts(w.store, r.cdn, Answer(r, n));
    }
  }

  lemma {:induction false} RaceRuns(ops: seq<Op>, r: Race, n: nat)
    requires Schedule(ops) && r.In(ops) && n <= |ops|
    ensures AsRaced(r, n, WorldAt(ops, Racing(ops, r), n), Busy(ops, n))
  {
    if n > 0 {
      RaceRuns(ops, r, n - 1);
      StepOfRace(ops, r, n - 1);
      RaceStep(r, n - 1, WorldAt(ops, Racing(ops, r), n - 1), Busy(ops, n - 1), ops[n - 1]);
    }
  }

  lemma {:induction false} RaceIsNotInOrder(ops: seq<Op>, r: Race)
    requires Schedule(ops) && r.In(ops)
    ensures !InOrderAt(ops, Racing(ops, r), r.endY)
  {
    RaceRuns(ops, r, r.endY);
    RaceRuns(ops, r, r.endY + 1);
    var before, after := WorldAt(ops, Racing(ops, r), r.endY).store, WorldAt(ops, Racing(ops, r), r.endY + 1).store;
    assert HasDate(before, r.cdn) && !NotBefore(before, after, r.cdn);
  }

  lemma {:induction false} OverlapIsRace(ops: seq<Op>, n: nat) returns (r: Race)
    requires Schedule(ops) && n < |ops| && !Alone(ops, n)
    ensures r.In(ops)
  {
    var h, cdn := ops[n].g, ops[n].cdn;
    var g :| g in Busy(ops, n) && Busy(ops, n)[g] == cdn;
    assert Fits(ops, n);
    assert Busy(ops, n + 1) == BusyAfter(Busy(ops, n), ops[n]) == Busy(ops, n)[h := cdn];
    assert BusyWith(ops, n + 1, g, cdn) && BusyWith(ops, n + 1, h, cdn);
    var checkG, endG := SpanAt(ops, g, cdn, n + 1);
    var checkH, endH := SpanAt(ops, h, cdn, n + 1);
    r := if endG < endH then Race(cdn, g, checkG, endG, h, checkH, endH) else Race(cdn, h, checkH, endH, g, checkG, endG);
  }

  /** Whatever goroutines fetch what, from an empty store on: what is stored keeps its order for all answers of Traffic
      Ops iff no fetch of a CDN is checked between the check and the end of another one of it. Already the first two
      fetches of a CDN break it if they do. Fetches that overlap before their checks only do no harm. */
  lemma {:induction false} InOrderIffNoneOverlap(ops: seq<Op>)
    requires Schedule(ops)
    ensures AlwaysInOrder(ops) <==> NoneOverlap(ops)
  {
    if NoneOverlap(ops) {
      forall responses: seq<Response>, n | |responses| == |ops| && 0 <= n < |ops|
        ensures InOrderAt(ops, responses, n)
      {
        StaysValid(ops, responses, n);
        ValidIsInOrder(ops, responses, n);
      }
    } else {
      var n :| 0 <= n < |ops| && !Alone(ops, n);
      var r := OverlapIsRace(ops, n);
      RaceIsNotInOrder(ops, r);
    }
  }
}
