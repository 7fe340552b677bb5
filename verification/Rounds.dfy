/** Aggregating the same precomputed stats again and again, in any orders (`traffic_monitor/ds/stat.go`). */
module Rounds {
  import opened Core
  import opened Totals
  import opened DsStats
  import opened Aggregation

  /** A service that Traffic Ops does not know and two counted servers report has no counts. */
  ghost predicate SharedAreZero(pre: Precomputed, t: TOData) {
    forall p, q | Included(pre, t, p) && Included(pre, t, q) && p.ds == q.ds && p.ds !in t.deliveryServiceServers && p != q ::
      At(pre, p).total == ZERO
  }

  /** The maps differ at most in empty entries. */
  ghost predicate SameMaps(m: Maps, m': Maps) {
    Same(m.groups, m'.groups, ZERO) && Same(m.types, m'.types, ZERO) && Same(m.caches, m'.caches, ZERO)
  }

  /** Every service has the maps that were made for it, or else those of one of its servers. */
  ghost predicate Owned(st0: State, st: State, pre: Precomputed, order: seq<Slot>) {
    && st0.ds.Keys <= st.ds.Keys
    && forall d | d in st.ds ::
         if d in st0.ds then st.ds[d].ref == st0.ds[d].ref
         else exists x :: x in order && Present(pre, x) && x.ds == d && st.ds[d].ref == At(pre, x).ref
  }

  lemma {:induction false} OwnedStep(st0: State, st: State, pre: Precomputed, t: TOData, order: seq<Slot>, x: Slot)
    requires Included(pre, t, x) && Owned(st0, st, pre, order)
    ensures Owned(st0, AddStat(st, pre, t, x), pre, order + [x])
  {
    var st' := AddStat(st, pre, t, x);
    assert x in order + [x];
    forall d | d in st'.ds && d !in st0.ds
      ensures exists y :: y in order + [x] && Present(pre, y) && y.ds == d && st'.ds[d].ref == At(pre, y).ref
    {
      if d in st.ds {
        var y :| y in order && Present(pre, y) && y.ds == d && st.ds[d].ref == At(pre, y).ref;
        assert y in order + [x];
      } else {
        assert d == x.ds;
      }
    }
  }

  // ---------- While nothing that is shared counts ----------

  lemma {:induction false} SameSymmetricMaps(a: Maps, b: Maps)
    requires SameMaps(a, b)
    ensures SameMaps(b, a)
  {
    forall k
      ensures Get(b.groups, k, ZERO) == Get(a.groups, k, ZERO) && Get(b.types, k, ZERO) == Get(a.types, k, ZERO)
      ensures Get(b.caches, k, ZERO) == Get(a.caches, k, ZERO)
    {
      assert Get(a.groups, k, ZERO) == Get(b.groups, k, ZERO) && Get(a.types, k, ZERO) == Get(b.types, k, ZERO);
      assert Get(a.caches, k, ZERO) == Get(b.caches, k, ZERO);
    }
  }

  lemma {:induction false} SameTransitiveMaps(a: Maps, b: Maps, c: Maps)
    requires SameMaps(a, b) && SameMaps(b, c)
    ensures SameMaps(a, c)
  {
    forall k
      ensures Get(a.groups, k, ZERO) == Get(c.groups, k, ZERO) && Get(a.types, k, ZERO) == Get(c.types, k, ZERO)
      ensures Get(a.caches, k, ZERO) == Get(c.caches, k, ZERO)
    {
      assert Get(a.groups, k, ZERO) == Get(b.groups, k, ZERO) && Get(a.types, k, ZERO) == Get(b.types, k, ZERO);
      assert Get(a.caches, k, ZERO) == Get(b.caches, k, ZERO);
    }
  }

  lemma {:induction false} AddNothing(m: map<string, CacheStats>, k: string, more: map<string, CacheStats>)
    requires Get(more, k, ZERO) == ZERO
    ensures Same(m, AddEntry(m, k, more), ZERO)
  {
    assert Sum(Get(m, k, ZERO), ZERO) == Get(m, k, ZERO);
  }

  /** Adding a balanced stat without counts changes no entry. */
  lemma {:induction false} AddNoMaps(m: Maps, more: Maps, v: Visit)
    requires Balanced(v) && v.value == StatValue(ZERO, more.groups, more.types, more.caches)
    ensures SameMaps(m, AddMaps(m, more, v.server, v.group, v.kind))
  {
    forall dim
      ensures Get(Breakdown(v.value, dim), NameOf(v, dim), ZERO) == ZERO
    {
      assert Same(Breakdown(v.value, dim), map[NameOf(v, dim) := v.value.total], ZERO);
    }
    assert Get(Breakdown(v.value, ByGroup), v.group, ZERO) == ZERO && Get(Breakdown(v.value, ByType), v.kind, ZERO) == ZERO;
    assert Get(Breakdown(v.value, ByCache), v.server, ZERO) == ZERO;
    AddNothing(m.groups, v.group, more.groups);
    AddNothing(m.types, v.kind, more.types);
    AddNothing(m.caches, v.server, more.caches);
  }

  /** The maps are none of those made for the result. */
  ghost predicate NotMade(st0: State, r: Ref) {
    forall d | d in st0.ds :: st0.ds[d].ref != r
  }

  ghost predicate InputsApart(st0: State, pre: Precomputed) {
    forall p | Present(pre, p) :: NotMade(st0, At(pre, p).ref)
  }

  ghost predicate StaySame(cells: Cells, cells': Cells, r: Ref) {
    SameMaps(MapsAt(cells, r), MapsAt(cells', r))
  }

  /** All maps but those made for the result hold what they did. */
  ghost predicate OthersSame(cells: Cells, st0: State, st: State) {
    forall r | NotMade(st0, r) :: StaySame(cells, st.cells, r)
  }

  /** The stat of a slot is added to the maps of its service, if there are any. */
  lemma {:induction false} AddStatCells(st: State, pre: Precomputed, t: TOData, x: Slot, r: Ref)
    requires Included(pre, t, x)
    ensures MapsAt(AddStat(st, pre, t, x).cells, r) ==
      if x.ds in st.ds && st.ds[x.ds].ref == r then
        AddMaps(MapsAt(st.cells, r), MapsAt(st.cells, At(pre, x).ref), x.server, t.serverCachegroups[x.server], t.serverTypes[x.server])
      else MapsAt(st.cells, r)
  {
  }

  lemma {:induction false} BalancedStays(cells: Cells, cells': Cells, pre: Precomputed, t: TOData, p: Slot)
    requires Included(pre, t, p) && Balanced(VisitOf(cells, pre, t, p))
    requires SameMaps(MapsAt(cells, At(pre, p).ref), MapsAt(cells', At(pre, p).ref))
    ensures Balanced(VisitOf(cells', pre, t, p))
  {
    var v, v' := VisitOf(cells, pre, t, p), VisitOf(cells', pre, t, p);
    forall dim, k
      ensures Get(Breakdown(v'.value, dim), k, ZERO) == Get(map[NameOf(v', dim) := v'.value.total], k, ZERO)
    {
      assert Same(Breakdown(v.value, dim), map[NameOf(v, dim) := v.value.total], ZERO);
      assert Get(Breakdown(v.value, dim), k, ZERO) == Get(map[NameOf(v, dim) := v.value.total], k, ZERO);
      SameSymmetricMaps(MapsAt(cells, At(pre, p).ref), MapsAt(cells', At(pre, p).ref));
      assert Get(Breakdown(v'.value, dim), k, ZERO) == Get(Breakdown(v.value, dim), k, ZERO);
    }
  }

  /** What is written to is made for the result, or gets a stat without counts. */
  lemma {:induction false} WrittenIsMade(st0: State, st: State, pre: Precomputed, t: TOData, order: seq<Slot>, x: Slot)
    requires SharedAreZero(pre, t) && st0.ds.Keys == Named(t) && Included(pre, t, x) && x !in order
    requires forall i | 0 <= i < |order| :: Included(pre, t, order[i])
    requires Owned(st0, st, pre, order) && x.ds in st.ds && NotMade(st0, st.ds[x.ds].ref)
    ensures At(pre, x).total == ZERO
  {
    assert x.ds !in st0.ds;
    var y :| y in order && Present(pre, y) && y.ds == x.ds && st.ds[x.ds].ref == At(pre, y).ref;
    assert Included(pre, t, y) && y != x;
  }

  lemma {:induction false} StaysSameAt(cells: Cells, st: State, pre: Precomputed, t: TOData, x: Slot, r: Ref)
    requires Included(pre, t, x) && Balanced(VisitOf(cells, pre, t, x))
    requires StaySame(cells, st.cells, r) && StaySame(cells, st.cells, At(pre, x).ref)
    requires x.ds in st.ds && st.ds[x.ds].ref == r ==> At(pre, x).total == ZERO
    ensures StaySame(cells, AddStat(st, pre, t, x).cells, r)
  {
    AddStatCells(st, pre, t, x, r);
    if x.ds in st.ds && st.ds[x.ds].ref == r {
      BalancedStays(cells, st.cells, pre, t, x);
      AddNoMaps(MapsAt(st.cells, r), MapsAt(st.cells, At(pre, x).ref), VisitOf(st.cells, pre, t, x));
      SameTransitiveMaps(MapsAt(cells, r), MapsAt(st.cells, r), MapsAt(AddStat(st, pre, t, x).cells, r));
    }
  }

  lemma {:induction false} OthersSameStep(st0: State, st: State, pre: Precomputed, t: TOData, order: seq<Slot>, x: Slot)
    requires SharedAreZero(pre, t) && BalancedInputs(st0.cells, pre, t) && st0.ds.Keys == Named(t)
    requires Included(pre, t, x) && x !in order && (forall i | 0 <= i < |order| :: Included(pre, t, order[i]))
    requires InputsApart(st0, pre) && Owned(st0, st, pre, order) && OthersSame(st0.cells, st0, st)
    ensures OthersSame(st0.cells, st0, AddStat(st, pre, t, x))
  {
    forall r | NotMade(st0, r)
      ensures StaySame(st0.cells, AddStat(st, pre, t, x).cells, r)
    {
      assert NotMade(st0, At(pre, x).ref);
      assert StaySame(st0.cells, st.cells, r) && StaySame(st0.cells, st.cells, At(pre, x).ref);
      if x.ds in st.ds && st.ds[x.ds].ref == r {
        WrittenIsMade(st0, st, pre, t, order, x);
      }
      StaysSameAt(st0.cells, st, pre, t, x, r);
    }
  }

  lemma {:induction false} OthersStaySame(st0: State, pre: Precomputed, t: TOData, order: seq<Slot>)
    requires SharedAreZero(pre, t) && BalancedInputs(st0.cells, pre, t) && st0.ds.Keys == Named(t) && Slots(order, pre, t)
    requires InputsApart(st0, pre)
    ensures var st := AddStats(st0, pre, t, order); Owned(st0, st, pre, order) && OthersSame(st0.cells, st0, st)
  {
    if order != [] {
      var before, x := order[..|order| - 1], order[|order| - 1];
      OthersStaySame(st0, pre, t, before);
      LastSlot(st0, map[], pre, t, order);
      OwnedStep(st0, AddStats(st0, pre, t, before), pre, t, before, x);
      OthersSameStep(st0, AddStats(st0, pre, t, before), pre, t, before, x);
    }
  }

  /** The inputs stay balanced for the next round. */
  lemma {:induction false} StaysBalanced(cells: Cells, st0: State, pre: Precomputed, t: TOData, order: seq<Slot>)
    requires SharedAreZero(pre, t) && BalancedInputs(cells, pre, t) && Ready(cells, st0, pre, t) && Slots(order, pre, t)
    ensures BalancedInputs(AddStats(st0, pre, t, order).cells, pre, t)
  {
    ReadyIsBalanced(cells, st0, pre, t);
    OthersStaySame(st0, pre, t, order);
    forall p | Included(pre, t, p)
      ensures Balanced(VisitOf(AddStats(st0, pre, t, order).cells, pre, t, p))
    {
      BalancedStays(st0.cells, AddStats(st0, pre, t, order).cells, pre, t, p);
    }
  }

  lemma {:induction false} ReadyIsBalanced(cells: Cells, st0: State, pre: Precomputed, t: TOData)
    requires BalancedInputs(cells, pre, t) && Ready(cells, st0, pre, t)
    ensures BalancedInputs(st0.cells, pre, t)
  {
    forall p | Included(pre, t, p)
      ensures Balanced(VisitOf(st0.cells, pre, t, p))
    {
      assert VisitOf(st0.cells, pre, t, p) == VisitOf(cells, pre, t, p);
    }
  }

  // ---------- Rounds ----------

  /** One aggregation: the state with the stats made in advance, and the order of the slots. */
  datatype Round = Round(st0: State, order: seq<Slot>)

  /** The state in which a round ends. */
  ghost function EndOf(r: Round, pre: Precomputed, t: TOData): State
    requires Slots(r.order, pre, t)
  {
    AddStats(r.st0, pre, t, r.order)
  }

  /** A round starts with the maps as they are, and adds every stat once. */
  ghost predicate CanFollow(cells: Cells, r: Round, pre: Precomputed, t: TOData) {
    Ready(cells, r.st0, pre, t) && Starts(ViewOf(r.st0)) && Covers(r.order, pre, t)
  }

  /** Rounds over the same precomputed stats, one after the other. */
  ghost predicate AreRounds(cells: Cells, rounds: seq<Round>, pre: Precomputed, t: TOData)
    decreases rounds
  {
    rounds == [] || (CanFollow(cells, rounds[0], pre, t) && AreRounds(EndOf(rounds[0], pre, t).cells, rounds[1..], pre, t))
  }

  /** All stats that a round ends with are right. */
  ghost predicate Right(r: Round, pre: Precomputed, t: TOData)
    requires Slots(r.order, pre, t)
  {
    var st := EndOf(r, pre, t);
    forall d | d in st.ds :: Correct(ValueOf(st.cells, st.ds[d]), pre, t, d)
  }

  ghost predicate AllRight(rounds: seq<Round>, pre: Precomputed, t: TOData) {
    forall k | 0 <= k < |rounds| :: Slots(rounds[k].order, pre, t) && Right(rounds[k], pre, t)
  }

  lemma {:induction false} RoundsAreRight(cells: Cells, rounds: seq<Round>, pre: Precomputed, t: TOData)
    requires SharedAreZero(pre, t) && BalancedInputs(cells, pre, t) && AreRounds(cells, rounds, pre, t)
    ensures AllRight(rounds, pre, t)
    decreases rounds
  {
    if rounds != [] {
      var r := rounds[0];
      forall d | d in EndOf(r, pre, t).ds
        ensures var st := EndOf(r, pre, t); Correct(ValueOf(st.cells, st.ds[d]), pre, t, d)
      {
        TotalsAreCorrect(cells, r.st0, pre, t, r.order, d);
      }
      StaysBalanced(cells, r.st0, pre, t, r.order);
      RoundsAreRight(EndOf(r, pre, t).cells, rounds[1..], pre, t);
      assert forall k | 1 <= k < |rounds| :: rounds[k] == rounds[1..][k - 1];
    }
  }

  // ---------- When something that is shared counts ----------

  /** What the maps of a server say of a server, by cache. */
  function ByServer(cells: Cells, pre: Precomputed, p: Slot, server: CacheName): CacheStats
    requires Present(pre, p)
  {
    Get(MapsAt(cells, At(pre, p).ref).caches, server, ZERO)
  }

  /** The service of `p` and `q` has taken over the maps of `p`, in which the entry of `q` was added to iff it had its turn. */
  ghost predicate TakenOver(st0: State, st: State, pre: Precomputed, order: seq<Slot>, p: Slot, q: Slot)
    requires Present(pre, p) && Present(pre, q)
  {
    && p.ds in st.ds && st.ds[p.ds].ref == At(pre, p).ref && MapsAt(st.cells, At(pre, q).ref) == MapsAt(st0.cells, At(pre, q).ref)
    && ByServer(st.cells, pre, p, q.server)
       == if q in order then Sum(ByServer(st0.cells, pre, p, q.server), ByServer(st0.cells, pre, q, q.server))
          else ByServer(st0.cells, pre, p, q.server)
  }

  /** The turn of a slot `x`, as the maps of `p` and `q` show it. */
  ghost predicate Turn(st: State, st': State, pre: Precomputed, p: Slot, q: Slot, x: Slot)
    requires Present(pre, p) && Present(pre, q)
  {
    && p.ds in st'.ds && st'.ds[p.ds].ref == At(pre, p).ref && MapsAt(st'.cells, At(pre, q).ref) == MapsAt(st.cells, At(pre, q).ref)
    && ByServer(st'.cells, pre, p, q.server)
       == if x == q then Sum(ByServer(st.cells, pre, p, q.server), ByServer(st.cells, pre, q, q.server))
          else ByServer(st.cells, pre, p, q.server)
  }

  lemma {:induction false} TurnTaken(st0: State, st: State, st': State, pre: Precomputed, order: seq<Slot>, p: Slot, q: Slot, x: Slot)
    requires Present(pre, p) && Present(pre, q) && x !in order && Turn(st, st', pre, p, q, x)
    requires TakenOver(st0, st, pre, order, p, q)
    ensures TakenOver(st0, st', pre, order + [x], p, q)
  {
    SameByServer(st0.cells, st.cells, pre, q, q.server);
    assert q in order + [x] <==> q in order || q == x;
  }

  lemma {:induction false} TurnOfOwn(st: State, pre: Precomputed, t: TOData, p: Slot, q: Slot, x: Slot)
    requires Present(pre, p) && Present(pre, q) && Included(pre, t, x) && Apart(pre) && p.ds == q.ds == x.ds && p != q
    requires p.ds in st.ds && st.ds[p.ds].ref == At(pre, p).ref
    ensures Turn(st, AddStat(st, pre, t, x), pre, p, q, x)
  {
    assert At(pre, p).ref != At(pre, q).ref;
    AddStatCells(st, pre, t, x, At(pre, q).ref);
    ServerAdded(st, pre, t, p, q.server, x);
    assert x.server == q.server <==> x == q;
  }

  lemma {:induction false} TurnOfOther(st: State, pre: Precomputed, t: TOData, p: Slot, q: Slot, x: Slot)
    requires Present(pre, p) && Present(pre, q) && Included(pre, t, x) && p.ds == q.ds != x.ds
    requires p.ds in st.ds && st.ds[p.ds].ref == At(pre, p).ref
    requires x.ds in st.ds ==> st.ds[x.ds].ref != At(pre, p).ref && st.ds[x.ds].ref != At(pre, q).ref
    ensures Turn(st, AddStat(st, pre, t, x), pre, p, q, x)
  {
    AddStatCells(st, pre, t, x, At(pre, q).ref);
    AddStatCells(st, pre, t, x, At(pre, p).ref);
  }

  lemma {:induction false} SameByServer(cells: Cells, cells': Cells, pre: Precomputed, p: Slot, server: CacheName)
    requires Present(pre, p) && MapsAt(cells', At(pre, p).ref) == MapsAt(cells, At(pre, p).ref)
    ensures ByServer(cells', pre, p, server) == ByServer(cells, pre, p, server)
  {
  }

  lemma {:induction false} TakenOverStep(st0: State, st: State, pre: Precomputed, t: TOData, order: seq<Slot>, p: Slot, q: Slot, x: Slot)
    requires Present(pre, p) && Present(pre, q) && Included(pre, t, x) && x !in order
    requires Apart(pre) && p.ds == q.ds && p != q && InputsApart(st0, pre)
    requires Owned(st0, st, pre, order) && TakenOver(st0, st, pre, order, p, q)
    ensures TakenOver(st0, AddStat(st, pre, t, x), pre, order + [x], p, q)
  {
    if x.ds == p.ds {
      TurnOfOwn(st, pre, t, p, q, x);
    } else {
      if x.ds in st.ds {
        OtherOwner(st0, st, pre, order, p, q, x.ds);
      }
      TurnOfOther(st, pre, t, p, q, x);
    }
    TurnTaken(st0, st, AddStat(st, pre, t, x), pre, order, p, q, x);
  }

  /** A stat that is added to the maps of `p` adds to the entry of its own server only. */
  lemma {:induction false} ServerAdded(st: State, pre: Precomputed, t: TOData, p: Slot, server: CacheName, x: Slot)
    requires Present(pre, p) && Included(pre, t, x) && x.ds in st.ds && st.ds[x.ds].ref == At(pre, p).ref
    ensures ByServer(AddStat(st, pre, t, x).cells, pre, p, server)
      == if x.server == server then Sum(ByServer(st.cells, pre, p, server), ByServer(st.cells, pre, x, server))
         else ByServer(st.cells, pre, p, server)
  {
    AddStatCells(st, pre, t, x, At(pre, p).ref);
  }

  lemma {:induction false} SumWithZero(a: CacheStats)
    ensures Sum(a, ZERO) == a == Sum(ZERO, a)
  {
  }

  /** No other service has the maps of `p` or `q`. */
  lemma {:induction false} OtherOwner(st0: State, st: State, pre: Precomputed, order: seq<Slot>, p: Slot, q: Slot, d: DeliveryServiceName)
    requires Present(pre, p) && Present(pre, q) && Apart(pre) && p.ds == q.ds != d && d in st.ds && Owned(st0, st, pre, order)
    requires InputsApart(st0, pre)
    ensures st.ds[d].ref != At(pre, p).ref && st.ds[d].ref != At(pre, q).ref
  {
    if d !in st0.ds {
      var y :| y in order && Present(pre, y) && y.ds == d && st.ds[d].ref == At(pre, y).ref;
    }
  }

  lemma {:induction false} TakesFirst(st0: State, pre: Precomputed, t: TOData, p: Slot, q: Slot)
    requires Included(pre, t, p) && Present(pre, q) && p.ds == q.ds && p != q && p.ds !in st0.ds
    ensures var st := AddStat(st0, pre, t, p); Owned(st0, st, pre, [p]) && TakenOver(st0, st, pre, [p], p, q)
  {
    assert p in [p] && q !in [p];
    assert AddStat(st0, pre, t, p).cells == st0.cells;
  }

  lemma {:induction false} TakesOver(st0: State, pre: Precomputed, t: TOData, order: seq<Slot>, p: Slot, q: Slot)
    requires Slots(order, pre, t) && order != [] && order[0] == p && Present(pre, q) && Apart(pre)
    requires p.ds == q.ds && p != q && p.ds !in st0.ds && InputsApart(st0, pre)
    ensures var st := AddStats(st0, pre, t, order); Owned(st0, st, pre, order) && TakenOver(st0, st, pre, order, p, q)
  {
    var before, x := order[..|order| - 1], order[|order| - 1];
    LastSlot(st0, map[], pre, t, order);
    if before == [] {
      assert AddStats(st0, pre, t, []) == st0 && order == [p];
      TakesFirst(st0, pre, t, p, q);
    } else {
      assert before[0] == p && p in before;
      TakesOver(st0, pre, t, before, p, q);
      OwnedStep(st0, AddStats(st0, pre, t, before), pre, t, before, x);
      TakenOverStep(st0, AddStats(st0, pre, t, before), pre, t, before, p, q, x);
    }
  }

  // ---------- Two rounds ----------

  lemma {:induction false} FreshRef(cells: Cells) returns (r: Ref)
    ensures forall k | k in cells :: k < r
    decreases |cells|
  {
    if cells == map[] {
      return 0;
    }
    var k :| k in cells;
    var rest := FreshRef(cells - {k});
    r := if k < rest then rest else k + 1;
    assert forall j | j in cells && j != k :: j in cells - {k};
  }

  /** Empty stats in new maps, for some names. */
  lemma {:induction false} MakeEmpty(cells: Cells, names: set<DeliveryServiceName>) returns (st: State)
    ensures st.ds.Keys == names && Separate(st.ds) && cells.Keys <= st.cells.Keys
    ensures forall d | d in names :: st.ds[d].ref in st.cells && st.ds[d].ref !in cells && ValueOf(st.cells, st.ds[d]) == EMPTY
    ensures forall r | r in cells :: st.cells[r] == cells[r]
    decreases names
  {
    if names == {} {
      return State(cells, map[]);
    }
    var d :| d in names;
    var rest := MakeEmpty(cells, names - {d});
    var r := FreshRef(rest.cells);
    st := State(rest.cells[r := Maps(map[], map[], map[])], rest.ds[d := Stat(ZERO, r)]);
  }

  /** All included slots, with the given one first. */
  lemma {:induction false} OrderFrom(pre: Precomputed, t: TOData, p: Slot) returns (order: seq<Slot>)
    requires Included(pre, t, p)
    ensures Covers(order, pre, t) && order != [] && order[0] == p
  {
    var all := set s, d | s in pre && d in pre[s] && Included(pre, t, Slot(s, d)) :: Slot(s, d);
    assert forall x :: Included(pre, t, x) <==> x in all by {
      forall x | Included(pre, t, x)
        ensures x in all
      {
        assert x == Slot(x.server, x.ds);
      }
    }
    order := [p];
    var todo := all - {p};
    while todo != {}
      invariant todo <= all && order != [] && order[0] == p && Slots(order, pre, t)
      invariant forall x :: x in order <==> x in all && x !in todo
      decreases todo
    {
      var x :| x in todo;
      order, todo := order + [x], todo - {x};
    }
  }

  ghost predicate InputsIn(cells: Cells, pre: Precomputed) {
    Apart(pre) && forall p | Present(pre, p) :: At(pre, p).ref in cells
  }

  lemma {:induction false} RoundFrom(cells: Cells, pre: Precomputed, t: TOData, p: Slot) returns (r: Round)
    requires InputsIn(cells, pre) && Included(pre, t, p)
    ensures CanFollow(cells, r, pre, t) && r.order != [] && r.order[0] == p && InputsIn(EndOf(r, pre, t).cells, pre)
  {
    var st0 := MakeEmpty(cells, Named(t));
    var order := OrderFrom(pre, t, p);
    r := Round(st0, order);
    CellsAreKept(st0, pre, t, order);
    forall d | d in st0.ds
      ensures SameStat(EMPTY, ViewOf(st0)[d])
    {
      assert ViewOf(st0)[d] == EMPTY;
    }
  }

  ghost predicate AddedOnce(cells: Cells, st: State, pre: Precomputed, p: Slot, q: Slot)
    requires Present(pre, p) && Present(pre, q)
  {
    && p.ds in st.ds && st.ds[p.ds].ref == At(pre, p).ref && ByServer(st.cells, pre, q, q.server) == ByServer(cells, pre, q, q.server)
    && ByServer(st.cells, pre, p, q.server) == Sum(ByServer(cells, pre, p, q.server), ByServer(cells, pre, q, q.server))
  }

  /** After a round from `p` its maps have the entry of `q` once more, and those of `q` are as they were. */
  lemma {:induction false} RoundAdds(cells: Cells, r: Round, pre: Precomputed, t: TOData, p: Slot, q: Slot)
    requires CanFollow(cells, r, pre, t) && r.order != [] && r.order[0] == p
    requires Included(pre, t, p) && Included(pre, t, q) && p.ds == q.ds && p != q && p.ds !in t.deliveryServiceServers
    ensures AddedOnce(cells, EndOf(r, pre, t), pre, p, q)
  {
    assert InputsApart(r.st0, pre) && p.ds !in r.st0.ds && q in r.order;
    TakesOver(r.st0, pre, t, r.order, p, q);
    SameByServer(cells, r.st0.cells, pre, p, q.server);
    SameByServer(cells, r.st0.cells, pre, q, q.server);
    SameByServer(r.st0.cells, EndOf(r, pre, t).cells, pre, q, q.server);
  }

  lemma {:induction false} ExpectedOfOne(pre: Precomputed, t: TOData, q: Slot)
    requires Included(pre, t, q)
    ensures SumOf(Expected(pre, t, q.ds, Entry(ByCache, q.server))) == At(pre, q).total
  {
    assert Slot(q.server, q.ds) == q;
    assert Expected(pre, t, q.ds, Entry(ByCache, q.server)) == map[][q.server := At(pre, q).total];
    SumWithZero(At(pre, q).total);
    SumOfAdd(map[], q.server, At(pre, q).total);
    assert Get(map[], q.server, ZERO) == ZERO;
    SumIsAdditive();
    assert SumOf(map[]) == ZERO;
  }

  /** In the second of two rounds that both start with `p`, what `q` counts is there twice. */
  lemma {:induction false} SecondRoundIsWrong(cells: Cells, pre: Precomputed, t: TOData, p: Slot, q: Slot) returns (rounds: seq<Round>)
    requires InputsIn(cells, pre) && FreshInputs(cells, pre, t) && Included(pre, t, p) && Included(pre, t, q)
    requires p.ds == q.ds && p != q && p.ds !in t.deliveryServiceServers && Sum(At(pre, q).total, At(pre, q).total) != At(pre, q).total
    ensures AreRounds(cells, rounds, pre, t) && !AllRight(rounds, pre, t)
  {
    var r1 := RoundFrom(cells, pre, t, p);
    var cells1 := EndOf(r1, pre, t).cells;
    var r2 := RoundFrom(cells1, pre, t, p);
    rounds := [r1, r2];
    assert rounds[1..] == [r2] && [r2][1..] == [];
    RoundAdds(cells, r1, pre, t, p, q);
    RoundAdds(cells1, r2, pre, t, p, q);
    FreshCaches(cells, pre, t, p);
    FreshCaches(cells, pre, t, q);
    SumWithZero(At(pre, q).total);
    var st := EndOf(r2, pre, t);
    ExpectedOfOne(pre, t, q);
    assert Get(Breakdown(ValueOf(st.cells, st.ds[p.ds]), ByCache), q.server, ZERO) == Sum(At(pre, q).total, At(pre, q).total);
    assert !Correct(ValueOf(st.cells, st.ds[p.ds]), pre, t, p.ds);
    assert !Right(rounds[1], pre, t);
  }

  /** The stats have counts only: flags and rates are not precomputed. */
  ghost predicate CountsOnly(pre: Precomputed) {
    forall p | Present(pre, p) :: var c := At(pre, p).total;
      !c.isAvailable && c.kbps == c.tps5xx == c.tps4xx == c.tps3xx == c.tps2xx == c.tpsTotal == 0.0
  }

  /** For all fresh stats: in all rounds over them, in all orders, every total and breakdown is right iff no service
      that Traffic Ops does not know is reported by two counted servers of which one counts anything. */
  lemma {:induction false} AllRightIff(cells: Cells, pre: Precomputed, t: TOData)
    requires InputsIn(cells, pre) && FreshInputs(cells, pre, t) && CountsOnly(pre)
    ensures (forall rounds | AreRounds(cells, rounds, pre, t) :: AllRight(rounds, pre, t)) <==> SharedAreZero(pre, t)
  {
    if SharedAreZero(pre, t) {
      FreshIsBalanced(cells, pre, t);
      forall rounds | AreRounds(cells, rounds, pre, t)
        ensures AllRight(rounds, pre, t)
      {
        RoundsAreRight(cells, rounds, pre, t);
      }
    } else {
      var q, p :| Included(pre, t, q) && Included(pre, t, p) && q.ds == p.ds && q.ds !in t.deliveryServiceServers && q != p && At(pre, q).total != ZERO;
      var rounds := SecondRoundIsWrong(cells, pre, t, p, q);
    }
  }
}
