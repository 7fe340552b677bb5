/** The run-length encoded history of the stats polled from each cache
    (`traffic_monitor/cache/data.go`). */
module StatHistory {
  import opened Core

  /** `span` is the number of consecutive polls that returned `val`; `time` is that of the latest. */
  datatype StatVal = StatVal(val: Value, time: int, span: nat)

  datatype Comparison = Same | Different | Incomparable

  /** The value types which may be compared. */
  predicate Primitive(v: Value) {
    v.Float? || v.Text? || v.Flag?
  }

  function NewStatEqual(history: seq<StatVal>, v: Value): Comparison {
    if history == [] then Different
    else if !Primitive(v) || !Primitive(history[0].val) then Incomparable
    else if v == history[0].val then Same
    else Different
  }

  /** Only text, floats and flags are compared, with each other; a stat without history is new. */
  lemma {:induction false} ComparedIff(history: seq<StatVal>, v: Value)
    ensures history == [] ==> NewStatEqual(history, v) == Different
    ensures history != [] ==>
      var last := history[0].val;
      && (NewStatEqual(history, v) == Same <==>
            || (v.Float? && last.Float? && v.f == last.f) || (v.Text? && last.Text? && v.s == last.s)
            || (v.Flag? && last.Flag? && v.b == last.b))
      && (NewStatEqual(history, v) == Incomparable <==> v.Integer? || v.Composite? || last.Integer? || last.Composite?)
  {
  }

  /** A history over the limit is cut to one less than the limit. */
  function Pruned(history: seq<StatVal>, limit: nat): seq<StatVal>
    requires limit >= 1
  {
    if |history| > limit then history[..limit - 1] else history
  }

  /** What one poll does to the history of one stat. */
  function AddStat(history: seq<StatVal>, v: Value, time: int, limit: nat): seq<StatVal>
    requires limit >= 1
  {
    match NewStatEqual(history, v)
    case Incomparable => history
    case Same => [history[0].(time := time, span := history[0].span + 1)] + history[1..]
    case Different => Pruned([StatVal(v, time, 1)] + history, limit)
  }

  // ---------- Runs of polls of one stat ----------

  datatype Poll = Poll(val: Value, time: int, limit: nat)

  ghost predicate Limits(polls: seq<Poll>, least: nat) {
    forall i | 0 <= i < |polls| :: polls[i].limit >= least
  }

  ghost predicate AllPrimitive(polls: seq<Poll>) {
    forall i | 0 <= i < |polls| :: Primitive(polls[i].val)
  }

  /** The history after the polls, which are given oldest first. */
  ghost function Run(polls: seq<Poll>): seq<StatVal>
    requires Limits(polls, 1)
  {
    if polls == [] then []
    else
      var p := polls[|polls| - 1];
      AddStat(Run(polls[..|polls| - 1]), p.val, p.time, p.limit)
  }

  /** All values polled, newest first. */
  ghost function NewestFirst(polls: seq<Poll>): seq<Value> {
    if polls == [] then []
    else [polls[|polls| - 1].val] + NewestFirst(polls[..|polls| - 1])
  }

  /** The values that were not rejected as incomparable, newest first. */
  ghost function Recorded(polls: seq<Poll>): seq<Value>
    requires Limits(polls, 1)
  {
    if polls == [] then []
    else
      var before := polls[..|polls| - 1];
      var v := polls[|polls| - 1].val;
      if NewStatEqual(Run(before), v) == Incomparable then Recorded(before)
      else [v] + Recorded(before)
  }

  ghost function Repeat(v: Value, n: nat): seq<Value> {
    seq(n, i => v)
  }

  /** The values an encoded history stands for. */
  ghost function Expand(history: seq<StatVal>): seq<Value> {
    if history == [] then []
    else Repeat(history[0].val, history[0].span) + Expand(history[1..])
  }

  /** A run-length encoding with no empty run and no two runs that could be one. */
  ghost predicate Canonical(history: seq<StatVal>) {
    && (forall i | 0 <= i < |history| :: history[i].span >= 1)
    && (forall i | 0 < i < |history| :: history[i - 1].val != history[i].val)
  }

  lemma {:induction false} ExpandPrefix(h: seq<StatVal>, k: nat)
    requires k <= |h|
    ensures Expand(h[..k]) <= Expand(h)
  {
    if k > 0 {
      ExpandPrefix(h[1..], k - 1);
      assert h[..k][1..] == h[1..][..k - 1];
    }
  }

  lemma {:induction false} PrefixOfConcat<T>(a: seq<T>, b: seq<T>, c: seq<T>)
    requires b <= c
    ensures a + b <= a + c
  {
    assert (a + c)[..|a + b|] == a + b;
  }

  /** One poll that is not rejected puts its value in front of the expansion, and at most drops
      a tail of the rest. */
  lemma {:induction false} AddStatExpands(h: seq<StatVal>, v: Value, time: int, limit: nat)
    requires limit >= 1
    requires NewStatEqual(h, v) != Incomparable
    ensures Expand(AddStat(h, v, time, limit)) <= [v] + Expand(h)
  {
    var h' := AddStat(h, v, time, limit);
    if NewStatEqual(h, v) == Same {
      assert h'[1..] == h[1..];
      assert Repeat(v, h[0].span + 1) == [v] + Repeat(v, h[0].span);
    } else {
      var full := [StatVal(v, time, 1)] + h;
      assert full[1..] == h;
      assert Repeat(v, 1) == [v];
      assert Expand(full) == [v] + Expand(h);
      if |full| > limit {
        ExpandPrefix(full, limit - 1);
      }
    }
  }

  /** Expanding a history by its spans gives a newest-first prefix of the recorded values,
      whatever the limits in force at each poll. */
  lemma {:induction false} ExpansionIsNewestValues(polls: seq<Poll>)
    requires Limits(polls, 1)
    ensures Expand(Run(polls)) <= Recorded(polls)
  {
    if polls != [] {
      var before := polls[..|polls| - 1];
      var p := polls[|polls| - 1];
      ExpansionIsNewestValues(before);
      if NewStatEqual(Run(before), p.val) != Incomparable {
        AddStatExpands(Run(before), p.val, p.time, p.limit);
        PrefixOfConcat([p.val], Expand(Run(before)), Recorded(before));
      }
    }
  }

  /** Nothing is rejected as long as every value polled is a primitive. */
  lemma {:induction false} PrimitivesAreRecorded(polls: seq<Poll>)
    requires Limits(polls, 1) && AllPrimitive(polls)
    ensures Recorded(polls) == NewestFirst(polls)
    ensures forall i | 0 <= i < |Run(polls)| :: Primitive(Run(polls)[i].val)
  {
    if polls != [] {
      PrimitivesAreRecorded(polls[..|polls| - 1]);
    }
  }

  /** Poll `i` is of a composite value, onto an empty history. */
  ghost predicate FreezesAt(polls: seq<Poll>, i: nat)
    requires Limits(polls, 1) && i < |polls|
  {
    !Primitive(polls[i].val) && Run(polls[..i]) == []
  }

  /** A composite value is stored when it is polled onto an empty history, and then every later poll of that stat is
      rejected: the history is frozen. */
  lemma {:induction false} CompositeFreezes(polls: seq<Poll>, i: nat)
    requires Limits(polls, 1) && i < |polls| && FreezesAt(polls, i)
    ensures Run(polls) == [StatVal(polls[i].val, polls[i].time, 1)]
    ensures Recorded(polls) == [polls[i].val] + Recorded(polls[..i])
  {
    var before := polls[..|polls| - 1];
    if i < |before| {
      assert before[..i] == polls[..i];
      CompositeFreezes(before, i);
    }
  }

  ghost predicate Frozen(polls: seq<Poll>)
    requires Limits(polls, 1)
  {
    Run(polls) != [] && !Primitive(Run(polls)[0].val)
  }

  /** That is the only way to freeze a history. Every history is empty at first, so a composite first value does; with a
      limit of 1 it is empty again after some changes. */
  lemma {:induction false} FrozenIff(polls: seq<Poll>)
    requires Limits(polls, 1)
    ensures Frozen(polls) <==> exists i :: 0 <= i < |polls| && FreezesAt(polls, i)
  {
    if i :| 0 <= i < |polls| && FreezesAt(polls, i) {
      CompositeFreezes(polls, i);
    } else if polls != [] {
      var before := polls[..|polls| - 1];
      forall i | 0 <= i < |before|
        ensures !FreezesAt(before, i)
      {
        assert before[..i] == polls[..i] && !FreezesAt(polls, i);
      }
      FrozenIff(before);
      assert !FreezesAt(polls, |polls| - 1);
    }
  }

  ghost predicate RejectedAt(polls: seq<Poll>, i: nat)
    requires Limits(polls, 1) && i < |polls|
  {
    NewStatEqual(Run(polls[..i]), polls[i].val) == Incomparable
  }

  lemma {:induction false} RecordedLength(polls: seq<Poll>)
    requires Limits(polls, 1)
    ensures |Recorded(polls)| <= |NewestFirst(polls)|
    ensures |Recorded(polls)| == |NewestFirst(polls)| ==> Recorded(polls) == NewestFirst(polls)
    ensures Recorded(polls) == NewestFirst(polls) <==> forall i | 0 <= i < |polls| :: !RejectedAt(polls, i)
  {
    if polls != [] {
      var before := polls[..|polls| - 1];
      RecordedLength(before);
      forall i | 0 <= i < |before|
        ensures RejectedAt(before, i) <==> RejectedAt(polls, i)
      {
        assert before[..i] == polls[..i];
      }
      assert RejectedAt(polls, |polls| - 1) <==> NewStatEqual(Run(before), polls[|polls| - 1].val) == Incomparable;
    }
  }

  /** Whatever the limits: every polled value is recorded iff none is composite, but for the last one, if that is polled
      onto an empty history. */
  lemma {:induction false} AllRecordedIff(polls: seq<Poll>)
    requires Limits(polls, 1)
    ensures Recorded(polls) == NewestFirst(polls)
      <==> forall i | 0 <= i < |polls| && !Primitive(polls[i].val) :: i == |polls| - 1 && Run(polls[..i]) == []
  {
    RecordedLength(polls);
    if forall i | 0 <= i < |polls| && !Primitive(polls[i].val) :: i == |polls| - 1 && Run(polls[..i]) == [] {
      forall i | 0 <= i < |polls|
        ensures !RejectedAt(polls, i)
      {
        NotRejected(polls, i);
      }
    } else {
      var i :| 0 <= i < |polls| && !Primitive(polls[i].val) && !(i == |polls| - 1 && Run(polls[..i]) == []);
      if Run(polls[..i]) == [] {
        assert polls[..i + 1][..i] == polls[..i];
        CompositeFreezes(polls[..i + 1], i);
        assert RejectedAt(polls, i + 1);
      } else {
        assert RejectedAt(polls, i);
      }
    }
  }

  lemma {:induction false} NotRejected(polls: seq<Poll>, i: nat)
    requires Limits(polls, 1) && i < |polls|
    requires forall k | 0 <= k < |polls| && !Primitive(polls[k].val) :: k == |polls| - 1 && Run(polls[..k]) == []
    ensures !RejectedAt(polls, i)
  {
    var before := polls[..i];
    FrozenIff(before);
    forall k | 0 <= k < |before|
      ensures !FreezesAt(before, k)
    {
      assert before[k] == polls[k];
    }
  }

  lemma {:induction false} NeverEmpty(polls: seq<Poll>)
    requires Limits(polls, 2) && polls != []
    ensures Run(polls) != []
  {
    if |polls| > 1 {
      NeverEmpty(polls[..|polls| - 1]);
    }
  }

  /** With limits of at least 2 every value is recorded iff all are primitive, or there is just one. */
  lemma {:induction false} AllRecordedIffPrimitive(polls: seq<Poll>)
    requires Limits(polls, 2)
    ensures Recorded(polls) == NewestFirst(polls) <==> |polls| <= 1 || AllPrimitive(polls)
  {
    AllRecordedIff(polls);
    forall i | 0 < i < |polls|
      ensures Run(polls[..i]) != []
    {
      NeverEmpty(polls[..i]);
    }
    if |polls| == 1 {
      assert Run(polls[..0]) == [];
    }
  }

  /** With a limit of 1 the history is empty after every other change: right after a change of a value that was there. */
  ghost predicate Forgotten(polls: seq<Poll>) {
    polls == [] ||
    var before := polls[..|polls| - 1];
    before != [] && !Forgotten(before) && polls[|polls| - 1].val != before[|before| - 1].val
  }

  lemma {:induction false} EmptyIffForgotten(polls: seq<Poll>)
    requires AllPrimitive(polls) && forall i | 0 <= i < |polls| :: polls[i].limit == 1
    ensures Run(polls) == [] <==> Forgotten(polls)
    ensures Run(polls) != [] ==> |Run(polls)| == 1 && Run(polls)[0].val == polls[|polls| - 1].val
  {
    if polls != [] {
      EmptyIffForgotten(polls[..|polls| - 1]);
    }
  }

  /** With a limit of 1 every value is recorded iff all are primitive, but for the last one, if the one before it was
      forgotten. */
  lemma {:induction false} AllRecordedAtLimitOne(polls: seq<Poll>)
    requires polls != [] && forall i | 0 <= i < |polls| :: polls[i].limit == 1
    ensures var before := polls[..|polls| - 1];
      Recorded(polls) == NewestFirst(polls) <==> AllPrimitive(before) && (Primitive(polls[|polls| - 1].val) || Forgotten(before))
  {
    AllRecordedIff(polls);
    var before := polls[..|polls| - 1];
    if AllPrimitive(before) {
      EmptyIffForgotten(before);
      assert forall i | 0 <= i < |before| :: before[i] == polls[i];
    } else {
      var i :| 0 <= i < |before| && !Primitive(before[i].val);
      assert before[i] == polls[i];
    }
  }

  lemma {:induction false} RunIsCanonical(polls: seq<Poll>)
    requires Limits(polls, 1)
    ensures Canonical(Run(polls))
  {
    if polls != [] {
      RunIsCanonical(polls[..|polls| - 1]);
    }
  }

  /** The first run of a canonical history is the longest block of equal values at the front. */
  lemma {:induction false} LeadingBlock(h: seq<StatVal>)
    requires Canonical(h) && h != []
    ensures h[0].span <= |Expand(h)|
    ensures forall i | 0 <= i < h[0].span :: Expand(h)[i] == h[0].val
    ensures h[0].span < |Expand(h)| ==> Expand(h)[h[0].span] != h[0].val
    ensures Expand(h)[h[0].span..] == Expand(h[1..])
  {
    if |h| > 1 {
      assert h[1..][0] == h[1];
      assert Expand(h[1..]) == Repeat(h[1].val, h[1].span) + Expand(h[1..][1..]);
    }
  }

  /** The canonical encoding of a sequence of values is unique. */
  lemma {:induction false} CanonicalIsUnique(a: seq<StatVal>, b: seq<StatVal>)
    requires Canonical(a) && Canonical(b) && Expand(a) == Expand(b)
    ensures |a| == |b|
    ensures forall i | 0 <= i < |a| :: a[i].val == b[i].val && a[i].span == b[i].span
  {
    if a != [] {
      LeadingBlock(a);
    }
    if b != [] {
      LeadingBlock(b);
    }
    if a != [] && b != [] {
      assert a[0].val == Expand(a)[0] == b[0].val;
      assert a[0].span == b[0].span;
      CanonicalIsUnique(a[1..], b[1..]);
      forall i | 1 <= i < |a|
        ensures a[i].val == b[i].val && a[i].span == b[i].span
      {
        assert a[i] == a[1..][i - 1] && b[i] == b[1..][i - 1];
      }
    }
  }

  /** The unbounded encoding: what the history would be if it were never pruned. */
  ghost function Encode(polls: seq<Poll>): (h: seq<StatVal>)
    ensures polls != [] ==> h != [] && h[0].val == polls[|polls| - 1].val
  {
    if polls == [] then []
    else
      Extended(Encode(polls[..|polls| - 1]), polls[|polls| - 1])
  }

  function Extended(h: seq<StatVal>, p: Poll): seq<StatVal> {
    if h != [] && h[0].val == p.val then [h[0].(time := p.time, span := h[0].span + 1)] + h[1..]
    else [StatVal(p.val, p.time, 1)] + h
  }

  lemma {:induction false} ExtendedExpands(h: seq<StatVal>, p: Poll)
    ensures Expand(Extended(h, p)) == [p.val] + Expand(h)
  {
    var h' := Extended(h, p);
    if h != [] && h[0].val == p.val {
      assert h'[1..] == h[1..];
      assert Repeat(p.val, h[0].span + 1) == [p.val] + Repeat(p.val, h[0].span);
    } else {
      assert h'[1..] == h;
      assert Repeat(p.val, 1) == [p.val];
    }
  }

  lemma {:induction false} ExtendedIsCanonical(h: seq<StatVal>, p: Poll)
    requires Canonical(h)
    ensures Canonical(Extended(h, p))
  {
  }

  /** Encode is a faithful encoding of every value polled. */
  lemma {:induction false} EncodeRoundTrip(polls: seq<Poll>)
    ensures Canonical(Encode(polls))
    ensures Expand(Encode(polls)) == NewestFirst(polls)
  {
    if polls != [] {
      var before, p := polls[..|polls| - 1], polls[|polls| - 1];
      EncodeRoundTrip(before);
      ExtendedExpands(Encode(before), p);
      ExtendedIsCanonical(Encode(before), p);
    }
  }

  /** With a constant limit of at least 2 the history is exactly the newest runs of the unbounded
      encoding: never more than the limit, and never fewer than one less. */
  lemma {:induction false} KeepsTheNewestRuns(polls: seq<Poll>, limit: nat)
    requires limit >= 2 && AllPrimitive(polls)
    requires forall i | 0 <= i < |polls| :: polls[i].limit == limit
    ensures Run(polls) <= Encode(polls)
    ensures Min(|Encode(polls)|, limit - 1) <= |Run(polls)| <= limit
  {
    if polls != [] {
      var before, p := polls[..|polls| - 1], polls[|polls| - 1];
      KeepsTheNewestRuns(before, limit);
      PrimitivesAreRecorded(before);
      KeepStep(Run(before), Encode(before), p, limit);
    }
  }

  lemma {:induction false} KeepStep(h: seq<StatVal>, full: seq<StatVal>, p: Poll, limit: nat)
    requires limit >= 2 && Primitive(p.val) && (h != [] ==> Primitive(h[0].val))
    requires h <= full && Min(|full|, limit - 1) <= |h| <= limit
    ensures var h', full' := AddStat(h, p.val, p.time, limit), Extended(full, p);
            h' <= full' && Min(|full'|, limit - 1) <= |h'| <= limit
  {
    assert h == full[..|h|];
    if full == [] {
      assert h == [];
    } else {
      assert h[0] == full[0] && h[1..] <= full[1..];
    }
  }

  /** The history is never longer than the largest limit in force at any poll, whatever values are polled. */
  lemma {:induction false} LengthWithinLimit(polls: seq<Poll>, limit: nat)
    requires forall i | 0 <= i < |polls| :: 1 <= polls[i].limit <= limit
    ensures |Run(polls)| <= limit
  {
    if polls != [] {
      LengthWithinLimit(polls[..|polls| - 1], limit);
    }
  }

  /** With a limit of 1 the history is nothing right after some changes of the value, and otherwise the newest
      run of the unbounded encoding, whose first poll may be missing from the span. */
  ghost predicate NewestRunOrLess(h: seq<StatVal>, full: seq<StatVal>) {
    if h == [] then full != [] ==> full[0].span == 1
    else
      && |h| == 1 && full != [] && h[0].val == full[0].val && h[0].time == full[0].time
      && full[0].span - 1 <= h[0].span <= full[0].span
  }

  lemma {:induction false} LimitOneKeepsOneRun(polls: seq<Poll>)
    requires AllPrimitive(polls) && forall i | 0 <= i < |polls| :: polls[i].limit == 1
    ensures NewestRunOrLess(Run(polls), Encode(polls))
  {
    if polls != [] {
      var before, p := polls[..|polls| - 1], polls[|polls| - 1];
      LimitOneKeepsOneRun(before);
      PrimitivesAreRecorded(before);
      assert Run(polls) == AddStat(Run(before), p.val, p.time, 1) && Encode(polls) == Extended(Encode(before), p);
    }
  }

  /** A limit of 1 is different: a changed value leaves no history at all, so the run of the new
      value is counted from its second poll. */
  lemma {:induction false} LimitOneForgetsAChange(a: Poll, b: Poll, c: Poll)
    requires a.limit == b.limit == c.limit == 1
    requires Primitive(a.val) && Primitive(b.val) && a.val != b.val && c.val == b.val
    ensures Run([a]) == [StatVal(a.val, a.time, 1)]
    ensures Run([a, b]) == []
    ensures Run([a, b, c]) == [StatVal(b.val, c.time, 1)]
    ensures Encode([a, b, c])[0].span == 2
  {
    assert [a][..0] == [] && [a, b][..1] == [a] && [a, b, c][..2] == [a, b];
  }

  // ---------- The store ----------

  datatype Key = Key(cache: CacheName, stat: string)

  datatype Result = Result(id: CacheName, ats: map<string, Value>, time: int)

  type Histories = map<Key, seq<StatVal>>

  function Lookup(view: Histories, k: Key): seq<StatVal> {
    if k in view then view[k] else []
  }

  /** `after` is `before` with the stats `done` of the result added; nothing else differs. */
  ghost predicate AddedStats(before: Histories, after: Histories, r: Result, done: set<string>, limit: nat)
    requires limit >= 1 && done <= r.ats.Keys
  {
    && after.Keys == before.Keys + (set s | s in done :: Key(r.id, s))
    && (forall k | k in after ::
          after[k] == if k.cache == r.id && k.stat in done
                      then AddStat(Lookup(before, k), r.ats[k.stat], r.time, limit)
                      else before[k])
  }

  ghost predicate Added(before: Histories, after: Histories, r: Result, limit: nat)
    requires limit >= 1
  {
    AddedStats(before, after, r, r.ats.Keys, limit)
  }

  ghost predicate Visits(order: seq<string>, done: set<string>) {
    && (forall i, j | 0 <= i < j < |order| :: order[i] != order[j])
    && (forall s :: s in order <==> s in done)
  }

  /** The store after the stats were added one at a time. */
  ghost function AddInOrder(before: Histories, r: Result, order: seq<string>, limit: nat): Histories
    requires limit >= 1 && forall s | s in order :: s in r.ats
  {
    if order == [] then before
    else
      var s := order[|order| - 1];
      var now := AddInOrder(before, r, order[..|order| - 1], limit);
      now[Key(r.id, s) := AddStat(Lookup(now, Key(r.id, s)), r.ats[s], r.time, limit)]
  }

  lemma {:induction false} AddedStatsStep(before: Histories, now: Histories, r: Result, done: set<string>, limit: nat, s: string)
    requires limit >= 1 && done <= r.ats.Keys && s in r.ats && s !in done
    requires AddedStats(before, now, r, done, limit)
    ensures Lookup(now, Key(r.id, s)) == Lookup(before, Key(r.id, s))
    ensures AddedStats(before,
                       now[Key(r.id, s) := AddStat(Lookup(now, Key(r.id, s)), r.ats[s], r.time, limit)],
                       r, done + {s}, limit)
  {
    var k := Key(r.id, s);
    assert k in now <==> k in before;
    assert (set t | t in done + {s} :: Key(r.id, t)) == (set t | t in done :: Key(r.id, t)) + {k};
  }

  lemma {:induction false} VisitsAllButLast(order: seq<string>, done: set<string>)
    requires Visits(order, done) && order != []
    ensures Visits(order[..|order| - 1], done - {order[|order| - 1]})
  {
    var rest := order[..|order| - 1];
    assert order == rest + [order[|order| - 1]];
  }

  /** The order in which the stats are visited does not matter. */
  lemma {:induction false} AnyOrderAdds(before: Histories, r: Result, order: seq<string>, done: set<string>, limit: nat)
    requires limit >= 1 && done <= r.ats.Keys && Visits(order, done)
    ensures AddedStats(before, AddInOrder(before, r, order, limit), r, done, limit)
  {
    if order == [] {
      assert done == {};
    } else {
      var s := order[|order| - 1];
      var rest := done - {s};
      VisitsAllButLast(order, done);
      AnyOrderAdds(before, r, order[..|order| - 1], rest, limit);
      AddedStatsStep(before, AddInOrder(before, r, order[..|order| - 1], limit), r, rest, limit, s);
      assert s in done && done == rest + {s};
    }
  }

  lemma {:induction false} NotYetAdded(before: Histories, r: Result, order: seq<string>, done: set<string>, limit: nat, s: string)
    requires limit >= 1 && done <= r.ats.Keys && Visits(order, done) && s !in done
    ensures Lookup(AddInOrder(before, r, order, limit), Key(r.id, s)) == Lookup(before, Key(r.id, s))
  {
    AnyOrderAdds(before, r, order, done, limit);
  }

  /** One more stat, added to what those before it made of the store. */
  lemma {:induction false} AddStep(before: Histories, r: Result, order: seq<string>, done: set<string>, limit: nat, s: string)
    requires limit >= 1 && done <= r.ats.Keys && Visits(order, done) && s in r.ats && s !in done
    ensures Visits(order + [s], done + {s})
    ensures var now, k := AddInOrder(before, r, order, limit), Key(r.id, s);
      && Lookup(now, k) == Lookup(before, k)
      && AddInOrder(before, r, order + [s], limit) == now[k := AddStat(Lookup(now, k), r.ats[s], r.time, limit)]
  {
    NotYetAdded(before, r, order, done, limit, s);
    var order' := order + [s];
    assert order'[..|order|] == order;
    assert forall x :: x in order' <==> x in order || x == s;
  }

  /** The stats of a result that cannot be compared with their history. */
  ghost function Rejected(before: Histories, r: Result): set<string> {
    set s | s in r.ats && NewStatEqual(Lookup(before, Key(r.id, s)), r.ats[s]) == Incomparable
  }

  /** The store when all stats but those of `todo` are added, in the given order. */
  ghost predicate Adding(before: Histories, now: Histories, r: Result, order: seq<string>, todo: set<string>,
                         rejected: set<string>, limit: nat)
    requires limit >= 1
  {
    && todo <= r.ats.Keys && Visits(order, r.ats.Keys - todo)
    && now == AddInOrder(before, r, order, limit) && rejected == Rejected(before, r) - todo
  }

  ghost predicate Turned(now: Histories, now': Histories, r: Result, s: string, ok: bool, limit: nat)
    requires limit >= 1 && s in r.ats
  {
    var k := Key(r.id, s);
    && ok == (NewStatEqual(Lookup(now, k), r.ats[s]) != Incomparable)
    && now' == now[k := AddStat(Lookup(now, k), r.ats[s], r.time, limit)]
  }

  lemma {:induction false} AddingStep(before: Histories, now: Histories, now': Histories, r: Result, order: seq<string>,
                                      todo: set<string>, rejected: set<string>, s: string, ok: bool, limit: nat)
    requires limit >= 1 && Adding(before, now, r, order, todo, rejected, limit)
    requires s in todo && s in r.ats && Turned(now, now', r, s, ok, limit)
    ensures Adding(before, now', r, order + [s], todo - {s}, if ok then rejected else rejected + {s}, limit)
  {
    AddStep(before, r, order, r.ats.Keys - todo, limit, s);
    assert (r.ats.Keys - todo) + {s} == r.ats.Keys - (todo - {s});
  }

  lemma {:induction false} AllAdded(before: Histories, now: Histories, r: Result, order: seq<string>, rejected: set<string>, limit: nat)
    requires limit >= 1 && Adding(before, now, r, order, {}, rejected, limit)
    ensures Added(before, now, r, limit) && rejected == Rejected(before, r)
  {
    assert r.ats.Keys - {} == r.ats.Keys;
    AnyOrderAdds(before, r, order, r.ats.Keys, limit);
  }

  /** The histories are slices that `Add` updates in place, so each is an array here. */
  class ResultStatHistory {
    ghost var Repr: set<object>
    ghost var Contents: Histories
    var hist: map<Key, array<StatVal>>

    ghost predicate Valid()
      reads this, Repr
      ensures Valid() ==> this in Repr
    {
      && this in Repr
      && hist.Keys == Contents.Keys
      && (forall k | k in hist :: hist[k] in Repr && hist[k][..] == Contents[k])
      && (forall j, k | j in hist && k in hist && j != k :: hist[j] != hist[k])
    }

    constructor ()
      ensures Valid() && fresh(Repr) && Contents == map[]
    {
      hist, Contents := map[], map[];
      Repr := {this};
    }

    method SetHistory(k: Key, values: seq<StatVal>)
      requires Valid()
      modifies this
      ensures Valid() && fresh(Repr - old(Repr)) && old(Repr) <= Repr
      ensures Contents == old(Contents)[k := values]
    {
      var a := new StatVal[|values|](i requires 0 <= i < |values| => values[i]);
      assert a[..] == values;
      hist, Contents := hist[k := a], Contents[k := values];
      Repr := Repr + {a};
    }

    /** Adds one stat of a result. The latest entry of an unchanged stat is updated in place. */
    method AddOne(k: Key, v: Value, time: int, limit: nat) returns (ok: bool)
      requires Valid() && limit >= 1
      modifies Repr
      ensures Valid() && fresh(Repr - old(Repr))
      ensures ok == (NewStatEqual(Lookup(old(Contents), k), v) != Incomparable)
      ensures Contents == old(Contents)[k := AddStat(Lookup(old(Contents), k), v, time, limit)]
    {
      var statHistory: seq<StatVal> := [];
      if k in hist {
        statHistory := hist[k][..];
      }
      ok := true;
      match NewStatEqual(statHistory, v)
      case Incomparable =>
        ok := false;
      case Same =>
        var a := hist[k];
        a[0] := a[0].(time := time, span := a[0].span + 1);
        Contents := Contents[k := AddStat(statHistory, v, time, limit)];
      case Different =>
        SetHistory(k, Pruned([StatVal(v, time, 1)] + statHistory, limit));
    }

    /** Adds every stat of the result, in any order, and returns the stats that were rejected. */
    method Add(r: Result, limit: nat) returns (rejected: set<string>)
      requires Valid() && limit >= 1
      modifies Repr
      ensures Valid() && fresh(Repr - old(Repr))
      ensures Added(old(Contents), Contents, r, limit)
      ensures rejected == Rejected(old(Contents), r)
    {
      rejected := {};
      var todo := r.ats.Keys;
      ghost var before, order := Contents, [];
      while todo != {}
        invariant Valid() && fresh(Repr - old(Repr))
        invariant Adding(before, Contents, r, order, todo, rejected, limit)
        decreases todo
      {
        var s :| s in todo;
        ghost var now := Contents;
        var ok := AddOne(Key(r.id, s), r.ats[s], r.time, limit);
        AddingStep(before, now, Contents, r, order, todo, rejected, s, ok, limit);
        todo, order := todo - {s}, order + [s];
        rejected := if ok then rejected else rejected + {s};
      }
      AllAdded(before, Contents, r, order, rejected, limit);
    }

    /** A copy with the same contents that shares no history with this one. */
    method Copy() returns (b: ResultStatHistory)
      requires Valid()
      ensures b.Valid() && fresh(b.Repr)
      ensures b.Contents == Contents
    {
      b := new ResultStatHistory();
      var todo := hist.Keys;
      while todo != {}
        invariant todo <= hist.Keys
        invariant b.Valid() && fresh(b.Repr)
        invariant b.Contents == Without(Contents, todo)
        decreases todo
      {
        var k :| k in todo;
        CopyStep(Contents, todo, k);
        todo := todo - {k};
        b.SetHistory(k, hist[k][..]);
      }
      assert Without(Contents, {}) == Contents;
    }
  }

  ghost function Without(view: Histories, todo: set<Key>): Histories {
    map k | k in view && k !in todo :: view[k]
  }

  lemma {:induction false} CopyStep(view: Histories, todo: set<Key>, k: Key)
    requires k in view && k in todo
    ensures Without(view, todo - {k}) == Without(view, todo)[k := view[k]]
  {
  }

  /** The histories after a batch of results, each with the limit of its cache. */
  ghost predicate AddedAll(trace: seq<Histories>, results: seq<Result>, limits: seq<nat>)
  {
    && |limits| == |results| && |trace| == |results| + 1
    && (forall i | 0 <= i < |limits| :: limits[i] >= 1)
    && (forall i | 0 <= i < |results| :: Added(trace[i], trace[i + 1], results[i], limits[i]))
  }

  lemma {:induction false} AddedAllStep(trace: seq<Histories>, now: Histories, results: seq<Result>, limits: seq<nat>, i: nat)
    requires i < |results| == |limits| && limits[i] >= 1
    requires AddedAll(trace, results[..i], limits[..i]) && Added(trace[i], now, results[i], limits[i])
    ensures AddedAll(trace + [now], results[..i + 1], limits[..i + 1])
  {
  }

  /** The stat manager's use of the store: copy the published histories, add a batch of results to
      the copy, publish the copy. There is no `modifies` clause: readers of the histories published
      before never see them change. */
  method NextHistories(published: ResultStatHistory, results: seq<Result>, limits: seq<nat>)
      returns (next: ResultStatHistory, ghost trace: seq<Histories>)
    requires published.Valid()
    requires |limits| == |results| && forall i | 0 <= i < |limits| :: limits[i] >= 1
    ensures next.Valid() && fresh(next.Repr)
    ensures published.Valid() && published.Contents == old(published.Contents)
    ensures AddedAll(trace, results, limits)
    ensures trace[0] == published.Contents && trace[|results|] == next.Contents
  {
    next := published.Copy();
    trace := [next.Contents];
    for i := 0 to |results|
      invariant next.Valid() && fresh(next.Repr)
      invariant published.Valid() && published.Contents == old(published.Contents)
      invariant |trace| == i + 1 && trace[0] == published.Contents && trace[i] == next.Contents
      invariant AddedAll(trace, results[..i], limits[..i])
    {
      var _ := next.Add(results[i], limits[i]);
      AddedAllStep(trace, next.Contents, results, limits, i);
      trace := trace + [next.Contents];
    }
    assert results[..|results|] == results && limits[..|limits|] == limits;
  }
}
