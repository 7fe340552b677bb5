/** The summary computed from the history of one stat (`traffic_monitor/datareq/statsummary.go`). */
module StatSummary {
  import opened Core
  import opened StatHistory

  datatype Summary = Summary(dataPointCount: nat, start: real, end: real, high: real, low: real, average: real)

  predicate Numeric(v: Value) {
    ToNumeric(v).Some?
  }

  /** The numeric values among those given. */
  function Numbers(values: seq<Value>): seq<real> {
    if values == [] then []
    else if Numeric(values[0]) then [ToNumeric(values[0]).value] + Numbers(values[1..])
    else Numbers(values[1..])
  }

  function Sum(xs: seq<real>): real {
    if xs == [] then 0.0 else xs[0] + Sum(xs[1..])
  }

  /** The numbers a history stands for: each numeric entry as often as its span says. */
  ghost function DataPoints(history: seq<StatVal>): seq<real> {
    Numbers(Expand(history))
  }

  lemma {:induction false} NumbersConcat(a: seq<Value>, b: seq<Value>)
    ensures Numbers(a + b) == Numbers(a) + Numbers(b)
  {
    if a == [] {
      assert a + b == b;
    } else {
      NumbersConcat(a[1..], b);
      assert (a + b)[1..] == a[1..] + b;
    }
  }

  lemma {:induction false} SumConcat(a: seq<real>, b: seq<real>)
    ensures Sum(a + b) == Sum(a) + Sum(b)
  {
    if a == [] {
      assert a + b == b;
    } else {
      SumConcat(a[1..], b);
      assert (a + b)[1..] == a[1..] + b;
    }
  }

  lemma {:induction false} ExpandConcat(a: seq<StatVal>, b: seq<StatVal>)
    ensures Expand(a + b) == Expand(a) + Expand(b)
  {
    if a == [] {
      assert a + b == b;
    } else {
      ExpandConcat(a[1..], b);
      assert (a + b)[1..] == a[1..] + b;
      assert Repeat(a[0].val, a[0].span) + (Expand(a[1..]) + Expand(b))
          == (Repeat(a[0].val, a[0].span) + Expand(a[1..])) + Expand(b);
    }
  }

  ghost function Points(x: real, n: nat): seq<real> {
    seq(n, i => x)
  }

  lemma {:induction false} NumbersOfRepeat(v: Value, n: nat)
    ensures Numbers(Repeat(v, n)) == if Numeric(v) then Points(ToNumeric(v).value, n) else []
  {
    if n > 0 {
      NumbersOfRepeat(v, n - 1);
      assert Repeat(v, n)[1..] == Repeat(v, n - 1);
    }
  }

  lemma {:induction false} OneMorePoint(x: real, n: nat)
    ensures Sum(Points(x, n + 1)) == x + Sum(Points(x, n))
  {
    assert Points(x, n + 1)[1..] == Points(x, n);
  }

  /** One more entry of the history adds its value as many times as its span says. */
  lemma {:induction false} OneMoreEntry(h: seq<StatVal>, i: nat)
    requires i < |h|
    ensures var more := if Numeric(h[i].val) then Points(ToNumeric(h[i].val).value, h[i].span) else [];
            && DataPoints(h[..i + 1]) == DataPoints(h[..i]) + more
            && Sum(DataPoints(h[..i + 1])) == Sum(DataPoints(h[..i])) + Sum(more)
  {
    assert h[..i + 1] == h[..i] + [h[i]];
    ExpandConcat(h[..i], [h[i]]);
    assert Expand([h[i]]) == Repeat(h[i].val, h[i].span) + Expand([]) == Repeat(h[i].val, h[i].span);
    NumbersConcat(Expand(h[..i]), Repeat(h[i].val, h[i].span));
    NumbersOfRepeat(h[i].val, h[i].span);
    SumConcat(DataPoints(h[..i]), Numbers(Repeat(h[i].val, h[i].span)));
  }

  /** The same, in numbers. */
  lemma {:induction false} EntryCounts(h: seq<StatVal>, i: nat)
    requires i < |h|
    ensures var before, after := DataPoints(h[..i]), DataPoints(h[..i + 1]);
      if Numeric(h[i].val)
      then |after| == |before| + h[i].span && Sum(after) == Sum(before) + Sum(Points(ToNumeric(h[i].val).value, h[i].span))
      else |after| == |before| && Sum(after) == Sum(before)
  {
    OneMoreEntry(h, i);
  }

  /** `count` points with the sum `total` have the average `average`. */
  ghost predicate IsMean(average: real, count: nat, total: real) {
    average * count as real == total
  }

  /** The incremental step of the mean. */
  lemma {:induction false} MeanStep(average: real, count: nat, total: real, x: real)
    requires IsMean(average, count, total)
    ensures var n := (count + 1) as real;
            IsMean(average - average / n + x / n, count + 1, total + x)
  {
    var n := (count + 1) as real;
    assert (average / n) * n == average;
    assert (x / n) * n == x;
  }

  /** Adds the same point `span` times to `count` points of the given average. */
  method AddPoints(count: nat, average: real, val: real, span: nat, ghost total: real)
      returns (count': nat, average': real)
    requires IsMean(average, count, total)
    ensures count' == count + span
    ensures IsMean(average', count', total + Sum(Points(val, span)))
  {
    count', average' := count, average;
    ghost var total' := total;
    for s := 0 to span
      invariant count' == count + s
      invariant total' == total + Sum(Points(val, s))
      invariant IsMean(average', count', total')
    {
      MeanStep(average', count', total', val);
      OneMorePoint(val, s);
      count' := count' + 1;
      average' := average' - average' / count' as real;
      average' := average' + val / count' as real;
      total' := total' + val;
    }
  }

  /** The numeric entries of a history, whatever their spans. */
  ghost predicate BoundsOf(h: seq<StatVal>, low: real, high: real) {
    && (forall i | 0 <= i < |h| && Numeric(h[i].val) :: low <= ToNumeric(h[i].val).value <= high)
    && (exists i | 0 <= i < |h| :: ToNumeric(h[i].val) == Some(low))
    && (exists i | 0 <= i < |h| :: ToNumeric(h[i].val) == Some(high))
  }

  /** No summary for an empty history, or one whose oldest or newest value is not a number. */
  method Summarize(history: seq<StatVal>) returns (r: Option<Summary>)
    ensures r.None? <==> history == [] || !Numeric(history[0].val) || !Numeric(history[|history| - 1].val)
    ensures r.Some? ==>
      && Some(r.value.start) == ToNumeric(history[|history| - 1].val)
      && Some(r.value.end) == ToNumeric(history[0].val)
      && BoundsOf(history, r.value.low, r.value.high)
      && r.value.dataPointCount == |DataPoints(history)|
      && IsMean(r.value.average, r.value.dataPointCount, Sum(DataPoints(history)))
  {
    if |history| == 0 {
      return None;
    }
    var oldest := ToNumeric(history[|history| - 1].val);
    var newest := ToNumeric(history[0].val);
    if !oldest.Some? || !newest.Some? {
      return None;
    }
    var count: nat := 0;
    var high, low, average := newest.value, newest.value, 0.0;
    ghost var lowAt, highAt := 0, 0;
    for i := 0 to |history|
      invariant count == |DataPoints(history[..i])| && IsMean(average, count, Sum(DataPoints(history[..i])))
      invariant 0 <= lowAt < |history| && ToNumeric(history[lowAt].val) == Some(low)
      invariant 0 <= highAt < |history| && ToNumeric(history[highAt].val) == Some(high)
      invariant forall k | 0 <= k < i && Numeric(history[k].val) :: low <= ToNumeric(history[k].val).value <= high
    {
      EntryCounts(history, i);
      var val := ToNumeric(history[i].val);
      if val.Some? {
        count, average := AddPoints(count, average, val.value, history[i].span, Sum(DataPoints(history[..i])));
        if val.value < low {
          low, lowAt := val.value, i;
        }
        if val.value > high {
          high, highAt := val.value, i;
        }
      }
    }
    assert history[..|history|] == history;
    r := Some(Summary(count, oldest.value, newest.value, high, low, average));
  }

  lemma {:induction false} NumbersOfPrefix(a: seq<Value>, b: seq<Value>)
    requires a <= b
    requires forall i | 0 <= i < |b| :: Numeric(b[i])
    ensures |Numbers(a)| == |a| && |Numbers(b)| == |b| && Numbers(a) == Numbers(b)[..|a|]
  {
    if b != [] {
      NumbersOfPrefix(if a == [] then [] else a[1..], b[1..]);
    }
  }

  lemma {:induction false} NewestFirstIsNumeric(polls: seq<Poll>)
    requires forall i | 0 <= i < |polls| :: Numeric(polls[i].val)
    ensures |NewestFirst(polls)| == |polls|
    ensures forall i | 0 <= i < |polls| :: NewestFirst(polls)[i] == polls[|polls| - 1 - i].val
  {
    if polls != [] {
      var before, last := polls[..|polls| - 1], polls[|polls| - 1];
      NewestFirstIsNumeric(before);
      assert NewestFirst(polls) == [last.val] + NewestFirst(before);
    }
  }

  lemma {:induction false} NumberAt(values: seq<Value>)
    requires forall i | 0 <= i < |values| :: values[i].Float?
    ensures |Numbers(values)| == |values|
    ensures forall i | 0 <= i < |values| :: Numbers(values)[i] == values[i].f
  {
    if values != [] {
      NumberAt(values[1..]);
    }
  }

  ghost predicate AllFloats(polls: seq<Poll>) {
    forall i | 0 <= i < |polls| :: polls[i].val.Float?
  }

  /** The newest `n` of the values polled. */
  ghost function Newest(polls: seq<Poll>, n: nat): seq<real>
    requires n <= |polls| && AllFloats(polls)
  {
    seq(n, i requires 0 <= i < n => polls[|polls| - 1 - i].val.f)
  }

  /** The points of the history kept of a numeric stat are the newest values polled, and no others. */
  lemma {:induction false} DataPointsAreNewestPolls(polls: seq<Poll>)
    requires Limits(polls, 1) && AllFloats(polls)
    ensures |DataPoints(Run(polls))| <= |polls|
    ensures DataPoints(Run(polls)) == Newest(polls, |DataPoints(Run(polls))|)
  {
    ExpansionIsNewestValues(polls);
    PrimitivesAreRecorded(polls);
    NewestFirstIsNumeric(polls);
    var values := NewestFirst(polls);
    NumbersOfPrefix(Expand(Run(polls)), values);
    NumberAt(values);
  }

  lemma {:induction false} RunOfFloats(polls: seq<Poll>)
    requires Limits(polls, 1) && AllFloats(polls)
    ensures forall i | 0 <= i < |Run(polls)| :: Run(polls)[i].val.Float?
    ensures Run(polls) != [] ==> Run(polls)[0].val == polls[|polls| - 1].val
  {
    if polls != [] {
      RunOfFloats(polls[..|polls| - 1]);
    }
  }

  /** The history kept of polls that all returned numbers, under any limits. */
  ghost predicate IsHistoryOf(history: seq<StatVal>, polls: seq<Poll>) {
    Limits(polls, 1) && AllFloats(polls) && history == Run(polls)
  }

  /** The points lie between the bounds, which are points themselves. */
  ghost predicate Extremes(low: real, high: real, points: seq<real>) {
    && low in points && high in points
    && forall i | 0 <= i < |points| :: low <= points[i] <= high
  }

  /** The summary is that of the newest values polled: it starts with the oldest and ends with the newest of
      them, low and high are their extremes, and the average is their exact mean. */
  ghost predicate SummaryOf(s: Summary, polls: seq<Poll>) {
    && 1 <= s.dataPointCount <= |polls| && AllFloats(polls)
    && var points := Newest(polls, s.dataPointCount);
       && s.end == points[0] && s.start == points[|points| - 1]
       && Extremes(s.low, s.high, points)
       && IsMean(s.average, s.dataPointCount, Sum(points))
  }

  ghost predicate SpansArePositive(h: seq<StatVal>) {
    forall i | 0 <= i < |h| :: h[i].span >= 1 && Numeric(h[i].val)
  }

  /** The points of a history are its values, each at least once, in its order. */
  lemma {:induction false} PointsAreTheValues(h: seq<StatVal>)
    requires SpansArePositive(h)
    ensures forall x :: x in DataPoints(h) <==> exists i :: 0 <= i < |h| && ToNumeric(h[i].val) == Some(x)
    ensures h != [] ==> DataPoints(h) != [] && Some(DataPoints(h)[0]) == ToNumeric(h[0].val)
    ensures h != [] ==> Some(DataPoints(h)[|DataPoints(h)| - 1]) == ToNumeric(h[|h| - 1].val)
  {
    if h != [] {
      var n := |h| - 1;
      var before, x := h[..n], ToNumeric(h[n].val).value;
      PointsAreTheValues(before);
      OneMoreEntry(h, n);
      assert h[..n + 1] == h;
      var more := Points(x, h[n].span);
      assert more[0] == x && forall y :: y in more <==> y == x;
      forall y
        ensures y in DataPoints(h) <==> exists i :: 0 <= i < |h| && ToNumeric(h[i].val) == Some(y)
      {
        if i :| 0 <= i < |before| && ToNumeric(before[i].val) == Some(y) {
          assert ToNumeric(h[i].val) == Some(y);
        }
        if i :| 0 <= i < |h| && ToNumeric(h[i].val) == Some(y) {
          assert i < n ==> before[i] == h[i];
        }
      }
    }
  }

  lemma {:induction false} BoundsAreExtremes(h: seq<StatVal>, low: real, high: real)
    requires SpansArePositive(h) && BoundsOf(h, low, high)
    ensures Extremes(low, high, DataPoints(h))
  {
    PointsAreTheValues(h);
    var points := DataPoints(h);
    forall k | 0 <= k < |points|
      ensures low <= points[k] <= high
    {
      assert points[k] in points;
    }
  }

  /** End to end: poll a stat any number of times under any limits, then summarize its history. */
  method SummarizePolled(polls: seq<Poll>, history: seq<StatVal>) returns (r: Option<Summary>)
    requires IsHistoryOf(history, polls)
    ensures r.Some? <==> history != []
    ensures r.Some? ==> SummaryOf(r.value, polls)
  {
    r := Summarize(history);
    DataPointsAreNewestPolls(polls);
    RunIsCanonical(polls);
    RunOfFloats(polls);
    if r.Some? {
      PointsAreTheValues(history);
      BoundsAreExtremes(history, r.value.low, r.value.high);
    }
  }
}
