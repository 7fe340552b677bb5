/** How Traffic Stats gathers points and writes them to InfluxDB (`traffic_stats/traffic_stats.go`). */
module TrafficStats {

  datatype Point = Point(measurement: string, value: real, time: int)

  datatype Dest = Dest(database: string, retentionPolicy: string)

  /** What a batch object holds. */
  datatype Batch = Batch(dest: Dest, points: seq<Point>)

  /** Batches are objects that are passed on by reference. */
  class BatchPoints {
    const dest: Dest
    var points: seq<Point>

    constructor (d: Dest)
      ensures Value() == Batch(d, [])
    {
      dest, points := d, [];
    }

    function Value(): Batch
      reads this
    {
      Batch(dest, points)
    }

    method AddPoint(p: Point)
      modifies this
      ensures points == old(points) + [p]
    {
      points := points + [p];
    }
  }

  function Values(objects: seq<BatchPoints>): seq<Batch>
    reads objects
  {
    seq(|objects|, i requires 0 <= i < |objects| reads objects => objects[i].Value())
  }

  // ---------- Chunks ----------

  function IntMin(a: int, b: int): int {
    if a < b then a else b
  }

  /** The chunks of points that are written one after the other. */
  function Chunks(points: seq<Point>, size: nat): seq<seq<Point>>
    requires size > 0
  {
    if points == [] then []
    else
      var n := IntMin(size, |points|);
      [points[..n]] + Chunks(points[n..], size)
  }

  function Flatten(chunks: seq<seq<Point>>): seq<Point> {
    if chunks == [] then [] else chunks[0] + Flatten(chunks[1..])
  }

  /** The chunks put together are the points; each but the last one is as large as allowed, and that one
      is neither empty nor larger. */
  lemma {:induction false} ChunksAreThePoints(points: seq<Point>, size: nat)
    requires size > 0
    ensures Flatten(Chunks(points, size)) == points
    ensures forall i | 0 <= i < |Chunks(points, size)| ::
      0 < |Chunks(points, size)[i]| <= size && (i < |Chunks(points, size)| - 1 ==> |Chunks(points, size)[i]| == size)
    decreases |points|
  {
    if points != [] {
      var n := IntMin(size, |points|);
      ChunksAreThePoints(points[n..], size);
      if n < size {
        assert points[n..] == [];
      }
    }
  }

  /** The chunks whose write had the given outcome. */
  function Picked(dest: Dest, chunks: seq<seq<Point>>, writes: seq<bool>, ok: bool): seq<Batch>
    requires |chunks| <= |writes|
  {
    if chunks == [] then []
    else
      Picked(dest, chunks[..|chunks| - 1], writes, ok)
      + if writes[|chunks| - 1] == ok then [Batch(dest, chunks[|chunks| - 1])] else []
  }

  /** Zero, or a missing size, stands for the default. */
  function LoadStartupConfig(maxPublishSize: int): PublishSize {
    if maxPublishSize == 0 then 10000 else maxPublishSize
  }

  /** A configured size other than zero is used as it is; without one, chunks have at most 10000 points. */
  lemma {:induction false} ConfiguredChunks(points: seq<Point>, maxPublishSize: nat)
    requires maxPublishSize > 0
    ensures Chunks(points, LoadStartupConfig(maxPublishSize)) == Chunks(points, maxPublishSize)
    ensures |points| <= 10000 && points != [] ==> Chunks(points, LoadStartupConfig(0)) == [points]
    ensures |points| > 10000 ==> Chunks(points, LoadStartupConfig(0))[0] == points[..10000]
  {
    if |points| <= 10000 && points != [] {
      assert points[..|points|] == points && points[|points|..] == [];
      assert Chunks([], LoadStartupConfig(0)) == [];
    }
  }

  type PublishSize = n: int | n != 0 witness 10000

  datatype Loop = Ended | Panicked | Running(points: seq<Point>)

  /** The loop over the points after some turns. Cutting off a negative number of points panics. */
  function LoopAfter(points: seq<Point>, size: int, turns: nat): Loop {
    if points == [] then Ended
    else if turns == 0 then Running(points)
    else if IntMin(size, |points|) < 0 then Panicked
    else LoopAfter(points[IntMin(size, |points|)..], size, turns - 1)
  }

  /** Whatever size is configured, the loop panics iff it is negative and there is a point, and ends otherwise. */
  lemma {:induction false} EndsOrPanics(points: seq<Point>, maxPublishSize: int)
    ensures LoopAfter(points, LoadStartupConfig(maxPublishSize), |points|)
      == if maxPublishSize < 0 && points != [] then Panicked else Ended
  {
    var size := LoadStartupConfig(maxPublishSize);
    if size > 0 {
      EndsWithin(points, size, |points|);
    }
  }

  lemma {:induction false} EndsWithin(points: seq<Point>, size: nat, turns: nat)
    requires size > 0 && turns >= |points|
    ensures LoopAfter(points, size, turns) == Ended
    decreases turns
  {
    if points != [] {
      EndsWithin(points[IntMin(size, |points|)..], size, turns - 1);
    }
  }

  /** That hangs on the default: with a size of zero, and points to send, the loop would never end. */
  lemma {:induction false} ZeroNeverEnds(points: seq<Point>, turns: nat)
    requires points != []
    ensures LoopAfter(points, 0, turns) == Running(points)
    decreases turns
  {
    if turns > 0 {
      assert points[0..] == points;
      ZeroNeverEnds(points, turns - 1);
    }
  }

  /** Sends the points of a batch in chunks, which are new objects. `writes` are the outcomes of the writes to come.
      Without a connection the object itself is requeued, and with one the chunks whose write fails. */
  method SendMetrics(bps: BatchPoints, connected: bool, writes: seq<bool>, retry: bool, maxPublishSize: PublishSize)
      returns (written: seq<Batch>, requeued: seq<BatchPoints>, panics: bool)
    requires maxPublishSize > 0 ==> |writes| >= |Chunks(bps.points, maxPublishSize)|
    ensures panics <==> connected && maxPublishSize < 0 && bps.points != []
    ensures !connected ==> written == [] && requeued == if retry then [bps] else []
    ensures panics || (connected && bps.points == []) ==> written == [] && requeued == []
    ensures connected ==> forall i | 0 <= i < |requeued| :: fresh(requeued[i])
    ensures connected && maxPublishSize > 0 ==>
      && written == Picked(bps.dest, Chunks(bps.points, maxPublishSize), writes, true)
      && Values(requeued) == if retry then Picked(bps.dest, Chunks(bps.points, maxPublishSize), writes, false) else []
  {
    written, requeued, panics := [], [], false;
    if !connected {
      if retry {
        requeued := [bps];
      }
      return;
    }
    var pts := bps.points;
    if |pts| > 0 && IntMin(maxPublishSize, |pts|) < 0 {
      panics := true;
      return;
    }
    ghost var all, done := if maxPublishSize > 0 then Chunks(pts, maxPublishSize) else [], [];
    var i := 0;
    while |pts| > 0
      invariant |pts| > 0 ==> maxPublishSize > 0
      invariant i == |done| && (maxPublishSize > 0 ==> all == done + Chunks(pts, maxPublishSize)) && (bps.points == [] ==> pts == [] && done == [])
      invariant written == Picked(bps.dest, done, writes, true)
      invariant forall k | 0 <= k < |requeued| :: fresh(requeued[k])
      invariant Values(requeued) == if retry then Picked(bps.dest, done, writes, false) else []
      decreases |pts|
    {
      var chunkBps := NewChunk(bps.dest, pts[..IntMin(maxPublishSize, |pts|)]);
      pts := pts[IntMin(maxPublishSize, |pts|)..];
      PickedMore(bps.dest, done, chunkBps.points, writes);
      done := done + [chunkBps.points];
      if !writes[i] {
        if retry {
          requeued := requeued + [chunkBps];
        }
      } else {
        written := written + [chunkBps.Value()];
      }
      i := i + 1;
    }
    assert maxPublishSize > 0 ==> all == done;
  }

  method NewChunk(dest: Dest, pts: seq<Point>) returns (chunkBps: BatchPoints)
    ensures fresh(chunkBps) && chunkBps.Value() == Batch(dest, pts)
  {
    chunkBps := new BatchPoints(dest);
    for k := 0 to |pts|
      invariant chunkBps.Value() == Batch(dest, pts[..k])
    {
      chunkBps.AddPoint(pts[k]);
      assert pts[..k + 1] == pts[..k] + [pts[k]];
    }
    assert pts[..|pts|] == pts;
  }

  lemma {:induction false} PickedMore(dest: Dest, done: seq<seq<Point>>, chunk: seq<Point>, writes: seq<bool>)
    requires |done| < |writes|
    ensures forall ok ::
      Picked(dest, done + [chunk], writes, ok)
        == Picked(dest, done, writes, ok) + (if writes[|done|] == ok then [Batch(dest, chunk)] else [])
  {
    assert (done + [chunk])[..|done|] == done;
  }

  // ---------- Counting points ----------

  /** What is counted: a point, whatever its destination, or only with the given one. */
  datatype Item = Anywhere(point: Point) | At(dest: Dest, point: Point)

  ghost function Count(b: Batch, x: Item): nat {
    if x.At? && x.dest != b.dest then 0 else multiset(b.points)[x.point]
  }

  ghost function CountAll(batches: seq<Batch>, x: Item): nat {
    if batches == [] then 0 else CountAll(batches[..|batches| - 1], x) + Count(batches[|batches| - 1], x)
  }

  lemma {:induction false} CountConcat(a: seq<Batch>, b: seq<Batch>, x: Item)
    ensures CountAll(a + b, x) == CountAll(a, x) + CountAll(b, x)
  {
    if b == [] {
      assert a + b == a;
    } else {
      assert (a + b)[..|a + b| - 1] == a + b[..|b| - 1];
      CountConcat(a, b[..|b| - 1], x);
    }
  }

  lemma {:induction false} CountMore(a: seq<Batch>, b: Batch, x: Item)
    ensures CountAll(a + [b], x) == CountAll(a, x) + Count(b, x)
  {
    assert (a + [b])[..|a|] == a;
  }

  function Without<T>(a: seq<T>, i: nat): seq<T>
    requires i < |a|
  {
    a[..i] + a[i + 1..]
  }

  lemma {:induction false} CountWithout(a: seq<Batch>, i: nat, x: Item)
    requires i < |a|
    ensures CountAll(a, x) == CountAll(Without(a, i), x) + Count(a[i], x)
  {
    var front, back := a[..i], a[i + 1..];
    CountConcat(front, back, x);
    CountConcat(front + [a[i]], back, x);
    CountMore(front, a[i], x);
    assert a == (front + [a[i]]) + back;
  }

  lemma {:induction false} CountSplit(dest: Dest, a: seq<Point>, b: seq<Point>, x: Item)
    ensures Count(Batch(dest, a + b), x) == Count(Batch(dest, a), x) + Count(Batch(dest, b), x)
  {
  }

  /** What is written and what is requeued of a batch are together its points, when it is to be retried. */
  lemma {:induction false} PickedConserve(dest: Dest, chunks: seq<seq<Point>>, writes: seq<bool>, x: Item)
    requires |chunks| <= |writes|
    ensures CountAll(Picked(dest, chunks, writes, true), x) + CountAll(Picked(dest, chunks, writes, false), x)
      == Count(Batch(dest, Flatten(chunks)), x)
  {
    if chunks != [] {
      var before, last := chunks[..|chunks| - 1], chunks[|chunks| - 1];
      PickedConserve(dest, before, writes, x);
      PickedLast(dest, chunks, writes, x, true);
      PickedLast(dest, chunks, writes, x, false);
      FlattenLast(chunks);
      CountSplit(dest, Flatten(before), last, x);
    }
  }

  lemma {:induction false} FlattenLast(chunks: seq<seq<Point>>)
    requires chunks != []
    ensures Flatten(chunks) == Flatten(chunks[..|chunks| - 1]) + chunks[|chunks| - 1]
  {
    assert chunks == chunks[..|chunks| - 1] + [chunks[|chunks| - 1]];
    FlattenMore(chunks[..|chunks| - 1], chunks[|chunks| - 1]);
  }

  lemma {:induction false} PickedLast(dest: Dest, chunks: seq<seq<Point>>, writes: seq<bool>, x: Item, ok: bool)
    requires 0 < |chunks| <= |writes|
    ensures CountAll(Picked(dest, chunks, writes, ok), x)
      == CountAll(Picked(dest, chunks[..|chunks| - 1], writes, ok), x)
         + if writes[|chunks| - 1] == ok then Count(Batch(dest, chunks[|chunks| - 1]), x) else 0
  {
    var picked := Picked(dest, chunks[..|chunks| - 1], writes, ok);
    CountMore(picked, Batch(dest, chunks[|chunks| - 1]), x);
    assert picked + [] == picked;
  }

  lemma {:induction false} FlattenMore(chunks: seq<seq<Point>>, last: seq<Point>)
    ensures Flatten(chunks + [last]) == Flatten(chunks) + last
  {
    if chunks == [] {
      assert [last][1..] == [];
    } else {
      assert (chunks + [last])[1..] == chunks[1..] + [last];
      FlattenMore(chunks[1..], last);
    }
  }

  /** So a sender that retries neither loses nor doubles a point. */
  lemma {:induction false} SendingConserves(batch: Batch, writes: seq<bool>, size: nat, x: Item)
    requires size > 0 && |writes| >= |Chunks(batch.points, size)|
    ensures CountAll(Picked(batch.dest, Chunks(batch.points, size), writes, true), x)
            + CountAll(Picked(batch.dest, Chunks(batch.points, size), writes, false), x)
      == Count(batch, x)
  {
    PickedConserve(batch.dest, Chunks(batch.points, size), writes, x);
    ChunksAreThePoints(batch.points, size);
  }

  // ---------- Destinations ----------

  /** The database and the policy in one string, with nothing between them. */
  function Key(d: Dest): string {
    d.database + d.retentionPolicy
  }

  /** No two destinations have the same key. */
  ghost predicate KeysDiffer(dests: set<Dest>) {
    forall d, e | d in dests && e in dests && Key(d) == Key(e) :: d == e
  }

  /** The databases that the program writes to; the retention policies come from its configuration. */
  const DATABASES := {"cache_stats", "deliveryservice_stats", "daily_stats"}

  ghost predicate OwnDests(dests: set<Dest>) {
    forall d | d in dests :: d.database in DATABASES
  }

  /** Keys of the program's own destinations differ, whatever the policies: no name of a database is the beginning
      of another. */
  lemma {:induction false} OwnKeysDiffer(dests: set<Dest>)
    requires OwnDests(dests)
    ensures KeysDiffer(dests)
  {
    forall d, e | d in dests && e in dests && Key(d) == Key(e)
      ensures d == e
    {
      assert Key(d)[0] == d.database[0] && Key(e)[0] == e.database[0];
      assert Key(d)[1] == d.database[1] && Key(e)[1] == e.database[1];
      assert d.database == e.database;
      assert d.retentionPolicy == Key(d)[|d.database|..] && e.retentionPolicy == Key(e)[|e.database|..];
    }
  }

  /** The batch objects there are, and the map of the program, which refers to some of them. */
  datatype Memory<!R> = Memory(objs: map<R, Batch>, bps: map<string, R>)

  ghost predicate Closed<R>(m: Memory<R>) {
    forall key | key in m.bps :: m.bps[key] in m.objs
  }

  /** A batch that comes in is stored under its key, or its points are added to the object that is there: which may
      be the very same one. */
  ghost function Received<R>(m: Memory<R>, r: R): Memory<R>
    requires Closed(m) && r in m.objs
  {
    var key := Key(m.objs[r].dest);
    if key in m.bps then
      var k := m.bps[key];
      m.(objs := m.objs[k := m.objs[k].(points := m.objs[k].points + m.objs[r].points)])
    else
      m.(bps := m.bps[key := r])
  }

  /** The loop of the program, one event at a time. */
  class Aggregator {
    var bps: map<string, BatchPoints>

    constructor ()
      ensures bps == map[]
    {
      bps := map[];
    }

    ghost predicate Shows(m: Memory<BatchPoints>)
      reads this, m.objs.Keys
    {
      bps == m.bps && Closed(m) && forall b | b in m.objs :: b.Value() == m.objs[b]
    }

    /** Goes over the points that the batch has at the start, also when it is the object that they are added to. */
    method Receive(batchPoints: BatchPoints, ghost m: Memory<BatchPoints>)
      requires Shows(m) && batchPoints in m.objs
      modifies this, m.objs.Keys
      ensures Shows(Received(m, batchPoints))
    {
      var key := Key(batchPoints.dest);
      if key in bps {
        var bp, points := bps[key], batchPoints.points;
        ghost var before := bp.points;
        for i := 0 to |points|
          invariant bp.points == before + points[..i] && bps == m.bps
          invariant forall b | b in m.objs && b != bp :: b.Value() == m.objs[b]
        {
          bp.AddPoint(points[i]);
          assert points[..i + 1] == points[..i] + [points[i]];
        }
        assert points[..|points|] == points;
      } else {
        bps := bps[key := batchPoints];
      }
    }

    /** Hands every object of the map to a sender, each once and in any order, and starts again with none. */
    method Publish() returns (sent: seq<BatchPoints>, ghost keys: seq<string>)
      modifies this
      ensures bps == map[] && |keys| == |sent|
      ensures forall key :: key in keys <==> key in old(bps)
      ensures forall i, j | 0 <= i < j < |keys| :: keys[i] != keys[j]
      ensures forall i | 0 <= i < |sent| :: sent[i] == old(bps)[keys[i]]
    {
      sent, keys := [], [];
      while bps != map[]
        invariant |keys| == |sent| && bps.Keys <= old(bps).Keys && forall key | key in bps :: bps[key] == old(bps)[key]
        invariant forall key :: key in keys <==> key in old(bps) && key !in bps
        invariant forall i, j | 0 <= i < j < |keys| :: keys[i] != keys[j]
        invariant forall i | 0 <= i < |sent| :: sent[i] == old(bps)[keys[i]]
        decreases bps.Keys
      {
        var key :| key in bps;
        assert forall i | 0 <= i < |keys| :: keys[i] in keys;
        sent, keys := sent + [bps[key]], keys + [key];
        bps := bps - {key};
      }
    }
  }
}
