/** The points of Traffic Stats on their way, as long as batches may be taken for values
    (`traffic_stats/traffic_stats.go`). */
module Gathering {
  import opened Totals
  import opened TrafficStats

  type Bps = map<string, Batch>

  /** A batch goes with the one of the same key, whose destination it takes. */
  function Aggregated(bps: Bps, b: Batch): Bps {
    var key := Key(b.dest);
    if key in bps then bps[key := bps[key].(points := bps[key].points + b.points)] else bps[key := b]
  }

  function Add(a: int, b: int): int {
    a + b
  }

  lemma {:induction false} AddIsAdditive()
    ensures Additive(Add, 0)
  {
    forall a, b
      ensures Commutes(Add, a, b)
    {
      assert Add(a, b) == Add(b, a);
    }
    forall a, b, c
      ensures Associates(Add, a, b, c)
    {
      assert Add(Add(a, b), c) == Add(a, Add(b, c));
    }
    forall a
      ensures Neutral(Add, 0, a)
    {
      assert Add(a, 0) == a;
    }
  }

  ghost function Counts(bps: Bps, x: Item): map<string, int> {
    map key | key in bps :: Count(bps[key], x)
  }

  ghost function CountMap(bps: Bps, x: Item): int {
    Total(Counts(bps, x), Add, 0)
  }

  /** The keys are those of the batches, all of which have known destinations. */
  ghost predicate Keyed(bps: Bps, dests: set<Dest>) {
    forall key | key in bps :: bps[key].dest in dests && Key(bps[key].dest) == key
  }

  /** Points are always kept; points of a destination, as long as its key is its own. */
  ghost predicate Kept(x: Item, dests: set<Dest>) {
    x.Anywhere? || KeysDiffer(dests)
  }

  lemma {:induction false} AggregatedEntry(bps: Bps, b: Batch, dests: set<Dest>, x: Item)
    requires Keyed(bps, dests) && b.dest in dests && Kept(x, dests)
    ensures Keyed(Aggregated(bps, b), dests)
    ensures Count(Aggregated(bps, b)[Key(b.dest)], x)
      == (if Key(b.dest) in bps then Count(bps[Key(b.dest)], x) else 0) + Count(b, x)
  {
    var key := Key(b.dest);
    if key in bps {
      var kept := bps[key];
      assert Key(kept.dest) == key && (x.At? ==> kept.dest == b.dest);
      CountSplit(kept.dest, kept.points, b.points, x);
    }
  }

  lemma {:induction false} CountsOfUpdate(bps: Bps, key: string, b: Batch, x: Item)
    ensures Counts(bps[key := b], x) == Counts(bps, x)[key := Count(b, x)]
  {
  }

  lemma {:induction false} AggregatedConserves(bps: Bps, b: Batch, dests: set<Dest>, x: Item)
    requires Keyed(bps, dests) && b.dest in dests && Kept(x, dests)
    ensures Keyed(Aggregated(bps, b), dests)
    ensures CountMap(Aggregated(bps, b), x) == CountMap(bps, x) + Count(b, x)
  {
    var key, counts := Key(b.dest), Counts(bps, x);
    AggregatedEntry(bps, b, dests, x);
    var entry := Aggregated(bps, b)[key];
    assert Aggregated(bps, b) == bps[key := entry];
    CountsOfUpdate(bps, key, entry, x);
    assert Add(Get(counts, key, 0), Count(b, x)) == Count(entry, x);
    AddIsAdditive();
    TotalAdd(counts, key, Count(b, x), Add, 0);
  }

  lemma {:induction false} RemovedConserves(bps: Bps, key: string, x: Item)
    requires key in bps
    ensures CountMap(bps, x) == CountMap(bps - {key}, x) + Count(bps[key], x)
  {
    var counts := Counts(bps, x);
    AddIsAdditive();
    TotalSplit(counts, key, Add, 0);
    assert Counts(bps - {key}, x) == counts - {key};
  }

  // ---------- Interleaved ----------

  /** `channel` holds the batches of goroutines that wait to send on it, and `sending` what senders have not
      written yet. The last two fields are histories. */
  datatype State = State(bps: Bps, channel: seq<Batch>, sending: seq<Batch>, written: seq<Batch>, produced: seq<Batch>)

  datatype Step =
    | Produce(b: Batch)
    | Receive(i: nat)
    | Publish(key: string)
    | ConnectionFails(i: nat)
    | WriteChunk(i: nat, size: nat, ok: bool)
    | Sent(i: nat)

  ghost predicate Enabled(s: State, step: Step) {
    match step
    case Produce(_) => true
    case Receive(i) => i < |s.channel|
    case Publish(key) => key in s.bps
    case ConnectionFails(i) => i < |s.sending|
    case WriteChunk(i, _, _) => i < |s.sending| && s.sending[i].points != []
    case Sent(i) => i < |s.sending| && s.sending[i].points == []
  }

  ghost function Apply(s: State, step: Step): State
    requires Enabled(s, step)
  {
    match step
    case Produce(b) => s.(channel := s.channel + [b], produced := s.produced + [b])
    case Receive(i) => s.(channel := Without(s.channel, i), bps := Aggregated(s.bps, s.channel[i]))
    case Publish(key) => s.(sending := s.sending + [s.bps[key]], bps := s.bps - {key})
    case ConnectionFails(i) => s.(sending := Without(s.sending, i), channel := s.channel + [s.sending[i]])
    case WriteChunk(i, size, ok) =>
      var b := s.sending[i];
      var n := IntMin(size, |b.points|);
      var chunk, rest := Batch(b.dest, b.points[..n]), Batch(b.dest, b.points[n..]);
      if ok then s.(sending := Without(s.sending, i) + [rest], written := s.written + [chunk])
      else s.(sending := Without(s.sending, i) + [rest], channel := s.channel + [chunk])
    case Sent(i) => s.(sending := Without(s.sending, i))
  }

  /** How many there are in the map, with senders, on the channel and written. */
  ghost function Everywhere(s: State, x: Item): int {
    CountMap(s.bps, x) + CountAll(s.sending, x) + CountAll(s.channel, x) + CountAll(s.written, x)
  }

  ghost predicate Known(batches: seq<Batch>, dests: set<Dest>) {
    forall i | 0 <= i < |batches| :: batches[i].dest in dests
  }

  /** Every batch has a known destination, and those in the map are under the key of theirs. */
  ghost predicate Placed(s: State, dests: set<Dest>) {
    Keyed(s.bps, dests) && Known(s.channel, dests) && Known(s.sending, dests)
  }

  lemma {:induction false} StepKeepsPlaced(s: State, step: Step, dests: set<Dest>)
    requires Placed(s, dests) && Enabled(s, step) && (step.Produce? ==> step.b.dest in dests)
    ensures Placed(Apply(s, step), dests)
  {
  }

  ghost predicate Conserved(s: State, x: Item) {
    Everywhere(s, x) == CountAll(s.produced, x)
  }

  lemma {:induction false} ProduceConserves(s: State, b: Batch, x: Item)
    requires Conserved(s, x)
    ensures Conserved(Apply(s, Produce(b)), x)
  {
    CountMore(s.channel, b, x);
    CountMore(s.produced, b, x);
  }

  lemma {:induction false} ReceiveConserves(s: State, i: nat, dests: set<Dest>, x: Item)
    requires Conserved(s, x) && i < |s.channel| && Kept(x, dests) && Keyed(s.bps, dests) && s.channel[i].dest in dests
    ensures Conserved(Apply(s, Receive(i)), x)
  {
    CountWithout(s.channel, i, x);
    AggregatedConserves(s.bps, s.channel[i], dests, x);
  }

  lemma {:induction false} PublishConserves(s: State, key: string, x: Item)
    requires Conserved(s, x) && key in s.bps
    ensures Conserved(Apply(s, Publish(key)), x)
  {
    CountMore(s.sending, s.bps[key], x);
    RemovedConserves(s.bps, key, x);
  }

  lemma {:induction false} SenderEndConserves(s: State, step: Step, x: Item)
    requires Conserved(s, x) && Enabled(s, step) && (step.ConnectionFails? || step.Sent?)
    ensures Conserved(Apply(s, step), x)
  {
    CountWithout(s.sending, step.i, x);
    CountMore(s.channel, s.sending[step.i], x);
  }

  lemma {:induction false} CountChunk(b: Batch, n: nat, x: Item)
    requires n <= |b.points|
    ensures Count(b, x) == Count(Batch(b.dest, b.points[..n]), x) + Count(Batch(b.dest, b.points[n..]), x)
  {
    assert b.points[..n] + b.points[n..] == b.points;
    CountSplit(b.dest, b.points[..n], b.points[n..], x);
  }

  lemma {:induction false} WriteConserves(s: State, i: nat, size: nat, ok: bool, x: Item)
    requires Conserved(s, x) && Enabled(s, WriteChunk(i, size, ok))
    ensures Conserved(Apply(s, WriteChunk(i, size, ok)), x)
  {
    var b := s.sending[i];
    var n := IntMin(size, |b.points|);
    CountChunk(b, n, x);
    var chunk, rest := Batch(b.dest, b.points[..n]), Batch(b.dest, b.points[n..]);
    CountWithout(s.sending, i, x);
    CountMore(Without(s.sending, i), rest, x);
    CountMore(if ok then s.written else s.channel, chunk, x);
  }

  lemma {:induction false} StepConserves(s: State, step: Step, dests: set<Dest>, x: Item)
    requires Conserved(s, x) && Placed(s, dests) && Enabled(s, step) && Kept(x, dests)
    ensures Conserved(Apply(s, step), x)
  {
    match step
    case Produce(b) => ProduceConserves(s, b, x);
    case Receive(i) => ReceiveConserves(s, i, dests, x);
    case Publish(key) => PublishConserves(s, key, x);
    case WriteChunk(i, size, ok) => WriteConserves(s, i, size, ok, x);
    case _ => SenderEndConserves(s, step, x);
  }
}
