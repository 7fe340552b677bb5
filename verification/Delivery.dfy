/** The points of Traffic Stats on their way, with batches as the objects that they are: which programs conserve them
    (`traffic_stats/traffic_stats.go`). */
module Delivery {
  import opened Core
  import opened Totals
  import opened TrafficStats
  import Gathering

  /** What a goroutine does with a batch object: it adds points, and sends the object, so many times. */
  datatype Script = Script(dest: Dest, sends: seq<seq<Point>>)

  predicate Pointless(c: Script) {
    forall k | 0 <= k < |c.sends| :: c.sends[k] == []
  }

  type Ref = nat

  datatype Producer = Producer(script: Script, ref: Ref, sent: nat)

  /** An object on the channel, and the producer that waits until it is received. */
  datatype Waiting = Waiting(ref: Ref, producer: Option<nat>)

  /** A sender has the object until it is connected, and then the points that it held at that time. */
  datatype Sender = Connecting(ref: Ref) | Writing(batch: Batch)

  /** The last two fields are histories. */
  datatype State = State(
    m: Memory<Ref>,
    producers: seq<Producer>,
    channel: seq<Waiting>,
    senders: seq<Sender>,
    written: seq<Batch>,
    produced: seq<Batch>)

  const INITIAL := State(Memory(map[], map[]), [], [], [], [], [])

  datatype Step =
    | Begin(script: Script, ref: Ref)
    | Send(g: nat)
    | Receive(i: nat)
    | Publish(key: string)
    | ConnectionFails(i: nat)
    | Connected(i: nat)
    | WriteChunk(i: nat, size: nat, ok: bool, ref: Ref)
    | Sent(i: nat)

  /** All references are to objects. */
  ghost predicate Wellformed(s: State) {
    && Closed(s.m)
    && (forall g | 0 <= g < |s.producers| :: s.producers[g].ref in s.m.objs)
    && (forall i | 0 <= i < |s.channel| :: s.channel[i].ref in s.m.objs)
    && (forall i | 0 <= i < |s.senders| && s.senders[i].Connecting? :: s.senders[i].ref in s.m.objs)
  }

  ghost predicate Waits(s: State, g: nat) {
    exists i :: 0 <= i < |s.channel| && s.channel[i].producer == Some(g)
  }

  ghost predicate Enabled(program: iset<Script>, s: State, step: Step)
    requires Wellformed(s)
  {
    match step
    case Begin(script, ref) => script in program && ref !in s.m.objs
    case Send(g) => g < |s.producers| && s.producers[g].sent < |s.producers[g].script.sends| && !Waits(s, g)
    case Receive(i) => i < |s.channel|
    case Publish(key) => key in s.m.bps
    case ConnectionFails(i) => i < |s.senders| && s.senders[i].Connecting?
    case Connected(i) => i < |s.senders| && s.senders[i].Connecting?
    case WriteChunk(i, _, _, ref) =>
      i < |s.senders| && s.senders[i].Writing? && s.senders[i].batch.points != [] && ref !in s.m.objs
    case Sent(i) => i < |s.senders| && s.senders[i].Writing? && s.senders[i].batch.points == []
  }

  /** The producer adds the points of its next send to its object, which others may have by now. */
  ghost function Adding(s: State, g: nat): Memory<Ref>
    requires Wellformed(s) && g < |s.producers| && s.producers[g].sent < |s.producers[g].script.sends|
  {
    var p := s.producers[g];
    s.m.(objs := s.m.objs[p.ref := s.m.objs[p.ref].(points := s.m.objs[p.ref].points + p.script.sends[p.sent])])
  }

  ghost function Apply(program: iset<Script>, s: State, step: Step): (t: State)
    requires Wellformed(s) && Enabled(program, s, step)
    ensures Wellformed(t)
  {
    match step
    case Begin(script, ref) =>
      s.(m := s.m.(objs := s.m.objs[ref := Batch(script.dest, [])]), producers := s.producers + [Producer(script, ref, 0)])
    case Send(g) =>
      var p := s.producers[g];
      s.(m := Adding(s, g), producers := s.producers[g := p.(sent := p.sent + 1)], channel := s.channel + [Waiting(p.ref, Some(g))],
         produced := s.produced + [Batch(p.script.dest, p.script.sends[p.sent])])
    case Receive(i) => s.(m := Received(s.m, s.channel[i].ref), channel := Without(s.channel, i))
    case Publish(key) => s.(m := s.m.(bps := s.m.bps - {key}), senders := s.senders + [Connecting(s.m.bps[key])])
    case ConnectionFails(i) => s.(senders := Without(s.senders, i), channel := s.channel + [Waiting(s.senders[i].ref, None)])
    case Connected(i) => s.(senders := s.senders[i := Writing(s.m.objs[s.senders[i].ref])])
    case WriteChunk(i, size, ok, ref) =>
      var b := s.senders[i].batch;
      var n := IntMin(size, |b.points|);
      var chunk, senders := Batch(b.dest, b.points[..n]), Without(s.senders, i) + [Writing(Batch(b.dest, b.points[n..]))];
      if ok then s.(senders := senders, written := s.written + [chunk])
      else s.(senders := senders, m := s.m.(objs := s.m.objs[ref := chunk]), channel := s.channel + [Waiting(ref, None)])
    case Sent(i) => s.(senders := Without(s.senders, i))
  }

  // ---------- Batches as values ----------

  type Objects = map<Ref, Batch>

  function ValueOf(objs: Objects, r: Ref): Batch {
    if r in objs then objs[r] else Batch(Dest("", ""), [])
  }

  ghost function MapValues(objs: Objects, bps: map<string, Ref>): Gathering.Bps {
    map key | key in bps :: ValueOf(objs, bps[key])
  }

  ghost function ChannelValues(objs: Objects, channel: seq<Waiting>): seq<Batch> {
    seq(|channel|, i requires 0 <= i < |channel| => ValueOf(objs, channel[i].ref))
  }

  function SenderValue(objs: Objects, sender: Sender): Batch {
    match sender
    case Connecting(r) => ValueOf(objs, r)
    case Writing(b) => b
  }

  ghost function SenderValues(objs: Objects, senders: seq<Sender>): seq<Batch> {
    seq(|senders|, i requires 0 <= i < |senders| => SenderValue(objs, senders[i]))
  }

  /** The state with what the objects hold, each as often as it is referred to. */
  ghost function Values(s: State): Gathering.State {
    Gathering.State(MapValues(s.m.objs, s.m.bps), ChannelValues(s.m.objs, s.channel), SenderValues(s.m.objs, s.senders),
                    s.written, s.produced)
  }

  /** Each point that was produced is in the map, with a sender, on the channel or written, as often as it was
      produced, and no others are. */
  ghost predicate Conserved(s: State, x: Item) {
    Gathering.Conserved(Values(s), x)
  }

  // ---------- Who has an object ----------

  /** How many elements refer to an object. */
  ghost function Held<T(!new)>(a: seq<T>, of: T -> Option<Ref>, r: Ref): nat {
    if a == [] then 0 else Held(a[..|a| - 1], of, r) + if of(a[|a| - 1]) == Some(r) then 1 else 0
  }

  lemma {:induction false} HeldConcat<T(!new)>(a: seq<T>, b: seq<T>, of: T -> Option<Ref>, r: Ref)
    ensures Held(a + b, of, r) == Held(a, of, r) + Held(b, of, r)
  {
    if b == [] {
      assert a + b == a;
    } else {
      assert (a + b)[..|a + b| - 1] == a + b[..|b| - 1];
      HeldConcat(a, b[..|b| - 1], of, r);
    }
  }

  lemma {:induction false} HeldMore<T(!new)>(a: seq<T>, x: T, of: T -> Option<Ref>, r: Ref)
    ensures Held(a + [x], of, r) == Held(a, of, r) + if of(x) == Some(r) then 1 else 0
  {
    assert (a + [x])[..|a|] == a;
  }

  lemma {:induction false} HeldWithout<T(!new)>(a: seq<T>, i: nat, of: T -> Option<Ref>, r: Ref)
    requires i < |a|
    ensures Held(a, of, r) == Held(Without(a, i), of, r) + if of(a[i]) == Some(r) then 1 else 0
  {
    var front, back := a[..i], a[i + 1..];
    HeldConcat(front, back, of, r);
    HeldConcat(front + [a[i]], back, of, r);
    HeldMore(front, a[i], of, r);
    assert a == (front + [a[i]]) + back;
  }

  lemma {:induction false} HeldUpdate<T(!new)>(a: seq<T>, i: nat, x: T, of: T -> Option<Ref>, r: Ref)
    requires i < |a|
    ensures Held(a[i := x], of, r) + (if of(a[i]) == Some(r) then 1 else 0) == Held(a, of, r) + if of(x) == Some(r) then 1 else 0
  {
    HeldWithout(a, i, of, r);
    HeldWithout(a[i := x], i, of, r);
    assert Without(a[i := x], i) == Without(a, i);
  }

  function WaitingRef(w: Waiting): Option<Ref> {
    Some(w.ref)
  }

  function SenderRef(x: Sender): Option<Ref> {
    if x.Connecting? then Some(x.ref) else None
  }

  /** A producer has its object until it sends it. */
  function ProducerRef(p: Producer): Option<Ref> {
    if p.sent == 0 then Some(p.ref) else None
  }

  ghost function InMap(m: Memory<Ref>, r: Ref): nat {
    var key := Key(ValueOf(m.objs, r).dest);
    if key in m.bps && m.bps[key] == r then 1 else 0
  }

  ghost function Holders(s: State, r: Ref): nat {
    InMap(s.m, r) + Held(s.channel, WaitingRef, r) + Held(s.senders, SenderRef, r) + Held(s.producers, ProducerRef, r)
  }

  // ---------- Safe programs ----------

  /** No script with this key has a point. */
  ghost predicate Barren(program: iset<Script>, key: string) {
    forall c | c in program && Key(c.dest) == key :: Pointless(c)
  }

  /** A script that sends its object twice has a key of which no script has a point. */
  ghost predicate Safe(program: iset<Script>) {
    forall c | c in program && |c.sends| >= 2 :: Barren(program, Key(c.dest))
  }

  /** An object of a key with points has one holder at most; objects of other keys are empty. */
  ghost predicate Single(program: iset<Script>, s: State, r: Ref) {
    if r in s.m.objs && Barren(program, Key(s.m.objs[r].dest)) then s.m.objs[r].points == []
    else Holders(s, r) <= if r in s.m.objs then 1 else 0
  }

  ghost predicate AllSingle(program: iset<Script>, s: State) {
    forall r :: Single(program, s, r)
  }

  ghost predicate ProducerFits(program: iset<Script>, objs: Objects, p: Producer) {
    && p.script in program && p.ref in objs && objs[p.ref].dest == p.script.dest
    && p.sent <= |p.script.sends| && (p.sent == 0 ==> objs[p.ref].points == [])
  }

  ghost predicate ProducersFit(program: iset<Script>, objs: Objects, producers: seq<Producer>) {
    forall g | 0 <= g < |producers| :: ProducerFits(program, objs, producers[g])
  }

  ghost predicate SendersFit(program: iset<Script>, senders: seq<Sender>) {
    forall i | 0 <= i < |senders| && senders[i].Writing? && Barren(program, Key(senders[i].batch.dest)) :: senders[i].batch.points == []
  }

  ghost predicate Keyed(m: Memory<Ref>) {
    Closed(m) && forall key | key in m.bps :: Key(m.objs[m.bps[key]].dest) == key
  }

  ghost predicate Inv(program: iset<Script>, s: State) {
    && Wellformed(s) && Keyed(s.m) && ProducersFit(program, s.m.objs, s.producers) && SendersFit(program, s.senders)
    && AllSingle(program, s)
  }

  // ---------- Steps that change no object ----------

  lemma {:induction false} ChannelMore(objs: Objects, channel: seq<Waiting>, w: Waiting)
    ensures ChannelValues(objs, channel + [w]) == ChannelValues(objs, channel) + [ValueOf(objs, w.ref)]
  {
  }

  lemma {:induction false} ChannelWithout(objs: Objects, channel: seq<Waiting>, i: nat)
    requires i < |channel|
    ensures ChannelValues(objs, Without(channel, i)) == Without(ChannelValues(objs, channel), i)
  {
  }

  lemma {:induction false} SendersMore(objs: Objects, senders: seq<Sender>, x: Sender)
    ensures SenderValues(objs, senders + [x]) == SenderValues(objs, senders) + [SenderValue(objs, x)]
  {
  }

  lemma {:induction false} SendersWithout(objs: Objects, senders: seq<Sender>, i: nat)
    requires i < |senders|
    ensures SenderValues(objs, Without(senders, i)) == Without(SenderValues(objs, senders), i)
  {
  }

  /** A new object does not show in the values. */
  lemma {:induction false} NewObject(s: State, ref: Ref, b: Batch)
    requires Wellformed(s) && ref !in s.m.objs
    ensures MapValues(s.m.objs[ref := b], s.m.bps) == MapValues(s.m.objs, s.m.bps)
    ensures ChannelValues(s.m.objs[ref := b], s.channel) == ChannelValues(s.m.objs, s.channel)
    ensures SenderValues(s.m.objs[ref := b], s.senders) == SenderValues(s.m.objs, s.senders)
  {
  }

  /** No step but a new object gives an object more holders. */
  lemma {:induction false} StaysSingle(program: iset<Script>, s: State, t: State)
    requires AllSingle(program, s) && t.m.objs == s.m.objs
    requires forall r :: Holders(t, r) <= Holders(s, r)
    ensures AllSingle(program, t)
  {
    forall r
      ensures Single(program, t, r)
    {
      assert Single(program, s, r) && Holders(t, r) <= Holders(s, r);
    }
  }

  /** A new object has one holder. */
  lemma {:induction false} NewIsSingle(program: iset<Script>, s: State, t: State, ref: Ref, b: Batch)
    requires AllSingle(program, s) && ref !in s.m.objs && t.m.objs == s.m.objs[ref := b]
    requires Barren(program, Key(b.dest)) ==> b.points == []
    requires forall r :: Holders(t, r) <= Holders(s, r) + if r == ref then 1 else 0
    ensures AllSingle(program, t)
  {
    forall r
      ensures Single(program, t, r)
    {
      assert Single(program, s, r) && Holders(t, r) <= Holders(s, r) + if r == ref then 1 else 0;
    }
  }

  /** From one state to the other, on values the given step was made, or none. */
  ghost predicate Follows(v: Gathering.State, t: Gathering.State, shadow: Option<Gathering.Step>) {
    match shadow
    case None => t == v
    case Some(step) => Gathering.Enabled(v, step) && t == Gathering.Apply(v, step)
  }

  lemma {:induction false} InMapOfNew(m: Memory<Ref>, ref: Ref, b: Batch, r: Ref)
    requires Keyed(m) && ref !in m.objs
    ensures InMap(m.(objs := m.objs[ref := b]), r) <= InMap(m, r)
  {
  }

  lemma {:induction false} BeginKeeps(program: iset<Script>, s: State, script: Script, ref: Ref)
    requires Inv(program, s) && Enabled(program, s, Begin(script, ref))
    ensures var t := Apply(program, s, Begin(script, ref)); Inv(program, t) && Follows(Values(s), Values(t), None)
  {
    var t := Apply(program, s, Begin(script, ref));
    NewObject(s, ref, Batch(script.dest, []));
    forall r
      ensures Holders(t, r) <= Holders(s, r) + if r == ref then 1 else 0
    {
      HeldMore(s.producers, Producer(script, ref, 0), ProducerRef, r);
      InMapOfNew(s.m, ref, Batch(script.dest, []), r);
    }
    NewIsSingle(program, s, t, ref, Batch(script.dest, []));
  }

  lemma {:induction false} PublishKeeps(program: iset<Script>, s: State, key: string)
    requires Inv(program, s) && Enabled(program, s, Publish(key))
    ensures var t := Apply(program, s, Publish(key));
      Inv(program, t) && Follows(Values(s), Values(t), Some(Gathering.Publish(key)))
  {
    var t, x := Apply(program, s, Publish(key)), Connecting(s.m.bps[key]);
    SendersMore(s.m.objs, s.senders, x);
    assert MapValues(t.m.objs, t.m.bps) == MapValues(s.m.objs, s.m.bps) - {key};
    forall r
      ensures Holders(t, r) <= Holders(s, r)
    {
      HeldMore(s.senders, x, SenderRef, r);
    }
    StaysSingle(program, s, t);
  }

  lemma {:induction false} FailureKeeps(program: iset<Script>, s: State, i: nat)
    requires Inv(program, s) && Enabled(program, s, ConnectionFails(i))
    ensures var t := Apply(program, s, ConnectionFails(i));
      Inv(program, t) && Follows(Values(s), Values(t), Some(Gathering.ConnectionFails(i)))
  {
    var t, w := Apply(program, s, ConnectionFails(i)), Waiting(s.senders[i].ref, None);
    ChannelMore(s.m.objs, s.channel, w);
    SendersWithout(s.m.objs, s.senders, i);
    forall r
      ensures Holders(t, r) <= Holders(s, r)
    {
      HeldWithout(s.senders, i, SenderRef, r);
      HeldMore(s.channel, w, WaitingRef, r);
    }
    StaysSingle(program, s, t);
  }

  lemma {:induction false} ConnectedKeeps(program: iset<Script>, s: State, i: nat)
    requires Inv(program, s) && Enabled(program, s, Connected(i))
    ensures var t := Apply(program, s, Connected(i)); Inv(program, t) && Follows(Values(s), Values(t), None)
  {
    var t, ref := Apply(program, s, Connected(i)), s.senders[i].ref;
    var x := Writing(s.m.objs[ref]);
    assert SenderValues(t.m.objs, t.senders) == SenderValues(s.m.objs, s.senders);
    assert Single(program, s, ref);
    forall r
      ensures Holders(t, r) <= Holders(s, r)
    {
      HeldUpdate(s.senders, i, x, SenderRef, r);
    }
    StaysSingle(program, s, t);
  }

  lemma {:induction false} SentKeeps(program: iset<Script>, s: State, i: nat)
    requires Inv(program, s) && Enabled(program, s, Sent(i))
    ensures var t := Apply(program, s, Sent(i)); Inv(program, t) && Follows(Values(s), Values(t), Some(Gathering.Sent(i)))
  {
    var t := Apply(program, s, Sent(i));
    SendersWithout(s.m.objs, s.senders, i);
    forall r
      ensures Holders(t, r) <= Holders(s, r)
    {
      HeldWithout(s.senders, i, SenderRef, r);
    }
    StaysSingle(program, s, t);
  }

  /** What is left of a batch after a chunk. */
  function Rest(b: Batch, size: nat): Sender {
    Writing(Batch(b.dest, b.points[IntMin(size, |b.points|)..]))
  }

  lemma {:induction false} RestFits(program: iset<Script>, senders: seq<Sender>, i: nat, size: nat)
    requires i < |senders| && senders[i].Writing? && SendersFit(program, senders)
    ensures SendersFit(program, Without(senders, i) + [Rest(senders[i].batch, size)])
    ensures Barren(program, Key(senders[i].batch.dest)) ==> senders[i].batch.points == []
  {
  }

  lemma {:induction false} WrittenKeeps(program: iset<Script>, s: State, i: nat, size: nat, ref: Ref)
    requires Inv(program, s) && Enabled(program, s, WriteChunk(i, size, true, ref))
    ensures var t := Apply(program, s, WriteChunk(i, size, true, ref));
      Inv(program, t) && Follows(Values(s), Values(t), Some(Gathering.WriteChunk(i, size, true)))
  {
    var t, b := Apply(program, s, WriteChunk(i, size, true, ref)), s.senders[i].batch;
    SendersWithout(s.m.objs, s.senders, i);
    SendersMore(s.m.objs, Without(s.senders, i), Rest(b, size));
    RestFits(program, s.senders, i, size);
    forall r
      ensures Holders(t, r) <= Holders(s, r)
    {
      HeldWithout(s.senders, i, SenderRef, r);
      HeldMore(Without(s.senders, i), Rest(b, size), SenderRef, r);
    }
    StaysSingle(program, s, t);
  }

  lemma {:induction false} UnwrittenKeeps(program: iset<Script>, s: State, i: nat, size: nat, ref: Ref)
    requires Inv(program, s) && Enabled(program, s, WriteChunk(i, size, false, ref))
    ensures var t := Apply(program, s, WriteChunk(i, size, false, ref));
      Inv(program, t) && Follows(Values(s), Values(t), Some(Gathering.WriteChunk(i, size, false)))
  {
    var t, b := Apply(program, s, WriteChunk(i, size, false, ref)), s.senders[i].batch;
    var chunk, w := Batch(b.dest, b.points[..IntMin(size, |b.points|)]), Waiting(ref, None);
    NewObject(s, ref, chunk);
    ChannelMore(t.m.objs, s.channel, w);
    SendersWithout(t.m.objs, s.senders, i);
    SendersMore(t.m.objs, Without(s.senders, i), Rest(b, size));
    RestFits(program, s.senders, i, size);
    forall r
      ensures Holders(t, r) <= Holders(s, r) + if r == ref then 1 else 0
    {
      HeldWithout(s.senders, i, SenderRef, r);
      HeldMore(Without(s.senders, i), Rest(b, size), SenderRef, r);
      HeldMore(s.channel, w, WaitingRef, r);
      InMapOfNew(s.m, ref, chunk, r);
    }
    NewIsSingle(program, s, t, ref, chunk);
  }

  // ---------- Steps that add points ----------

  lemma {:induction false} HeldSome<T(!new)>(a: seq<T>, i: nat, of: T -> Option<Ref>, r: Ref)
    requires i < |a| && of(a[i]) == Some(r)
    ensures Held(a, of, r) >= 1
  {
    HeldWithout(a, i, of, r);
  }

  lemma {:induction false} HeldTwice<T(!new)>(a: seq<T>, i: nat, j: nat, of: T -> Option<Ref>, r: Ref)
    requires i < |a| && j < |a| && i != j && of(a[i]) == Some(r) && of(a[j]) == Some(r)
    ensures Held(a, of, r) >= 2
  {
    HeldWithout(a, i, of, r);
    HeldSome(Without(a, i), if j < i then j else j - 1, of, r);
  }

  /** What is added to an object that nobody on the channel or sending has shows only in the map. */
  lemma {:induction false} Unaffected(objs: Objects, r: Ref, b: Batch, channel: seq<Waiting>, senders: seq<Sender>)
    requires Held(channel, WaitingRef, r) == 0 && Held(senders, SenderRef, r) == 0
    ensures ChannelValues(objs[r := b], channel) == ChannelValues(objs, channel)
    ensures SenderValues(objs[r := b], senders) == SenderValues(objs, senders)
  {
    forall i | 0 <= i < |channel|
      ensures channel[i].ref != r
    {
      if channel[i].ref == r {
        HeldSome(channel, i, WaitingRef, r);
      }
    }
    forall i | 0 <= i < |senders|
      ensures senders[i] != Connecting(r)
    {
      if senders[i] == Connecting(r) {
        HeldSome(senders, i, SenderRef, r);
      }
    }
  }

  lemma {:induction false} ProducersKept(program: iset<Script>, objs: Objects, r: Ref, points: seq<Point>, producers: seq<Producer>)
    requires ProducersFit(program, objs, producers) && r in objs
    requires Held(producers, ProducerRef, r) == 0 || points == objs[r].points
    ensures ProducersFit(program, objs[r := objs[r].(points := points)], producers)
  {
    forall g | 0 <= g < |producers|
      ensures ProducerFits(program, objs[r := objs[r].(points := points)], producers[g])
    {
      assert ProducerFits(program, objs, producers[g]);
      if producers[g].ref == r && producers[g].sent == 0 {
        HeldSome(producers, g, ProducerRef, r);
      }
    }
  }

  /** Either the object stays empty, or it is the first send, of an object that nobody else has. */
  lemma {:induction false} SendsAlone(program: iset<Script>, s: State, g: nat)
    requires Safe(program) && Inv(program, s) && Enabled(program, s, Send(g))
    ensures var p := s.producers[g];
      if Barren(program, Key(p.script.dest)) then s.m.objs[p.ref].points == [] && p.script.sends[p.sent] == []
      else p.sent == 0 && Holders(s, p.ref) == Held(s.producers, ProducerRef, p.ref) == 1
  {
    var p := s.producers[g];
    assert ProducerFits(program, s.m.objs, p) && Single(program, s, p.ref);
    if !Barren(program, Key(p.script.dest)) {
      assert |p.script.sends| < 2;
      HeldSome(s.producers, g, ProducerRef, p.ref);
    }
  }

  lemma {:induction false} SentProducersFit(program: iset<Script>, s: State, g: nat)
    requires Safe(program) && Inv(program, s) && Enabled(program, s, Send(g))
    ensures ProducersFit(program, Adding(s, g).objs, s.producers[g := s.producers[g].(sent := s.producers[g].sent + 1)])
  {
    var p, objs' := s.producers[g], Adding(s, g).objs;
    SendsAlone(program, s, g);
    forall h | 0 <= h < |s.producers| && h != g
      ensures ProducerFits(program, objs', s.producers[h])
    {
      assert ProducerFits(program, s.m.objs, s.producers[h]) && ProducerFits(program, s.m.objs, p);
      if s.producers[h].ref == p.ref && s.producers[h].sent == 0 && p.sent == 0 {
        HeldTwice(s.producers, g, h, ProducerRef, p.ref);
      }
    }
    assert ProducerFits(program, s.m.objs, p);
  }

  lemma {:induction false} SendHolders(program: iset<Script>, s: State, g: nat, r: Ref)
    requires Inv(program, s) && Enabled(program, s, Send(g))
    ensures Holders(Apply(program, s, Send(g)), r)
      <= Holders(s, r) + if r == s.producers[g].ref && s.producers[g].sent > 0 then 1 else 0
  {
    var p := s.producers[g];
    HeldUpdate(s.producers, g, p.(sent := p.sent + 1), ProducerRef, r);
    HeldMore(s.channel, Waiting(p.ref, Some(g)), WaitingRef, r);
    assert ProducerFits(program, s.m.objs, p);
    assert InMap(Adding(s, g), r) == InMap(s.m, r);
  }

  lemma {:induction false} SendStaysSingle(program: iset<Script>, s: State, g: nat)
    requires Safe(program) && Inv(program, s) && Enabled(program, s, Send(g))
    ensures AllSingle(program, Apply(program, s, Send(g)))
  {
    var t := Apply(program, s, Send(g));
    SendsAlone(program, s, g);
    assert ProducerFits(program, s.m.objs, s.producers[g]);
    forall r
      ensures Single(program, t, r)
    {
      assert Single(program, s, r);
      SendHolders(program, s, g, r);
    }
  }

  lemma {:induction false} SendValues(program: iset<Script>, s: State, g: nat)
    requires Safe(program) && Inv(program, s) && Enabled(program, s, Send(g))
    ensures var p := s.producers[g];
      Follows(Values(s), Values(Apply(program, s, Send(g))), Some(Gathering.Produce(Batch(p.script.dest, p.script.sends[p.sent]))))
  {
    var p := s.producers[g];
    var objs' := Adding(s, g).objs;
    SendsAlone(program, s, g);
    assert ProducerFits(program, s.m.objs, p);
    ChannelMore(objs', s.channel, Waiting(p.ref, Some(g)));
    assert s.m.objs[p.ref].points == [] && [] + p.script.sends[p.sent] == p.script.sends[p.sent];
    if Barren(program, Key(p.script.dest)) {
      assert objs' == s.m.objs;
    } else {
      Unaffected(s.m.objs, p.ref, objs'[p.ref], s.channel, s.senders);
      assert MapValues(objs', s.m.bps) == MapValues(s.m.objs, s.m.bps);
    }
  }

  lemma {:induction false} SendKeeps(program: iset<Script>, s: State, g: nat)
    requires Safe(program) && Inv(program, s) && Enabled(program, s, Send(g))
    ensures Inv(program, Apply(program, s, Send(g)))
  {
    SendStaysSingle(program, s, g);
    SentProducersFit(program, s, g);
  }

  /** Either nothing is added, or the object in the map is in no other place. */
  lemma {:induction false} ReceivesAlone(program: iset<Script>, s: State, i: nat)
    requires Inv(program, s) && Enabled(program, s, Receive(i))
    ensures var r := s.channel[i].ref; var key := Key(s.m.objs[r].dest);
      key in s.m.bps ==>
        || s.m.objs[r].points == []
        || (r != s.m.bps[key] && Held(s.channel, WaitingRef, s.m.bps[key]) == Held(s.senders, SenderRef, s.m.bps[key])
              == Held(s.producers, ProducerRef, s.m.bps[key]) == 0)
  {
    var r := s.channel[i].ref;
    var key := Key(s.m.objs[r].dest);
    HeldSome(s.channel, i, WaitingRef, r);
    if key in s.m.bps {
      assert Single(program, s, r) && Single(program, s, s.m.bps[key]);
    }
  }

  lemma {:induction false} ReceiveHolders(program: iset<Script>, s: State, i: nat, r: Ref)
    requires Inv(program, s) && Enabled(program, s, Receive(i))
    ensures Holders(Apply(program, s, Receive(i)), r) <= Holders(s, r)
  {
    HeldWithout(s.channel, i, WaitingRef, r);
    var q := s.channel[i].ref;
    assert InMap(Received(s.m, q), r) <= InMap(s.m, r) + if r == q then 1 else 0;
  }

  lemma {:induction false} ReceiveStaysSingle(program: iset<Script>, s: State, i: nat)
    requires Inv(program, s) && Enabled(program, s, Receive(i))
    ensures AllSingle(program, Apply(program, s, Receive(i)))
  {
    var t := Apply(program, s, Receive(i));
    forall r
      ensures Single(program, t, r)
    {
      assert Single(program, s, r) && Single(program, s, s.channel[i].ref);
      ReceiveHolders(program, s, i, r);
    }
  }

  lemma {:induction false} ReceiveValues(program: iset<Script>, s: State, i: nat)
    requires Inv(program, s) && Enabled(program, s, Receive(i))
    ensures Follows(Values(s), Values(Apply(program, s, Receive(i))), Some(Gathering.Receive(i)))
  {
    var r, v := s.channel[i].ref, Values(s);
    var m', key := Received(s.m, r), Key(s.m.objs[r].dest);
    ReceivesAlone(program, s, i);
    ChannelWithout(m'.objs, s.channel, i);
    if key in s.m.bps {
      var k := s.m.bps[key];
      if s.m.objs[r].points == [] {
        assert s.m.objs[k].points + [] == s.m.objs[k].points;
        assert m'.objs == s.m.objs;
      } else {
        Unaffected(s.m.objs, k, m'.objs[k], s.channel, s.senders);
      }
    }
    assert MapValues(m'.objs, m'.bps) == Gathering.Aggregated(v.bps, v.channel[i]);
  }

  lemma {:induction false} ReceiveKeeps(program: iset<Script>, s: State, i: nat)
    requires Inv(program, s) && Enabled(program, s, Receive(i))
    ensures Inv(program, Apply(program, s, Receive(i)))
  {
    var r := s.channel[i].ref;
    var key := Key(s.m.objs[r].dest);
    ReceivesAlone(program, s, i);
    ReceiveStaysSingle(program, s, i);
    if key in s.m.bps {
      var k := s.m.bps[key];
      assert s.m.objs[r].points == [] ==> s.m.objs[k].points + s.m.objs[r].points == s.m.objs[k].points;
      ProducersKept(program, s.m.objs, k, s.m.objs[k].points + s.m.objs[r].points, s.producers);
    }
  }

  /** The step on values, unless there is none. */
  ghost function Shadow(program: iset<Script>, s: State, step: Step): Option<Gathering.Step>
    requires Wellformed(s) && Enabled(program, s, step)
  {
    match step
    case Begin(_, _) => None
    case Send(g) =>
      var p := s.producers[g];
      Some(Gathering.Produce(Batch(p.script.dest, p.script.sends[p.sent])))
    case Receive(i) => Some(Gathering.Receive(i))
    case Publish(key) => Some(Gathering.Publish(key))
    case ConnectionFails(i) => Some(Gathering.ConnectionFails(i))
    case Connected(_) => None
    case WriteChunk(i, size, ok, _) => Some(Gathering.WriteChunk(i, size, ok))
    case Sent(i) => Some(Gathering.Sent(i))
  }

  /** In a safe program the objects may be taken for values: every step is one on values, or none. */
  lemma {:induction false} StepRefines(program: iset<Script>, s: State, step: Step)
    requires Safe(program) && Inv(program, s) && Enabled(program, s, step)
    ensures var t := Apply(program, s, step); Inv(program, t) && Follows(Values(s), Values(t), Shadow(program, s, step))
  {
    match step
    case Begin(script, ref) => BeginKeeps(program, s, script, ref);
    case Send(g) =>
      SendKeeps(program, s, g);
      SendValues(program, s, g);
    case Receive(i) =>
      ReceiveKeeps(program, s, i);
      ReceiveValues(program, s, i);
    case Publish(key) => PublishKeeps(program, s, key);
    case ConnectionFails(i) => FailureKeeps(program, s, i);
    case Connected(i) => ConnectedKeeps(program, s, i);
    case WriteChunk(i, size, ok, ref) => if ok { WrittenKeeps(program, s, i, size, ref); } else { UnwrittenKeeps(program, s, i, size, ref); }
    case Sent(i) => SentKeeps(program, s, i);
  }

  // ---------- Runs ----------

  ghost predicate CanRun(program: iset<Script>, s: State, steps: seq<Step>)
    requires Wellformed(s)
    decreases |steps|
  {
    steps == [] || (Enabled(program, s, steps[0]) && CanRun(program, Apply(program, s, steps[0]), steps[1..]))
  }

  ghost function AfterRun(program: iset<Script>, s: State, steps: seq<Step>): (t: State)
    requires Wellformed(s) && CanRun(program, s, steps)
    ensures Wellformed(t)
    decreases |steps|
  {
    if steps == [] then s else AfterRun(program, Apply(program, s, steps[0]), steps[1..])
  }

  /** Every batch has one of the destinations, and those of the map are under their keys. */
  ghost predicate For(dests: set<Dest>, s: State) {
    Gathering.Placed(Values(s), dests) && forall g | 0 <= g < |s.producers| :: s.producers[g].script.dest in dests
  }

  ghost predicate ScriptsFor(program: iset<Script>, dests: set<Dest>) {
    forall c | c in program :: c.dest in dests
  }

  ghost predicate BeginsFor(steps: seq<Step>, dests: set<Dest>) {
    forall i | 0 <= i < |steps| && steps[i].Begin? :: steps[i].script.dest in dests
  }

  lemma {:induction false} FollowingConserves(v: Gathering.State, t: Gathering.State, shadow: Option<Gathering.Step>, dests: set<Dest>, x: Item)
    requires Follows(v, t, shadow) && Gathering.Placed(v, dests) && Gathering.Conserved(v, x) && Gathering.Kept(x, dests)
    requires shadow.Some? && shadow.value.Produce? ==> shadow.value.b.dest in dests
    ensures Gathering.Placed(t, dests) && Gathering.Conserved(t, x)
  {
    if shadow.Some? {
      Gathering.StepKeepsPlaced(v, shadow.value, dests);
      Gathering.StepConserves(v, shadow.value, dests, x);
    }
  }

  lemma {:induction false} ProducersStay(program: iset<Script>, s: State, step: Step, dests: set<Dest>)
    requires Wellformed(s) && Enabled(program, s, step)
    requires forall g | 0 <= g < |s.producers| :: s.producers[g].script.dest in dests
    requires step.Begin? ==> step.script.dest in dests
    ensures forall g | 0 <= g < |Apply(program, s, step).producers| :: Apply(program, s, step).producers[g].script.dest in dests
  {
  }

  lemma {:induction false} StepKeepsPlace(program: iset<Script>, s: State, step: Step, dests: set<Dest>, x: Item)
    requires Safe(program) && Inv(program, s) && Enabled(program, s, step)
    requires For(dests, s) && Conserved(s, x) && Gathering.Kept(x, dests) && (step.Begin? ==> step.script.dest in dests)
    ensures var t := Apply(program, s, step); For(dests, t) && Conserved(t, x)
  {
    StepRefines(program, s, step);
    ProducersStay(program, s, step, dests);
    FollowingConserves(Values(s), Values(Apply(program, s, step)), Shadow(program, s, step), dests, x);
  }

  lemma {:induction false} RunConserves(program: iset<Script>, s: State, steps: seq<Step>, dests: set<Dest>, x: Item)
    requires Safe(program) && Inv(program, s) && CanRun(program, s, steps)
    requires For(dests, s) && Conserved(s, x) && Gathering.Kept(x, dests) && BeginsFor(steps, dests)
    ensures var t := AfterRun(program, s, steps); Inv(program, t) && For(dests, t) && Conserved(t, x)
    decreases |steps|
  {
    if steps != [] {
      assert steps[0].Begin? ==> steps[0].script.dest in dests;
      StepRefines(program, s, steps[0]);
      StepKeepsPlace(program, s, steps[0], dests, x);
      assert BeginsFor(steps[1..], dests) by {
        assert forall i | 0 <= i < |steps[1..]| :: steps[1..][i] == steps[i + 1];
      }
      RunConserves(program, Apply(program, s, steps[0]), steps[1..], dests, x);
    }
  }

  lemma {:induction false} Starts(program: iset<Script>, dests: set<Dest>, x: Item)
    ensures Inv(program, INITIAL) && For(dests, INITIAL) && Conserved(INITIAL, x)
  {
    assert Values(INITIAL) == Gathering.State(map[], [], [], [], []);
    assert Gathering.Counts(map[], x) == map[];
  }

  /** In every interleaving of producers, the main loop and senders that retry, no point is lost and none doubled, as
      long as the program is safe. */
  lemma {:induction false} PointsAreConserved(program: iset<Script>, steps: seq<Step>, p: Point)
    requires Safe(program) && CanRun(program, INITIAL, steps)
    ensures Conserved(AfterRun(program, INITIAL, steps), Anywhere(p))
  {
    var dests := set i | 0 <= i < |steps| && steps[i].Begin? :: steps[i].script.dest;
    Starts(program, dests, Anywhere(p));
    RunConserves(program, INITIAL, steps, dests, Anywhere(p));
  }

  /** And each point keeps its destination, as long as the destinations have different keys. */
  lemma {:induction false} DestinationsAreKept(program: iset<Script>, steps: seq<Step>, dests: set<Dest>, d: Dest, p: Point)
    requires Safe(program) && CanRun(program, INITIAL, steps) && BeginsFor(steps, dests) && KeysDiffer(dests)
    ensures Conserved(AfterRun(program, INITIAL, steps), At(d, p))
  {
    Starts(program, dests, At(d, p));
    RunConserves(program, INITIAL, steps, dests, At(d, p));
  }

  // ---------- Programs that are not safe ----------

  lemma {:induction false} OneMore(program: iset<Script>, s: State, steps: seq<Step>, step: Step)
    requires Wellformed(s) && CanRun(program, s, steps) && Enabled(program, AfterRun(program, s, steps), step)
    ensures CanRun(program, s, steps + [step])
    ensures AfterRun(program, s, steps + [step]) == Apply(program, AfterRun(program, s, steps), step)
    decreases |steps|
  {
    if steps == [] {
      assert [] + [step] == [step];
    } else {
      assert (steps + [step])[1..] == steps[1..] + [step];
      OneMore(program, Apply(program, s, steps[0]), steps[1..], step);
    }
  }

  ghost predicate Reachable(program: iset<Script>, s: State) {
    exists steps :: CanRun(program, INITIAL, steps) && AfterRun(program, INITIAL, steps) == s
  }

  lemma {:induction false} ReachedFirst(program: iset<Script>)
    ensures Reachable(program, INITIAL)
  {
    assert CanRun(program, INITIAL, []) && AfterRun(program, INITIAL, []) == INITIAL;
  }

  lemma {:induction false} ReachedNext(program: iset<Script>, s: State, step: Step)
    requires Wellformed(s) && Reachable(program, s) && Enabled(program, s, step)
    ensures Reachable(program, Apply(program, s, step))
  {
    var steps :| CanRun(program, INITIAL, steps) && AfterRun(program, INITIAL, steps) == s;
    OneMore(program, INITIAL, steps, step);
  }

  /** What the object of a script holds after so many sends, each of which is received before the next one, with
      nothing published: each but the first one doubles it. */
  function Doubling(c: Script, n: nat): seq<Point>
    requires n <= |c.sends|
  {
    if n == 0 then []
    else
      var points := Doubling(c, n - 1) + c.sends[n - 1];
      if n == 1 then points else points + points
  }

  function Produced(c: Script, n: nat): seq<Batch>
    requires n <= |c.sends|
  {
    if n == 0 then [] else Produced(c, n - 1) + [Batch(c.dest, c.sends[n - 1])]
  }

  function Rounds(c: Script, n: nat): State
    requires n <= |c.sends|
  {
    State(Memory(map[0 := Batch(c.dest, Doubling(c, n))], if n == 0 then map[] else map[Key(c.dest) := 0]),
          [Producer(c, 0, n)], [], [], [], Produced(c, n))
  }

  /** A send that is received at once. */
  ghost function SentAndReceived(s: State, g: nat): State
    requires Wellformed(s) && g < |s.producers| && s.producers[g].sent < |s.producers[g].script.sends|
  {
    var p := s.producers[g];
    State(Received(Adding(s, g), p.ref), s.producers[g := p.(sent := p.sent + 1)], [], s.senders, s.written,
          s.produced + [Batch(p.script.dest, p.script.sends[p.sent])])
  }

  lemma {:induction false} SendAndReceive(program: iset<Script>, s: State, g: nat)
    requires Wellformed(s) && Reachable(program, s) && s.channel == []
    requires g < |s.producers| && s.producers[g].sent < |s.producers[g].script.sends|
    ensures Reachable(program, SentAndReceived(s, g))
  {
    assert Enabled(program, s, Send(g));
    var t := Apply(program, s, Send(g));
    ReachedNext(program, s, Send(g));
    ReachedNext(program, t, Receive(0));
    ThenReceived(program, s, g);
  }

  lemma {:induction false} ThenReceived(program: iset<Script>, s: State, g: nat)
    requires Wellformed(s) && s.channel == [] && Enabled(program, s, Send(g))
    ensures var t := Apply(program, s, Send(g)); Enabled(program, t, Receive(0)) && Apply(program, t, Receive(0)) == SentAndReceived(s, g)
  {
    var t := Apply(program, s, Send(g));
    assert t.channel == [Waiting(s.producers[g].ref, Some(g))] && Without(t.channel, 0) == [];
  }

  lemma {:induction false} RoundsAreReached(program: iset<Script>, c: Script, n: nat)
    requires c in program && n <= |c.sends|
    ensures Reachable(program, Rounds(c, n))
  {
    if n == 0 {
      ReachedFirst(program);
      ReachedNext(program, INITIAL, Begin(c, 0));
      assert Apply(program, INITIAL, Begin(c, 0)) == Rounds(c, 0);
    } else {
      RoundsAreReached(program, c, n - 1);
      SendAndReceive(program, Rounds(c, n - 1), 0);
      RoundStep(c, n - 1);
    }
  }

  lemma {:induction false} RoundStep(c: Script, n: nat)
    requires n < |c.sends|
    ensures SentAndReceived(Rounds(c, n), 0) == Rounds(c, n + 1)
  {
    var s, points := Rounds(c, n), Doubling(c, n) + c.sends[n];
    assert Adding(s, 0) == Memory(map[0 := Batch(c.dest, points)], s.m.bps);
    assert Received(Adding(s, 0), 0) == Rounds(c, n + 1).m;
  }

  /** The item counts the points of the destination. */
  predicate Counts(x: Item, d: Dest) {
    x.At? ==> x.dest == d
  }

  function Times(points: seq<Point>, p: Point): nat {
    multiset(points)[p]
  }

  lemma {:induction false} TimesOfBoth(a: seq<Point>, b: seq<Point>, p: Point)
    ensures Times(a + b, p) == Times(a, p) + Times(b, p)
  {
  }

  /** How often a point is there after so many sends, and how often it was produced. */
  function Kept(c: Script, n: nat, p: Point): nat
    requires n <= |c.sends|
  {
    if n == 0 then 0
    else
      var points := Kept(c, n - 1, p) + Times(c.sends[n - 1], p);
      if n == 1 then points else 2 * points
  }

  function Made(c: Script, n: nat, p: Point): nat
    requires n <= |c.sends|
  {
    if n == 0 then 0 else Made(c, n - 1, p) + Times(c.sends[n - 1], p)
  }

  lemma {:induction false} KeptIs(c: Script, n: nat, p: Point)
    requires n <= |c.sends|
    ensures Times(Doubling(c, n), p) == Kept(c, n, p)
  {
    if n > 0 {
      KeptIs(c, n - 1, p);
      var points := Doubling(c, n - 1) + c.sends[n - 1];
      TimesOfBoth(Doubling(c, n - 1), c.sends[n - 1], p);
      TimesOfBoth(points, points, p);
    }
  }

  lemma {:induction false} MadeIs(c: Script, n: nat, x: Item)
    requires n <= |c.sends| && Counts(x, c.dest)
    ensures CountAll(Produced(c, n), x) == Made(c, n, x.point)
  {
    if n > 0 {
      MadeIs(c, n - 1, x);
      CountMore(Produced(c, n - 1), Batch(c.dest, c.sends[n - 1]), x);
    }
  }

  /** There are at least as many as were produced, and more after a second send. */
  lemma {:induction false} DoublingGrows(c: Script, n: nat, p: Point)
    requires n <= |c.sends|
    ensures Kept(c, n, p) >= Made(c, n, p) && (n >= 2 && Made(c, n, p) > 0 ==> Kept(c, n, p) > Made(c, n, p))
    ensures forall k | 0 <= k < n && p in c.sends[k] :: Made(c, n, p) > 0
  {
    if n > 0 {
      DoublingGrows(c, n - 1, p);
    }
  }

  /** When all there is is in one object, in the map. */
  lemma {:induction false} EverythingInMap(key: string, b: Batch, produced: seq<Batch>, x: Item)
    ensures Gathering.Everywhere(Gathering.State(map[key := b], [], [], [], produced), x) == Count(b, x)
  {
    var bps := map[key := b];
    Gathering.RemovedConserves(bps, key, x);
    assert bps - {key} == map[] && Gathering.Counts(map[], x) == map[];
  }

  /** A script with a point that sends its object twice doubles it. */
  lemma {:induction false} ResendingDoubles(program: iset<Script>, c: Script, x: Item) returns (s: State)
    requires c in program && |c.sends| >= 2 && Counts(x, c.dest)
    requires exists k :: 0 <= k < |c.sends| && x.point in c.sends[k]
    ensures Reachable(program, s) && Gathering.Everywhere(Values(s), x) > CountAll(s.produced, x)
  {
    var n := |c.sends|;
    s := Rounds(c, n);
    RoundsAreReached(program, c, n);
    DoublingGrows(c, n, x.point);
    KeptIs(c, n, x.point);
    MadeIs(c, n, x);
    RoundValues(c, n, x);
  }

  lemma {:induction false} RoundValues(c: Script, n: nat, x: Item)
    requires 0 < n <= |c.sends| && Counts(x, c.dest)
    ensures Gathering.Everywhere(Values(Rounds(c, n)), x) == Times(Doubling(c, n), x.point)
  {
    var b := Batch(c.dest, Doubling(c, n));
    assert Values(Rounds(c, n)) == Gathering.State(map[Key(c.dest) := b], [], [], [], Produced(c, n));
    EverythingInMap(Key(c.dest), b, Produced(c, n), x);
  }

  /** Two scripts of one key have sent once each. */
  function BothSent(a: Script, b: Script): State
    requires a.sends != [] && b.sends != []
  {
    State(Memory(map[0 := Batch(a.dest, a.sends[0] + b.sends[0]), 1 := Batch(b.dest, b.sends[0])], map[Key(a.dest) := 0]),
          [Producer(a, 0, 1), Producer(b, 1, 1)], [], [], [], [Batch(a.dest, a.sends[0]), Batch(b.dest, b.sends[0])])
  }

  function BothBegun(a: Script, b: Script): State {
    State(Memory(map[0 := Batch(a.dest, []), 1 := Batch(b.dest, [])], map[]), [Producer(a, 0, 0), Producer(b, 1, 0)], [], [], [], [])
  }

  function OneSent(a: Script, b: Script): State
    requires a.sends != []
  {
    State(Memory(map[0 := Batch(a.dest, a.sends[0]), 1 := Batch(b.dest, [])], map[Key(a.dest) := 0]),
          [Producer(a, 0, 1), Producer(b, 1, 0)], [], [], [], [Batch(a.dest, a.sends[0])])
  }

  lemma {:induction false} BothBegunIsReached(program: iset<Script>, a: Script, b: Script)
    requires a in program && b in program
    ensures Reachable(program, BothBegun(a, b))
  {
    ReachedFirst(program);
    ReachedNext(program, INITIAL, Begin(a, 0));
    var s := Apply(program, INITIAL, Begin(a, 0));
    ReachedNext(program, s, Begin(b, 1));
    assert Apply(program, s, Begin(b, 1)) == BothBegun(a, b);
  }

  lemma {:induction false} OneSentIsReached(program: iset<Script>, a: Script, b: Script)
    requires a in program && b in program && a.sends != []
    ensures Reachable(program, OneSent(a, b))
  {
    BothBegunIsReached(program, a, b);
    var s := BothBegun(a, b);
    SendAndReceive(program, s, 0);
    assert [] + a.sends[0] == a.sends[0];
    assert Adding(s, 0) == Memory(map[0 := Batch(a.dest, a.sends[0]), 1 := Batch(b.dest, [])], map[]);
    assert SentAndReceived(s, 0) == OneSent(a, b);
  }

  lemma {:induction false} BothSentIsReached(program: iset<Script>, a: Script, b: Script)
    requires a in program && b in program && a.sends != [] && b.sends != [] && Key(a.dest) == Key(b.dest)
    ensures Reachable(program, BothSent(a, b))
  {
    OneSentIsReached(program, a, b);
    var s := OneSent(a, b);
    SendAndReceive(program, s, 1);
    assert [] + b.sends[0] == b.sends[0];
    assert Adding(s, 1) == Memory(map[0 := Batch(a.dest, a.sends[0]), 1 := Batch(b.dest, b.sends[0])], s.m.bps);
    assert SentAndReceived(s, 1) == BothSent(a, b);
  }

  /** A script that sends its object twice doubles what another one has added to it by then, even if it has no point
      itself. */
  lemma {:induction false} ResendingDoublesOthers(program: iset<Script>, a: Script, b: Script, x: Item) returns (s: State)
    requires a in program && b in program && |a.sends| >= 2 && b.sends != [] && Key(a.dest) == Key(b.dest)
    requires Counts(x, a.dest) && Counts(x, b.dest) && x.point in b.sends[0]
    ensures Reachable(program, s) && Gathering.Everywhere(Values(s), x) > CountAll(s.produced, x)
  {
    BothSentIsReached(program, a, b);
    SendAndReceive(program, BothSent(a, b), 0);
    s := SentAndReceived(BothSent(a, b), 0);
    var points := ThreeSent(a, b);
    var held := Batch(a.dest, points + points);
    assert Values(s) == Gathering.State(map[Key(a.dest) := held], [], [], [], s.produced);
    EverythingInMap(Key(a.dest), held, s.produced, x);
    ThreeCount(a, b, x);
  }

  lemma {:induction false} ThreeSent(a: Script, b: Script) returns (points: seq<Point>)
    requires |a.sends| >= 2 && b.sends != [] && Key(a.dest) == Key(b.dest)
    ensures points == a.sends[0] + b.sends[0] + a.sends[1]
    ensures var s := SentAndReceived(BothSent(a, b), 0);
      && s.m == Memory(map[0 := Batch(a.dest, points + points), 1 := Batch(b.dest, b.sends[0])], map[Key(a.dest) := 0])
      && s.channel == [] && s.senders == [] && s.written == []
      && s.produced == [Batch(a.dest, a.sends[0]), Batch(b.dest, b.sends[0]), Batch(a.dest, a.sends[1])]
  {
    points := a.sends[0] + b.sends[0] + a.sends[1];
    assert Adding(BothSent(a, b), 0) == Memory(map[0 := Batch(a.dest, points), 1 := Batch(b.dest, b.sends[0])], map[Key(a.dest) := 0]);
  }

  lemma {:induction false} ThreeCount(a: Script, b: Script, x: Item)
    requires |a.sends| >= 2 && b.sends != [] && Counts(x, a.dest) && Counts(x, b.dest) && x.point in b.sends[0]
    ensures var points := a.sends[0] + b.sends[0] + a.sends[1];
      Count(Batch(a.dest, points + points), x)
        > CountAll([Batch(a.dest, a.sends[0]), Batch(b.dest, b.sends[0]), Batch(a.dest, a.sends[1])], x)
  {
    var points, p := a.sends[0] + b.sends[0] + a.sends[1], x.point;
    CountThree(Batch(a.dest, a.sends[0]), Batch(b.dest, b.sends[0]), Batch(a.dest, a.sends[1]), x);
    TimesOfBoth(points, points, p);
    TimesOfBoth(a.sends[0] + b.sends[0], a.sends[1], p);
    TimesOfBoth(a.sends[0], b.sends[0], p);
  }

  lemma {:induction false} CountThree(a: Batch, b: Batch, c: Batch, x: Item)
    ensures CountAll([a, b, c], x) == Count(a, x) + Count(b, x) + Count(c, x) && CountAll([a, b], x) == Count(a, x) + Count(b, x)
  {
    CountMore([], a, x);
    CountMore([a], b, x);
    CountMore([a, b], c, x);
    assert [] + [a] == [a] && [a] + [b] == [a, b] && [a, b] + [c] == [a, b, c];
  }

  lemma {:induction false} UnsafeDoubles(program: iset<Script>, a: Script, b: Script, x: Item) returns (s: State)
    requires a in program && b in program && |a.sends| >= 2 && Key(a.dest) == Key(b.dest)
    requires Counts(x, a.dest) && Counts(x, b.dest) && exists k :: 0 <= k < |b.sends| && x.point in b.sends[k]
    ensures Reachable(program, s) && !Conserved(s, x)
  {
    if |b.sends| >= 2 {
      s := ResendingDoubles(program, b, x);
    } else {
      s := ResendingDoublesOthers(program, a, b, x);
    }
  }

  /** So all runs conserve every point iff no batch object with the key of any point is ever sent twice. */
  lemma {:induction false} ConservedIffSafe(program: iset<Script>)
    ensures (forall s, p | Reachable(program, s) :: Conserved(s, Anywhere(p))) <==> Safe(program)
  {
    if Safe(program) {
      forall s, p | Reachable(program, s)
        ensures Conserved(s, Anywhere(p))
      {
        var steps :| CanRun(program, INITIAL, steps) && AfterRun(program, INITIAL, steps) == s;
        PointsAreConserved(program, steps, p);
      }
    } else {
      var a :| a in program && |a.sends| >= 2 && !Barren(program, Key(a.dest));
      var b :| b in program && Key(b.dest) == Key(a.dest) && !Pointless(b);
      var k :| 0 <= k < |b.sends| && b.sends[k] != [];
      var s := UnsafeDoubles(program, a, b, Anywhere(b.sends[k][0]));
    }
  }

  // ---------- The scripts of the program ----------

  /** What the program does with a batch. The daily summary puts the answers to two queries into one object, and sends
      it after each: after the first one unless that was an error, and after the second one if it has any series. */
  datatype Work =
    | CacheStats(policy: string, points: seq<Point>)
    | DsStats(policy: string, points: seq<Point>)
    | DailySummary(policy: string, maxGbps: Option<seq<Point>>, bytesServed: Option<seq<Point>>)

  function SentIf(answer: Option<seq<Point>>): seq<seq<Point>> {
    if answer.Some? then [answer.value] else []
  }

  function ScriptOf(w: Work): Script {
    match w
    case CacheStats(policy, points) => Script(Dest("cache_stats", policy), [points])
    case DsStats(policy, points) => Script(Dest("deliveryservice_stats", policy), [points])
    case DailySummary(policy, maxGbps, bytesServed) => Script(Dest("daily_stats", policy), SentIf(maxGbps) + SentIf(bytesServed))
  }

  ghost function ScriptsOf(works: iset<Work>): iset<Script> {
    iset w | w in works :: ScriptOf(w)
  }

  predicate SentTwice(w: Work) {
    w.DailySummary? && w.maxGbps.Some? && w.bytesServed.Some?
  }

  /** No daily summary has an answer to both queries, unless those of its policy have no points at all. */
  ghost predicate SummariesOnce(works: iset<Work>) {
    forall v, w | v in works && w in works && SentTwice(v) && w.DailySummary? && w.policy == v.policy :: Pointless(ScriptOf(w))
  }

  lemma {:induction false} SameKeySamePolicy(v: Work, w: Work)
    requires v.DailySummary? && Key(ScriptOf(v).dest) == Key(ScriptOf(w).dest)
    ensures w.DailySummary? && w.policy == v.policy
  {
    OwnKeysDiffer({ScriptOf(v).dest, ScriptOf(w).dest});
  }

  lemma {:induction false} OnceIsSafe(works: iset<Work>)
    requires SummariesOnce(works)
    ensures Safe(ScriptsOf(works))
  {
    forall c, d | c in ScriptsOf(works) && d in ScriptsOf(works) && |c.sends| >= 2 && Key(c.dest) == Key(d.dest)
      ensures Pointless(d)
    {
      var v :| v in works && c == ScriptOf(v);
      var w :| w in works && d == ScriptOf(w);
      SameKeySamePolicy(v, w);
    }
  }

  /** Each point of the program keeps its destination, in all interleavings and under all configurations, iff no daily
      summary sends its object twice. */
  lemma {:induction false} OwnDestinationsAreKeptIff(works: iset<Work>)
    ensures (forall s, d, p | Reachable(ScriptsOf(works), s) :: Conserved(s, At(d, p))) <==> SummariesOnce(works)
  {
    var program := ScriptsOf(works);
    if SummariesOnce(works) {
      OnceIsSafe(works);
      forall s, d, p | Reachable(program, s)
        ensures Conserved(s, At(d, p))
      {
        var steps :| CanRun(program, INITIAL, steps) && AfterRun(program, INITIAL, steps) == s;
        OwnDestinationsAreKept(works, steps, d, p);
      }
    } else {
      var v, w :| v in works && w in works && SentTwice(v) && w.DailySummary? && w.policy == v.policy && !Pointless(ScriptOf(w));
      var a, b := ScriptOf(v), ScriptOf(w);
      var k :| 0 <= k < |b.sends| && b.sends[k] != [];
      var s := UnsafeDoubles(program, a, b, At(a.dest, b.sends[k][0]));
    }
  }

  lemma {:induction false} OwnDestinationsAreKept(works: iset<Work>, steps: seq<Step>, d: Dest, p: Point)
    requires SummariesOnce(works) && CanRun(ScriptsOf(works), INITIAL, steps)
    ensures Conserved(AfterRun(ScriptsOf(works), INITIAL, steps), At(d, p))
  {
    OnceIsSafe(works);
    var dests := set i | 0 <= i < |steps| && steps[i].Begin? :: steps[i].script.dest;
    RunBegins(ScriptsOf(works), INITIAL, steps);
    OwnKeysDiffer(dests);
    DestinationsAreKept(ScriptsOf(works), steps, dests, d, p);
  }

  lemma {:induction false} RunBegins(program: iset<Script>, s: State, steps: seq<Step>)
    requires Wellformed(s) && CanRun(program, s, steps)
    ensures forall i | 0 <= i < |steps| && steps[i].Begin? :: steps[i].script in program
    decreases |steps|
  {
    if steps != [] {
      RunBegins(program, Apply(program, s, steps[0]), steps[1..]);
      assert forall i | 1 <= i < |steps| :: steps[i] == steps[1..][i - 1];
    }
  }

  /** A daily summary with answers to both queries, all of it received before the next publication: every point of the
      day is there twice. */
  lemma {:induction false} DailySummaryDoubles(policy: string, gbps: seq<Point>, served: seq<Point>) returns (s: State)
    ensures Reachable(ScriptsOf(iset{DailySummary(policy, Some(gbps), Some(served))}), s)
    ensures s.produced == [Batch(Dest("daily_stats", policy), gbps), Batch(Dest("daily_stats", policy), served)]
    ensures Values(s) == Gathering.State(
      map["daily_stats" + policy := Batch(Dest("daily_stats", policy), (gbps + served) + (gbps + served))], [], [], [], s.produced)
  {
    var w := DailySummary(policy, Some(gbps), Some(served));
    var c := ScriptOf(w);
    assert w in iset{w} && c in ScriptsOf(iset{w});
    RoundsAreReached(ScriptsOf(iset{w}), c, 2);
    s := Rounds(c, 2);
    assert c.sends == [gbps, served];
    assert Doubling(c, 1) == [] + gbps == gbps;
    assert Doubling(c, 2) == (gbps + served) + (gbps + served);
    assert Produced(c, 1) == [] + [Batch(c.dest, gbps)] == [Batch(c.dest, gbps)];
    assert Produced(c, 2) == Produced(c, 1) + [Batch(c.dest, served)];
  }

  // ---------- Keys ----------

  /** Producers that send each of their objects once. */
  ghost predicate SendOnce(program: iset<Script>) {
    forall c | c in program :: |c.sends| <= 1
  }

  ghost function Pair(d: Dest, e: Dest, p: Point): iset<Script> {
    iset{Script(d, [[p]]), Script(e, [[p]])}
  }

  /** The key does not tell where the database ends: of two destinations with the same key, a point of one of them may
      be kept for the other. */
  lemma {:induction false} SameKeyMisplaces(d: Dest, e: Dest, p: Point) returns (s: State)
    requires d != e && Key(d) == Key(e)
    ensures Reachable(Pair(d, e, p), s)
    ensures Gathering.Everywhere(Values(s), At(e, p)) == 0 && CountAll(s.produced, At(e, p)) == 1
  {
    var a, b := Script(d, [[p]]), Script(e, [[p]]);
    BothSentIsReached(Pair(d, e, p), a, b);
    s := BothSent(a, b);
    assert Values(s) == Gathering.State(map[Key(d) := Batch(d, [p] + [p])], [], [], [], s.produced);
    EverythingInMap(Key(d), Batch(d, [p] + [p]), s.produced, At(e, p));
    CountThree(Batch(d, [p]), Batch(e, [p]), Batch(e, [p]), At(e, p));
  }

  ghost predicate KeepsDestinations(program: iset<Script>) {
    forall s, d, p | Reachable(program, s) :: Conserved(s, At(d, p))
  }

  /** Whatever is sent once each for some destinations keeps its destination iff their keys differ. */
  lemma {:induction false} KeptIffKeysDiffer(dests: set<Dest>, p: Point)
    ensures KeysDiffer(dests) <==> forall program | SendOnce(program) && ScriptsFor(program, dests) :: KeepsDestinations(program)
  {
    if KeysDiffer(dests) {
      forall program, s, d, q | SendOnce(program) && ScriptsFor(program, dests) && Reachable(program, s)
        ensures Conserved(s, At(d, q))
      {
        var steps :| CanRun(program, INITIAL, steps) && AfterRun(program, INITIAL, steps) == s;
        RunBegins(program, INITIAL, steps);
        DestinationsAreKept(program, steps, dests, d, q);
      }
    } else {
      var d, e :| d in dests && e in dests && Key(d) == Key(e) && d != e;
      var s := SameKeyMisplaces(d, e, p);
      assert !Conserved(s, At(e, p));
      assert SendOnce(Pair(d, e, p)) && ScriptsFor(Pair(d, e, p), dests) && !KeepsDestinations(Pair(d, e, p));
    }
  }
}
