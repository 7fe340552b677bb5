/** The polls on their way through poller, fetcher, handler and manager, in every interleaving
    (`traffic_monitor/poller/poller.go`, `traffic_monitor/manager/health.go`, `.../stat.go`, `.../peer.go`). */
module Pipeline {
  import opened Core

  /** A poll, with the poller that waits for its end. */
  datatype Poll = Poll(id: nat, poller: nat)

  datatype Mode = Ticking | Waiting(id: nat) | Dead

  /** A poller goroutine. Once killed, it dies at some select that follows: not while it waits. */
  datatype Poller = Poller(cache: CacheName, killed: bool, mode: Mode)

  /** The manager gathers results; then it processes them and tells the poller of each that its poll is
      finished, in order. */
  datatype Manager = Collecting(results: seq<Poll>) | Finishing(results: seq<Poll>, sent: nat)

  /** `issued` holds the poller of each poll so far; poll ids start at 1. The result channel has no buffer,
      so that results wait in their `sending` fetch goroutines. The last three fields are histories. */
  datatype State = State(
    issued: seq<nat>,
    pollers: map<nat, Poller>,
    fetching: set<Poll>,
    sending: set<Poll>,
    manager: Manager,
    received: seq<Poll>,
    batches: seq<seq<Poll>>,
    finished: seq<Poll>)

  datatype Step =
    | Start(p: nat, cache: CacheName)
    | Kill(p: nat)
    | Die(p: nat)
    | Tick(p: nat)
    | Fetched(poll: Poll)
    | Receive(poll: Poll)
    | Process
    | Finish
    | Next

  ghost predicate Enabled(s: State, step: Step) {
    match step
    case Start(p, _) => p !in s.pollers
    case Kill(p) => p in s.pollers
    case Die(p) => p in s.pollers && s.pollers[p].killed && s.pollers[p].mode == Ticking
    case Tick(p) => p in s.pollers && s.pollers[p].mode == Ticking
    case Fetched(poll) => poll in s.fetching
    case Receive(poll) => s.manager.Collecting? && poll in s.sending
    case Process => s.manager.Collecting? && s.manager.results != []
    case Finish => s.manager.Finishing? && s.manager.sent < |s.manager.results| && Ready(s, s.manager.results[s.manager.sent])
    case Next => s.manager.Finishing? && s.manager.sent >= |s.manager.results|
  }

  /** The poller of the poll is there to be told that it is finished. */
  ghost predicate Ready(s: State, poll: Poll) {
    poll.poller in s.pollers && s.pollers[poll.poller].mode == Waiting(poll.id)
  }

  ghost function SetMode(s: State, p: nat, mode: Mode): map<nat, Poller>
    requires p in s.pollers
  {
    s.pollers[p := s.pollers[p].(mode := mode)]
  }

  ghost function Apply(s: State, step: Step): State
    requires Enabled(s, step)
  {
    match step
    case Start(p, cache) => s.(pollers := s.pollers[p := Poller(cache, false, Ticking)])
    case Kill(p) => s.(pollers := s.pollers[p := s.pollers[p].(killed := true)])
    case Die(p) => s.(pollers := SetMode(s, p, Dead))
    case Tick(p) =>
      var id := |s.issued| + 1;
      s.(issued := s.issued + [p], pollers := SetMode(s, p, Waiting(id)), fetching := s.fetching + {Poll(id, p)})
    case Fetched(poll) => s.(fetching := s.fetching - {poll}, sending := s.sending + {poll})
    case Receive(poll) =>
      s.(sending := s.sending - {poll}, manager := Collecting(s.manager.results + [poll]), received := s.received + [poll])
    case Process => s.(manager := Finishing(s.manager.results, 0), batches := s.batches + [s.manager.results])
    case Finish =>
      var poll := s.manager.results[s.manager.sent];
      s.(pollers := SetMode(s, poll.poller, Ticking), manager := s.manager.(sent := s.manager.sent + 1),
         finished := s.finished + [poll])
    case Next => s.(manager := Collecting([]))
  }

  // ---------- What every step keeps ----------

  ghost predicate Issued(s: State, poll: Poll) {
    1 <= poll.id <= |s.issued| && s.issued[poll.id - 1] == poll.poller
  }

  /** The polls in the batch of the manager that are not finished. */
  ghost function Pending(s: State): seq<Poll> {
    if s.manager.Collecting? then s.manager.results
    else if s.manager.sent <= |s.manager.results| then s.manager.results[s.manager.sent..]
    else []
  }

  ghost function Outstanding(s: State): multiset<Poll> {
    multiset(s.fetching) + multiset(s.sending) + multiset(Pending(s))
  }

  ghost function Flatten(batches: seq<seq<Poll>>): seq<Poll> {
    if batches == [] then [] else Flatten(batches[..|batches| - 1]) + batches[|batches| - 1]
  }

  /** Each poll is in one stage: being fetched, waiting to be received, in the batch, or finished. */
  ghost predicate InOneStage(s: State) {
    forall poll :: Outstanding(s)[poll] + multiset(s.finished)[poll] == if Issued(s, poll) then 1 else 0
  }

  /** A poller waits for a poll iff that poll is outstanding. */
  ghost predicate WaitedFor(s: State) {
    forall poll :: poll in Outstanding(s) <==> Ready(s, poll)
  }

  /** Nothing received is dropped, doubled or reordered by the batches, nor by telling the pollers. */
  ghost predicate InOrder(s: State) {
    && Flatten(s.batches) + (if s.manager.Collecting? then s.manager.results else []) == s.received
    && s.finished + (if s.manager.Finishing? then Pending(s) else []) == Flatten(s.batches)
    && (s.manager.Finishing? ==> s.manager.sent <= |s.manager.results|)
  }

  ghost predicate Inv(s: State) {
    InOneStage(s) && WaitedFor(s) && InOrder(s)
  }

  lemma {:induction false} TickAdds(s: State, p: nat)
    requires InOneStage(s) && Enabled(s, Tick(p))
    ensures var t, added := Apply(s, Tick(p)), Poll(|s.issued| + 1, p);
      Outstanding(t) == Outstanding(s) + multiset{added} && Outstanding(s)[added] == 0
  {
    var t, added := Apply(s, Tick(p)), Poll(|s.issued| + 1, p);
    assert !Issued(s, added);
    assert Pending(t) == Pending(s);
  }

  lemma {:induction false} TickKeepsStages(s: State, p: nat)
    requires Inv(s) && Enabled(s, Tick(p))
    ensures InOneStage(Apply(s, Tick(p)))
  {
    var t, added := Apply(s, Tick(p)), Poll(|s.issued| + 1, p);
    TickAdds(s, p);
    assert !Issued(s, added);
    forall poll
      ensures Issued(t, poll) <==> Issued(s, poll) || poll == added
    {
    }
  }

  lemma {:induction false} TickKeepsInv(s: State, p: nat)
    requires Inv(s) && Enabled(s, Tick(p))
    ensures Inv(Apply(s, Tick(p)))
  {
    var t, added := Apply(s, Tick(p)), Poll(|s.issued| + 1, p);
    TickKeepsStages(s, p);
    TickAdds(s, p);
    forall poll
      ensures Ready(t, poll) <==> Ready(s, poll) || poll == added
    {
    }
    assert Pending(t) == Pending(s);
  }

  /** A step that moves polls between stages, or concerns pollers that do not wait. */
  lemma {:induction false} SameStages(s: State, t: State)
    requires InOneStage(s) && WaitedFor(s)
    requires Outstanding(t) == Outstanding(s) && t.issued == s.issued && t.finished == s.finished
    requires forall poll :: Ready(t, poll) <==> Ready(s, poll)
    ensures InOneStage(t) && WaitedFor(t)
  {
    forall poll
      ensures Issued(t, poll) <==> Issued(s, poll)
    {
    }
  }

  lemma {:induction false} PollerStepKeepsInv(s: State, step: Step)
    requires Inv(s) && Enabled(s, step) && (step.Start? || step.Kill? || step.Die?)
    ensures Inv(Apply(s, step))
  {
    var t := Apply(s, step);
    assert Pending(t) == Pending(s);
    assert Outstanding(t) == Outstanding(s);
    forall poll
      ensures Ready(t, poll) <==> Ready(s, poll)
    {
    }
    SameStages(s, t);
  }

  lemma {:induction false} FetchedMoves(s: State, poll: Poll)
    requires InOneStage(s) && poll in s.fetching
    ensures Outstanding(Apply(s, Fetched(poll))) == Outstanding(s)
  {
    assert Outstanding(s)[poll] <= 1;
  }

  lemma {:induction false} ReceiveMoves(s: State, poll: Poll)
    requires Enabled(s, Receive(poll))
    ensures Outstanding(Apply(s, Receive(poll))) == Outstanding(s)
  {
  }

  lemma {:induction false} FetchedKeepsInv(s: State, poll: Poll)
    requires Inv(s) && Enabled(s, Fetched(poll))
    ensures Inv(Apply(s, Fetched(poll)))
  {
    FetchedMoves(s, poll);
    SameStages(s, Apply(s, Fetched(poll)));
  }

  lemma {:induction false} ReceiveKeepsOrder(s: State, poll: Poll)
    requires InOrder(s) && Enabled(s, Receive(poll))
    ensures InOrder(Apply(s, Receive(poll)))
  {
  }

  lemma {:induction false} ReceiveKeepsInv(s: State, poll: Poll)
    requires Inv(s) && Enabled(s, Receive(poll))
    ensures Inv(Apply(s, Receive(poll)))
  {
    ReceiveMoves(s, poll);
    SameStages(s, Apply(s, Receive(poll)));
    ReceiveKeepsOrder(s, poll);
  }

  lemma {:induction false} ProcessKeepsInv(s: State)
    requires Inv(s) && Enabled(s, Process)
    ensures Inv(Apply(s, Process))
  {
    var t := Apply(s, Process);
    assert Pending(t) == Pending(s);
    SameStages(s, t);
    assert t.batches[..|t.batches| - 1] == s.batches;
  }

  /** Telling the poller of the first pending poll. */
  lemma {:induction false} FinishMoves(s: State)
    requires Inv(s) && Enabled(s, Finish)
    ensures var t, x := Apply(s, Finish), s.manager.results[s.manager.sent];
      Pending(s) == [x] + Pending(t) && Outstanding(s) == Outstanding(t) + multiset{x} && Outstanding(s)[x] == 1
  {
    var t, x := Apply(s, Finish), s.manager.results[s.manager.sent];
    assert Pending(s) == [x] + Pending(t);
    assert Outstanding(s) == Outstanding(t) + multiset{x};
  }

  lemma {:induction false} FinishKeepsStages(s: State)
    requires Inv(s) && Enabled(s, Finish)
    ensures InOneStage(Apply(s, Finish))
  {
    var t := Apply(s, Finish);
    FinishMoves(s);
    forall poll
      ensures Issued(t, poll) <==> Issued(s, poll)
    {
    }
  }

  lemma {:induction false} FinishKeepsWaiting(s: State)
    requires Inv(s) && Enabled(s, Finish)
    ensures WaitedFor(Apply(s, Finish))
  {
    var t, x := Apply(s, Finish), s.manager.results[s.manager.sent];
    FinishMoves(s);
    forall poll
      ensures poll in Outstanding(t) <==> Ready(t, poll)
    {
      assert Ready(t, poll) <==> Ready(s, poll) && poll != x;
    }
  }

  lemma {:induction false} FinishKeepsOrder(s: State)
    requires Inv(s) && Enabled(s, Finish)
    ensures InOrder(Apply(s, Finish))
  {
    var t := Apply(s, Finish);
    FinishMoves(s);
    assert t.finished + Pending(t) == s.finished + Pending(s);
  }

  lemma {:induction false} FinishKeepsInv(s: State)
    requires Inv(s) && Enabled(s, Finish)
    ensures Inv(Apply(s, Finish))
  {
    FinishKeepsStages(s);
    FinishKeepsWaiting(s);
    FinishKeepsOrder(s);
  }

  lemma {:induction false} NextKeepsInv(s: State)
    requires Inv(s) && Enabled(s, Next)
    ensures Inv(Apply(s, Next))
  {
    assert Pending(s) == [];
    SameStages(s, Apply(s, Next));
  }

  lemma {:induction false} StepKeepsInv(s: State, step: Step)
    requires Inv(s) && Enabled(s, step)
    ensures Inv(Apply(s, step))
  {
    match step
    case Tick(p) => TickKeepsInv(s, p);
    case Fetched(poll) => FetchedKeepsInv(s, poll);
    case Receive(poll) => ReceiveKeepsInv(s, poll);
    case Process => ProcessKeepsInv(s);
    case Finish => FinishKeepsInv(s);
    case Next => NextKeepsInv(s);
    case _ => PollerStepKeepsInv(s, step);
  }

  // ---------- Runs ----------

  const INITIAL := State([], map[], {}, {}, Collecting([]), [], [], [])

  ghost predicate CanRun(s: State, steps: seq<Step>)
    decreases |steps|
  {
    steps == [] || (Enabled(s, steps[0]) && CanRun(Apply(s, steps[0]), steps[1..]))
  }

  ghost function AfterRun(s: State, steps: seq<Step>): State
    requires CanRun(s, steps)
    decreases |steps|
  {
    if steps == [] then s else AfterRun(Apply(s, steps[0]), steps[1..])
  }

  lemma {:induction false} RunKeepsInv(s: State, steps: seq<Step>)
    requires Inv(s) && CanRun(s, steps)
    ensures Inv(AfterRun(s, steps))
    decreases |steps|
  {
    if steps != [] {
      StepKeepsInv(s, steps[0]);
      RunKeepsInv(Apply(s, steps[0]), steps[1..]);
    }
  }

  ghost function Reached(steps: seq<Step>): State
    requires CanRun(INITIAL, steps)
  {
    AfterRun(INITIAL, steps)
  }

  lemma {:induction false} Reaches(steps: seq<Step>)
    requires CanRun(INITIAL, steps)
    ensures Inv(Reached(steps))
  {
    RunKeepsInv(INITIAL, steps);
  }

  /** In every interleaving each poll that was issued is in exactly one stage, and no other poll is in any:
      in particular it is finished at most once. */
  lemma {:induction false} EachPollInOneStage(steps: seq<Step>, poll: Poll)
    requires CanRun(INITIAL, steps)
    ensures var s := Reached(steps);
      (if poll in s.fetching then 1 else 0) + (if poll in s.sending then 1 else 0)
      + multiset(Pending(s))[poll] + multiset(s.finished)[poll]
      == if Issued(s, poll) then 1 else 0
  {
    Reaches(steps);
    assert InOneStage(Reached(steps));
  }

  /** A poller has at most one poll outstanding, and has one iff it waits. */
  lemma {:induction false} OneOutstandingEach(steps: seq<Step>, a: Poll, b: Poll)
    requires CanRun(INITIAL, steps)
    ensures var s := Reached(steps);
      && (a in Outstanding(s) && b in Outstanding(s) && a.poller == b.poller ==> a == b)
      && (a in Outstanding(s) <==> Ready(s, a))
  {
    Reaches(steps);
    assert WaitedFor(Reached(steps));
  }

  /** The manager never blocks on telling a poller: the receiver is always waiting for exactly that poll. */
  lemma {:induction false} FinishNeverBlocks(steps: seq<Step>)
    requires CanRun(INITIAL, steps)
    ensures var s := Reached(steps);
      s.manager.Finishing? && s.manager.sent < |s.manager.results| ==> Enabled(s, Finish)
  {
    Reaches(steps);
    var s := Reached(steps);
    if s.manager.Finishing? && s.manager.sent < |s.manager.results| {
      var poll := s.manager.results[s.manager.sent];
      assert Pending(s)[0] == poll;
      assert poll in Outstanding(s);
    }
  }

  /** The batches, one after the other, are what was received; and the pollers are told in that order. */
  lemma {:induction false} BatchesKeepOrder(steps: seq<Step>)
    requires CanRun(INITIAL, steps)
    ensures var s := Reached(steps);
      && (s.manager.Finishing? ==> Flatten(s.batches) == s.received && s.received == s.finished + Pending(s))
      && (s.manager.Collecting? ==> Flatten(s.batches) + s.manager.results == s.received && Flatten(s.batches) == s.finished)
  {
    Reaches(steps);
    assert InOrder(Reached(steps));
  }

  // ---------- Progress ----------

  predicate Internal(step: Step) {
    step.Fetched? || step.Receive? || step.Process? || step.Finish? || step.Next?
  }

  /** How many more internal steps there can be at most. */
  ghost function Work(s: State): nat
    requires InOrder(s)
  {
    5 * |s.fetching| + 4 * |s.sending|
    + if s.manager.Collecting? then 3 * |s.manager.results| else 1 + |s.manager.results| - s.manager.sent
  }

  /** While a poll is outstanding, its fetch ends or the manager can move on; and only so many times until
      none is, unless a poller ticks. So every poll gets finished. */
  lemma {:induction false} NeverStuck(s: State)
    requires Inv(s)
    ensures Outstanding(s) != multiset{} ==> exists step :: Internal(step) && Enabled(s, step)
  {
    if poll :| poll in s.fetching {
      assert Enabled(s, Fetched(poll));
    } else if s.manager.Finishing? {
      if s.manager.sent < |s.manager.results| {
        var poll := s.manager.results[s.manager.sent];
        assert Pending(s)[0] == poll && poll in Outstanding(s);
        assert Enabled(s, Finish);
      } else {
        assert Enabled(s, Next);
      }
    } else if poll :| poll in s.sending {
      assert Enabled(s, Receive(poll));
    } else if s.manager.results != [] {
      assert Enabled(s, Process);
    }
  }

  lemma {:induction false} MoveTakesWork(from: set<Poll>, into: set<Poll>, poll: Poll)
    requires poll in from && poll !in into
    ensures |from - {poll}| == |from| - 1 && |into + {poll}| == |into| + 1
  {
  }

  lemma {:induction false} NotYetSending(s: State, poll: Poll)
    requires InOneStage(s) && poll in s.fetching
    ensures poll !in s.sending
  {
    assert Outstanding(s)[poll] <= 1;
  }

  lemma {:induction false} InternalStepsRunOut(s: State, step: Step)
    requires Inv(s) && Enabled(s, step) && Internal(step)
    ensures Inv(Apply(s, step)) && Work(Apply(s, step)) < Work(s)
  {
    StepKeepsInv(s, step);
    match step
    case Fetched(poll) =>
      NotYetSending(s, poll);
      MoveTakesWork(s.fetching, s.sending, poll);
    case Receive(poll) => MoveTakesWork(s.sending, {}, poll);
    case _ =>
  }

  /** From any reachable state, internal steps alone get every poll finished. */
  lemma {:induction false} Drain(s: State) returns (steps: seq<Step>)
    requires Inv(s)
    ensures (forall step | step in steps :: Internal(step)) && |steps| <= Work(s)
    ensures CanRun(s, steps) && Outstanding(AfterRun(s, steps)) == multiset{}
    decreases Work(s)
  {
    if Outstanding(s) == multiset{} {
      return [];
    }
    NeverStuck(s);
    var step :| Internal(step) && Enabled(s, step);
    InternalStepsRunOut(s, step);
    var rest := Drain(Apply(s, step));
    steps := [step] + rest;
    assert steps[1..] == rest;
  }

  // ---------- Two results of one cache ----------

  /** Two results of a cache in a batch are of different pollers of it. */
  lemma {:induction false} RepeatsAreOfTwoPollers(steps: seq<Step>, i: nat, j: nat)
    requires CanRun(INITIAL, steps)
    requires i < j < |Pending(Reached(steps))|
    ensures Pending(Reached(steps))[i].poller != Pending(Reached(steps))[j].poller
  {
    var s := Reached(steps);
    var a, b := Pending(s)[i], Pending(s)[j];
    OneOutstandingEach(steps, a, b);
    EachPollInOneStage(steps, a);
    ghost var front, back := Pending(s)[..j], Pending(s)[j..];
    assert Pending(s) == front + back;
    assert a == front[i] && b == back[0];
    assert multiset(front)[a] >= 1 && multiset(back)[b] >= 1;
  }

  /** Running two sequences of steps one after the other. */
  lemma {:induction false} RunsCompose(s: State, front: seq<Step>, back: seq<Step>)
    requires CanRun(s, front) && CanRun(AfterRun(s, front), back)
    ensures CanRun(s, front + back) && AfterRun(s, front + back) == AfterRun(AfterRun(s, front), back)
    decreases |front|
  {
    if front == [] {
      assert front + back == back;
    } else {
      assert (front + back)[1..] == front[1..] + back;
      RunsCompose(Apply(s, front[0]), front[1..], back);
    }
  }

  /** One step more. */
  lemma {:induction false} RunOn(s: State, steps: seq<Step>, step: Step)
    requires CanRun(s, steps) && Enabled(AfterRun(s, steps), step)
    ensures CanRun(s, steps + [step]) && AfterRun(s, steps + [step]) == Apply(AfterRun(s, steps), step)
  {
    var t := AfterRun(s, steps);
    assert [step][1..] == [];
    assert CanRun(t, [step]);
    assert AfterRun(Apply(t, step), []) == Apply(t, step);
    assert AfterRun(t, [step]) == Apply(t, step);
    RunsCompose(s, steps, [step]);
  }

  /** The state once a poller was killed while it waited, and another one of its cache has a poll out. */
  ghost function Restarted(cache: CacheName): State {
    INITIAL.(issued := [0, 1], pollers := map[0 := Poller(cache, true, Waiting(1)), 1 := Poller(cache, false, Waiting(2))],
             fetching := {Poll(1, 0), Poll(2, 1)})
  }

  lemma {:induction false} RestartIsReached(cache: CacheName) returns (steps: seq<Step>)
    ensures CanRun(INITIAL, steps) && Reached(steps) == Restarted(cache)
  {
    steps := [];
    RunOn(INITIAL, steps, Start(0, cache));
    steps := steps + [Start(0, cache)];
    RunOn(INITIAL, steps, Tick(0));
    steps := steps + [Tick(0)];
    RunOn(INITIAL, steps, Kill(0));
    steps := steps + [Kill(0)];
    RunOn(INITIAL, steps, Start(1, cache));
    steps := steps + [Start(1, cache)];
    RunOn(INITIAL, steps, Tick(1));
    steps := steps + [Tick(1)];
  }

  /** They do come up: a poller that is killed while it waits still has its result delivered, and the one
      that replaces it may have been quick. */
  lemma {:induction false} RestartRepeatsCache(cache: CacheName) returns (steps: seq<Step>)
    ensures CanRun(INITIAL, steps)
    ensures var s := Reached(steps);
      && s.batches == [[Poll(1, 0), Poll(2, 1)]]
      && s.pollers == map[0 := Poller(cache, true, Waiting(1)), 1 := Poller(cache, false, Waiting(2))]
  {
    var a, b := Poll(1, 0), Poll(2, 1);
    steps := RestartIsReached(cache);
    RunOn(INITIAL, steps, Fetched(a));
    steps := steps + [Fetched(a)];
    RunOn(INITIAL, steps, Receive(a));
    steps := steps + [Receive(a)];
    RunOn(INITIAL, steps, Fetched(b));
    steps := steps + [Fetched(b)];
    RunOn(INITIAL, steps, Receive(b));
    steps := steps + [Receive(b)];
    assert Reached(steps).manager.results == [a, b];
    RunOn(INITIAL, steps, Process);
    steps := steps + [Process];
    assert Reached(steps).batches == [[a, b]];
  }
}
