/** When the configuration goroutine, which tells the stat manager of every change of the caches and waits until it
    takes that up, gets on (`traffic_monitor/manager/monitorconfig.go`, `.../stat.go`). */
module Handoff {
  import opened Core
  import Pipeline

  /** The pipeline of the stat polls; whether the stat manager has taken up its first change, before which it
      receives nothing; whether the configuration goroutine waits to tell of a change; and what the stat
      poller still has to start and kill. */
  datatype State = State(pipe: Pipeline.State, started: bool, blocked: bool, changes: seq<Pipeline.Step>)

  datatype Step =
    | Configure(changes: seq<Pipeline.Step>)
    | Block
    | Begin
    | TakeUp
    | Change
    | Move(step: Pipeline.Step)

  const INITIAL := State(Pipeline.INITIAL, false, false, [])

  /** Pollers are started under new numbers, and killed after they were started. */
  ghost predicate Feasible(changes: seq<Pipeline.Step>, known: set<nat>) {
    changes == [] ||
    match changes[0]
    case Start(p, _) => p !in known && Feasible(changes[1..], known + {p})
    case Kill(p) => p in known && Feasible(changes[1..], known)
    case _ => false
  }

  /** The manager waits for a result before it looks for changes; once it has one, a waiting change keeps it from
      receiving more, but not from processing when its time is up. */
  ghost predicate Enabled(s: State, step: Step) {
    match step
    case Configure(changes) => !s.blocked && Feasible(changes, s.pipe.pollers.Keys)
    case Block => !s.blocked
    case Begin => s.blocked && !s.started
    case TakeUp => s.blocked && s.started && s.pipe.manager.Collecting? && s.pipe.manager.results != []
    case Change => s.changes != [] && Pipeline.Enabled(s.pipe, s.changes[0])
    case Move(move) =>
      && !move.Start? && !move.Kill? && Pipeline.Enabled(s.pipe, move)
      && (move.Receive? ==> s.started && (!s.blocked || s.pipe.manager.results == []))
  }

  ghost function Apply(s: State, step: Step): State
    requires Enabled(s, step)
  {
    match step
    case Configure(changes) => s.(changes := changes)
    case Block => s.(blocked := true)
    case Begin => s.(blocked := false, started := true)
    case TakeUp => s.(blocked := false)
    case Change => s.(pipe := Pipeline.Apply(s.pipe, s.changes[0]), changes := s.changes[1..])
    case Move(move) => s.(pipe := Pipeline.Apply(s.pipe, move))
  }

  ghost predicate Inv(s: State) {
    && Pipeline.Inv(s.pipe) && Feasible(s.changes, s.pipe.pollers.Keys)
    && (!s.started ==> s.pipe.manager == Pipeline.Collecting([]))
  }

  lemma {:induction false} StepKeepsInv(s: State, step: Step)
    requires Inv(s) && Enabled(s, step)
    ensures Inv(Apply(s, step))
  {
    match step
    case Change => Pipeline.StepKeepsInv(s.pipe, s.changes[0]);
      match s.changes[0] {
        case Start(p, _) => assert Apply(s, step).pipe.pollers.Keys == s.pipe.pollers.Keys + {p};
        case Kill(p) => assert Apply(s, step).pipe.pollers.Keys == s.pipe.pollers.Keys;
      }
    case Move(move) =>
      Pipeline.StepKeepsInv(s.pipe, move);
      MoveKeepsPollers(s, move);
    case _ =>
  }

  lemma {:induction false} MoveKeepsPollers(s: State, move: Pipeline.Step)
    requires Enabled(s, Move(move))
    ensures Apply(s, Move(move)).pipe.pollers.Keys == s.pipe.pollers.Keys
  {
  }

  /** Only a killed poller dies. */
  lemma {:induction false} MovePoller(s: State, move: Pipeline.Step, p: nat)
    requires Enabled(s, Move(move)) && p in s.pipe.pollers
    ensures var before, after := s.pipe.pollers[p], Apply(s, Move(move)).pipe.pollers[p];
      && after.killed == before.killed
      && (after.mode == Pipeline.Dead <==> before.mode == Pipeline.Dead || move == Pipeline.Die(p))
      && (move == Pipeline.Die(p) ==> before.killed && before.mode == Pipeline.Ticking)
  {
  }

  /** A change can be made at any time. */
  lemma {:induction false} ChangeIsEnabled(s: State)
    requires Inv(s) && s.changes != []
    ensures Enabled(s, Change)
  {
  }

  // ---------- Runs ----------

  ghost predicate CanRun(s: State, steps: seq<Step>)
    decreases |steps|
  {
    steps == [] || (Enabled(s, steps[0]) && CanRun(Apply(s, steps[0]), steps[1..]))
  }

  ghost function AfterRun(s: State, steps: seq<Step>): State
    requires CanRun(s, steps)
    decreases |steps|
  {
    if steps == [] then s else AfterRun(Apply(s, steps[0]), steps[1..])
  }

  lemma {:induction false} RunKeepsInv(s: State, steps: seq<Step>)
    requires Inv(s) && CanRun(s, steps)
    ensures Inv(AfterRun(s, steps))
    decreases |steps|
  {
    if steps != [] {
      StepKeepsInv(s, steps[0]);
      RunKeepsInv(Apply(s, steps[0]), steps[1..]);
    }
  }

  lemma {:induction false} OneMore(s: State, step: Step, more: seq<Step>)
    requires Enabled(s, step) && CanRun(Apply(s, step), more)
    ensures CanRun(s, [step] + more) && AfterRun(s, [step] + more) == AfterRun(Apply(s, step), more)
  {
    assert ([step] + more)[1..] == more;
  }

  // ---------- Pollers that stay ----------

  ghost predicate Alive(s: State, p: nat) {
    p in s.pipe.pollers && s.pipe.pollers[p].mode != Pipeline.Dead
  }

  /** A poller that runs or is to be started, and is not and will not be killed. */
  ghost predicate Stays(s: State, p: nat) {
    && ((Alive(s, p) && !s.pipe.pollers[p].killed) || exists cache :: Pipeline.Start(p, cache) in s.changes)
    && Pipeline.Kill(p) !in s.changes
  }

  ghost predicate SomeStay(s: State) {
    exists p :: Stays(s, p)
  }

  lemma {:induction false} KnownNotStarted(changes: seq<Pipeline.Step>, known: set<nat>, p: nat, cache: CacheName)
    requires Feasible(changes, known) && p in known
    ensures Pipeline.Start(p, cache) !in changes
  {
    if changes != [] {
      match changes[0]
      case Start(q, _) => KnownNotStarted(changes[1..], known + {q}, p, cache);
      case Kill(_) => KnownNotStarted(changes[1..], known, p, cache);
    }
  }

  lemma {:induction false} ChangeKeepsStaying(s: State, p: nat)
    requires Inv(s) && Enabled(s, Change)
    ensures Stays(Apply(s, Change), p) <==> Stays(s, p)
  {
    var change, rest := s.changes[0], s.changes[1..];
    assert s.changes == [change] + rest;
    if change == Pipeline.Kill(p) {
      forall cache
        ensures Pipeline.Start(p, cache) !in rest
      {
        KnownNotStarted(rest, s.pipe.pollers.Keys, p, cache);
      }
    } else if change.Start? && change.p == p {
      assert Pipeline.Start(p, change.cache) in s.changes;
      assert Alive(Apply(s, Change), p);
    } else {
      assert Alive(Apply(s, Change), p) == Alive(s, p);
      assert forall cache :: Pipeline.Start(p, cache) in rest <==> Pipeline.Start(p, cache) in s.changes;
    }
  }

  lemma {:induction false} MoveKeepsStaying(s: State, move: Pipeline.Step, p: nat)
    requires Inv(s) && Enabled(s, Move(move))
    ensures Stays(Apply(s, Move(move)), p) <==> Stays(s, p)
  {
    MoveKeepsPollers(s, move);
    if p in s.pipe.pollers {
      MovePoller(s, move, p);
    }
  }

  /** While no other configuration comes in, the same pollers stay. */
  lemma {:induction false} SameStay(s: State, step: Step)
    requires Inv(s) && Enabled(s, step) && !step.Configure?
    ensures SomeStay(Apply(s, step)) <==> SomeStay(s)
  {
    forall p
      ensures Stays(Apply(s, step), p) <==> Stays(s, p)
    {
      match step
      case Change => ChangeKeepsStaying(s, p);
      case Move(move) => MoveKeepsStaying(s, move, p);
      case _ =>
    }
  }

  // ---------- Taken up ----------

  /** Steps from `s` on that end the wait. */
  ghost predicate EndsWait(s: State, steps: seq<Step>) {
    CanRun(s, steps) && !AfterRun(s, steps).blocked
  }

  lemma {:induction false} Take(s: State) returns (steps: seq<Step>)
    requires s.blocked && s.started && s.pipe.manager.Collecting? && s.pipe.manager.results != []
    ensures EndsWait(s, steps)
  {
    steps := [TakeUp] + [];
    OneMore(s, TakeUp, []);
  }

  ghost predicate Listening(s: State) {
    s.blocked && s.started && s.pipe.manager == Pipeline.Collecting([])
  }

  lemma {:induction false} ReceiveAndTake(s: State, poll: Pipeline.Poll) returns (steps: seq<Step>)
    requires Listening(s) && poll in s.pipe.sending
    ensures EndsWait(s, steps)
  {
    var step := Move(Pipeline.Receive(poll));
    steps := Take(Apply(s, step));
    OneMore(s, step, steps);
    steps := [step] + steps;
  }

  lemma {:induction false} FetchAndTake(s: State, poll: Pipeline.Poll) returns (steps: seq<Step>)
    requires Listening(s) && poll in s.pipe.fetching
    ensures EndsWait(s, steps)
  {
    var step := Move(Pipeline.Fetched(poll));
    steps := ReceiveAndTake(Apply(s, step), poll);
    OneMore(s, step, steps);
    steps := [step] + steps;
  }

  /** A manager that listens gets a result from any poller that is alive. */
  lemma {:induction false} PollAndTake(s: State, p: nat) returns (steps: seq<Step>)
    requires Inv(s) && Listening(s) && Alive(s, p)
    ensures EndsWait(s, steps)
  {
    match s.pipe.pollers[p].mode
    case Ticking =>
      var step := Move(Pipeline.Tick(p));
      steps := FetchAndTake(Apply(s, step), Pipeline.Poll(|s.pipe.issued| + 1, p));
      OneMore(s, step, steps);
      steps := [step] + steps;
    case Waiting(id) =>
      var poll := Pipeline.Poll(id, p);
      assert Pipeline.Ready(s.pipe, poll);
      assert poll in Pipeline.Outstanding(s.pipe);
      if poll in s.pipe.fetching {
        steps := FetchAndTake(s, poll);
      } else {
        steps := ReceiveAndTake(s, poll);
      }
  }

  /** The next step of a manager that processes: the pollers are there to be told. */
  lemma {:induction false} FinishingStep(s: State) returns (step: Step)
    requires Inv(s) && s.pipe.manager.Finishing?
    ensures step.Move? && Pipeline.Internal(step.step) && !step.step.Receive? && Enabled(s, step)
  {
    if s.pipe.manager.sent < |s.pipe.manager.results| {
      var poll := s.pipe.manager.results[s.pipe.manager.sent];
      assert Pipeline.Pending(s.pipe)[0] == poll && poll in Pipeline.Outstanding(s.pipe);
      assert Pipeline.Ready(s.pipe, poll);
      step := Move(Pipeline.Finish);
    } else {
      step := Move(Pipeline.Next);
    }
  }

  /** A configuration that waits can be taken up if the manager has not begun or some poller stays. */
  lemma {:induction false} CanBeTaken(s: State) returns (steps: seq<Step>)
    requires Inv(s) && s.blocked && (!s.started || SomeStay(s))
    ensures EndsWait(s, steps)
    decreases |s.changes|, Pipeline.Work(s.pipe)
  {
    if !s.started {
      OneMore(s, Begin, []);
      return [Begin] + [];
    }
    if s.pipe.manager.Collecting? && s.pipe.manager.results != [] {
      steps := Take(s);
      return;
    }
    if s.changes == [] && s.pipe.manager.Collecting? {
      var p :| Stays(s, p);
      steps := PollAndTake(s, p);
      return;
    }
    var step := Change;
    if s.changes == [] {
      step := FinishingStep(s);
      Pipeline.InternalStepsRunOut(s.pipe, step.step);
    } else {
      ChangeIsEnabled(s);
    }
    StepKeepsInv(s, step);
    SameStay(s, step);
    steps := CanBeTaken(Apply(s, step));
    OneMore(s, step, steps);
    steps := [step] + steps;
  }

  // ---------- Not taken up ----------

  /** The manager waits for a result, and there is no poller left. */
  ghost predicate Stuck(s: State) {
    Listening(s) && s.changes == [] && s.pipe.fetching == {} && s.pipe.sending == {} && forall p :: !Alive(s, p)
  }

  /** Then nothing can happen any more: the configuration goroutine waits forever. */
  lemma {:induction false} StuckForever(s: State, step: Step)
    requires Stuck(s)
    ensures !Enabled(s, step)
  {
    match step
    case Move(Tick(p)) => assert !Alive(s, p);
    case Move(Die(p)) => assert !Alive(s, p);
    case _ =>
  }

  /** The configuration is not taken up by any of the steps. */
  ghost predicate Waits(steps: seq<Step>) {
    forall i | 0 <= i < |steps| :: !steps[i].Begin? && !steps[i].TakeUp?
  }

  ghost function LivePollers(s: State): set<nat> {
    set p | p in s.pipe.pollers && Alive(s, p)
  }

  /** A change starts or kills one poller; a killed one is still alive. */
  lemma {:induction false} ChangePoller(s: State, p: nat)
    requires Inv(s) && Enabled(s, Change)
    ensures Alive(Apply(s, Change), p) <==> Alive(s, p) || (s.changes[0].Start? && s.changes[0].p == p)
  {
  }

  lemma {:induction false} PollersAfterChange(s: State)
    requires Inv(s) && Enabled(s, Change)
    ensures |LivePollers(Apply(s, Change))| <= |LivePollers(s)| + 1
  {
    var before, after := LivePollers(s), LivePollers(Apply(s, Change));
    var more := if s.changes[0].Start? then {s.changes[0].p} else {};
    forall p
      ensures p in after <==> p in before || p in more
    {
      ChangePoller(s, p);
      assert Alive(s, p) <==> p in before;
      assert Alive(Apply(s, Change), p) <==> p in after;
    }
    assert after == before + more;
  }

  lemma {:induction false} PollersAfterMove(s: State, move: Pipeline.Step)
    requires Enabled(s, Move(move))
    ensures var before, after := LivePollers(s), LivePollers(Apply(s, Move(move)));
      |after| <= |before| && (move.Die? ==> |after| < |before|)
  {
    var before, after := LivePollers(s), LivePollers(Apply(s, Move(move)));
    MoveKeepsPollers(s, move);
    forall p | p in s.pipe.pollers
      ensures p in after <==> p in before && move != Pipeline.Die(p)
      ensures move == Pipeline.Die(p) ==> p in before
    {
      MovePoller(s, move, p);
    }
    if move.Die? {
      assert after == before - {move.p};
    } else {
      assert after == before;
    }
  }

  /** The next step on the way to a manager without pollers: every change is made, everything received is processed
      because the time is up, and every poller dies when it is told that its poll is finished. */
  lemma {:induction false} StepTowardsStuck(s: State) returns (step: Step)
    requires Inv(s) && s.blocked && s.started && !SomeStay(s) && !Stuck(s)
    ensures Enabled(s, step) && (step.Change? || (step.Move? && (Pipeline.Internal(step.step) || step.step.Die?)))
  {
    if s.changes != [] {
      ChangeIsEnabled(s);
      return Change;
    }
    if s.pipe.manager.Finishing? {
      step := FinishingStep(s);
      return;
    }
    if s.pipe.manager.results != [] {
      return Move(Pipeline.Process);
    }
    if poll :| poll in s.pipe.sending {
      return Move(Pipeline.Receive(poll));
    }
    if poll :| poll in s.pipe.fetching {
      return Move(Pipeline.Fetched(poll));
    }
    var p :| Alive(s, p);
    assert !Stays(s, p);
    if s.pipe.pollers[p].mode.Waiting? {
      var poll := Pipeline.Poll(s.pipe.pollers[p].mode.id, p);
      assert Pipeline.Ready(s.pipe, poll);
    }
    return Move(Pipeline.Die(p));
  }

  ghost function Rank(s: State): nat
    requires Inv(s)
  {
    2 * |s.changes| + Pipeline.Work(s.pipe) + |LivePollers(s)|
  }

  lemma {:induction false} RankFalls(s: State, step: Step)
    requires Inv(s) && Enabled(s, step)
    requires step.Change? || (step.Move? && (Pipeline.Internal(step.step) || step.step.Die?))
    ensures Inv(Apply(s, step)) && Rank(Apply(s, step)) < Rank(s)
  {
    StepKeepsInv(s, step);
    match step
    case Change =>
      PollersAfterChange(s);
      ChangeTakesNoWork(s);
    case Move(move) =>
      PollersAfterMove(s, move);
      if Pipeline.Internal(move) {
        Pipeline.InternalStepsRunOut(s.pipe, move);
      }
  }

  lemma {:induction false} ChangeTakesNoWork(s: State)
    requires Inv(s) && Enabled(s, Change)
    ensures Inv(Apply(s, Change)) && Pipeline.Work(Apply(s, Change).pipe) == Pipeline.Work(s.pipe)
  {
    StepKeepsInv(s, Change);
  }

  /** If no poller stays, and the manager has begun, a configuration may wait forever. */
  lemma {:induction false} CanBeStuck(s: State) returns (steps: seq<Step>)
    requires Inv(s) && s.blocked && s.started && !SomeStay(s)
    ensures CanRun(s, steps) && Waits(steps) && Stuck(AfterRun(s, steps))
    decreases Rank(s)
  {
    if Stuck(s) {
      return [];
    }
    var step := StepTowardsStuck(s);
    RankFalls(s, step);
    SameStay(s, step);
    steps := CanBeStuck(Apply(s, step));
    OneMore(s, step, steps);
    steps := [step] + steps;
  }

  // ---------- Together ----------

  /** However long the configuration has waited, it can still be taken up. */
  ghost predicate NeverGivenUp(s: State) {
    forall steps | CanRun(s, steps) && Waits(steps) :: exists more :: EndsWait(AfterRun(s, steps), more)
  }

  lemma {:induction false} WaitingKeeps(s: State, steps: seq<Step>)
    requires Inv(s) && s.blocked && CanRun(s, steps) && Waits(steps)
    ensures var t := AfterRun(s, steps);
      Inv(t) && t.blocked && t.started == s.started && (SomeStay(t) <==> SomeStay(s))
    decreases |steps|
  {
    if steps != [] {
      StepKeepsInv(s, steps[0]);
      SameStay(s, steps[0]);
      WaitingKeeps(Apply(s, steps[0]), steps[1..]);
    }
  }

  /** In every reachable state in which a configuration waits: it can always still be taken up iff it is the first one,
      or some poller of a cache stays. Otherwise, when the last pollers die first, the configuration goroutine
      waits forever, and so does every later configuration. */
  lemma {:induction false} TakenUpIff(steps: seq<Step>)
    requires CanRun(INITIAL, steps) && AfterRun(INITIAL, steps).blocked
    ensures var s := AfterRun(INITIAL, steps);
      NeverGivenUp(s) <==> !s.started || SomeStay(s)
  {
    var s := AfterRun(INITIAL, steps);
    RunKeepsInv(INITIAL, steps);
    if !s.started || SomeStay(s) {
      forall wait | CanRun(s, wait) && Waits(wait)
        ensures exists more :: EndsWait(AfterRun(s, wait), more)
      {
        WaitingKeeps(s, wait);
        var more := CanBeTaken(AfterRun(s, wait));
      }
    } else {
      var wait := CanBeStuck(s);
      forall more | CanRun(AfterRun(s, wait), more)
        ensures !EndsWait(AfterRun(s, wait), more)
      {
        if more != [] {
          StuckForever(AfterRun(s, wait), more[0]);
        }
      }
      assert !exists more :: EndsWait(AfterRun(s, wait), more);
    }
  }
}
