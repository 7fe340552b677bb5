/** The signals that make the state combiner run (`traffic_monitor/manager/statecombiner.go`): each is
    sent by a goroutine of its own into a buffered channel, which the combiner drains before a pass. */
module Wakeup {

  const BUFFER_SIZE := 5

  /** Where the combiner goroutine is: waiting for a signal, draining, about to read the local states,
      about to read the peer states, or past all first reads of its pass. */
  datatype Mode = Waiting | Draining | ReadingLocal | ReadingPeers | Combining

  /** A version counts the updates of a store. `announced` are the versions at the last signal, `seen`
      those that the last pass read. */
  datatype Versions = Versions(local: nat, peers: nat)

  datatype State = State(
    mode: Mode,
    spawned: nat,   // goroutines which have yet to send
    buffered: nat,  // signals in the channel
    current: Versions,
    announced: Versions,
    seen: Versions,
    signals: nat,   // calls of combineState so far
    consumed: nat,  // signals received so far
    passes: nat)    // passes begun so far

  /** The combiner waits, nobody has signalled, and nothing was announced that it has not seen. */
  predicate Starts(s: State) {
    && s.mode == Waiting && s.spawned == 0 && s.buffered == 0
    && s.current == s.announced == s.seen
    && s.signals == 0 && s.consumed == 0 && s.passes == 0
  }

  datatype Step = UpdateLocal | UpdatePeers | Signal | Send | Receive | DrainOne | DrainDone | ReadLocal | ReadPeers | Finish

  predicate Enabled(s: State, step: Step) {
    match step
    case UpdateLocal => true
    case UpdatePeers => true
    case Signal => true
    case Send => s.spawned > 0 && s.buffered < BUFFER_SIZE
    case Receive => s.mode == Waiting && s.buffered > 0
    case DrainOne => s.mode == Draining && s.buffered > 0
    case DrainDone => s.mode == Draining && s.buffered == 0
    case ReadLocal => s.mode == ReadingLocal
    case ReadPeers => s.mode == ReadingPeers
    case Finish => s.mode == Combining
  }

  function Do(s: State, step: Step): State
    requires Enabled(s, step)
  {
    match step
    case UpdateLocal => s.(current := s.current.(local := s.current.local + 1))
    case UpdatePeers => s.(current := s.current.(peers := s.current.peers + 1))
    case Signal => s.(spawned := s.spawned + 1, announced := s.current, signals := s.signals + 1)
    case Send => s.(spawned := s.spawned - 1, buffered := s.buffered + 1)
    case Receive => s.(mode := Draining, buffered := s.buffered - 1, consumed := s.consumed + 1)
    case DrainOne => s.(buffered := s.buffered - 1, consumed := s.consumed + 1)
    case DrainDone => s.(mode := ReadingLocal, passes := s.passes + 1)
    case ReadLocal => s.(mode := ReadingPeers, seen := s.seen.(local := s.current.local))
    case ReadPeers => s.(mode := Combining, seen := s.seen.(peers := s.current.peers))
    case Finish => s.(mode := Waiting)
  }

  /** A run: every step is enabled where it is taken. */
  ghost predicate IsRun(s: State, steps: seq<Step>)
    decreases steps
  {
    steps == [] || (Enabled(s, steps[0]) && IsRun(Do(s, steps[0]), steps[1..]))
  }

  ghost function After(s: State, steps: seq<Step>): State
    requires IsRun(s, steps)
    decreases steps
  {
    if steps == [] then s else After(Do(s, steps[0]), steps[1..])
  }

  /** A signal has yet to be acted on: it is being sent, in the channel, or already received by a
      combiner which has yet to read the stores. */
  predicate Pending(s: State) {
    s.spawned > 0 || s.buffered > 0 || s.mode == Draining || s.mode == ReadingLocal
  }

  /** Everything announced is either seen by a pass, or a pass that will see it is still to come. */
  predicate NothingLost(s: State) {
    Pending(s) || (s.announced.local <= s.seen.local && (s.mode == ReadingPeers || s.announced.peers <= s.seen.peers))
  }

  predicate Inv(s: State) {
    && NothingLost(s)
    && s.buffered <= BUFFER_SIZE
    && s.announced.local <= s.current.local && s.announced.peers <= s.current.peers
    && s.seen.local <= s.current.local && s.seen.peers <= s.current.peers
    && s.signals == s.spawned + s.buffered + s.consumed
    && s.passes + (if s.mode == Draining then 1 else 0) <= s.consumed
  }

  lemma {:induction false} StepKeepsInv(s: State, step: Step)
    requires Inv(s) && Enabled(s, step)
    ensures Inv(Do(s, step))
  {
  }

  lemma {:induction false} RunKeepsInv(s: State, steps: seq<Step>)
    requires Inv(s) && IsRun(s, steps)
    ensures Inv(After(s, steps))
    decreases steps
  {
    if steps != [] {
      StepKeepsInv(s, steps[0]);
      RunKeepsInv(Do(s, steps[0]), steps[1..]);
    }
  }

  /** No wake-up is lost in any run from the start: whatever was updated before a signal is seen by a pass that
      reads after the update, or a signal is still pending. And no pass runs without a signal of its own. */
  lemma {:induction false} NoLostWakeup(start: State, steps: seq<Step>)
    requires Starts(start) && IsRun(start, steps)
    ensures var end := After(start, steps);
            Inv(end) && NothingLost(end) && end.passes <= end.signals
  {
    RunKeepsInv(start, steps);
  }

  lemma {:induction false} RunsCompose(s: State, front: seq<Step>, back: seq<Step>)
    requires IsRun(s, front + back)
    ensures IsRun(s, front) && IsRun(After(s, front), back)
    ensures After(s, front + back) == After(After(s, front), back)
    decreases front
  {
    if front == [] {
      assert front + back == back;
    } else {
      assert (front + back)[1..] == front[1..] + back;
      RunsCompose(Do(s, front[0]), front[1..], back);
    }
  }

  /** The same about a single signal, anywhere in a run from the start: at the end of whatever follows it, a pass
      has read both stores after the signal, or a signal is still pending or the peers are being read. */
  lemma {:induction false} SignalIsSeen(start: State, before: seq<Step>, rest: seq<Step>)
    requires Starts(start) && IsRun(start, before + ([Signal] + rest))
    ensures IsRun(start, before)
    ensures Sees(After(start, before), After(start, before + ([Signal] + rest)))
  {
    RunsCompose(start, before, [Signal] + rest);
    RunKeepsInv(start, before);
    SignalSeenFrom(After(start, before), rest);
  }

  /** At the end, what was current in the earlier state has been seen, or a pass that will see it is to come. */
  predicate Sees(s: State, end: State) {
    || Pending(end)
    || (s.current.local <= end.seen.local && (end.mode == ReadingPeers || s.current.peers <= end.seen.peers))
  }

  lemma {:induction false} SignalSeenFrom(s: State, rest: seq<Step>)
    requires Inv(s) && IsRun(s, [Signal] + rest)
    ensures Sees(s, After(s, [Signal] + rest))
  {
    assert ([Signal] + rest)[1..] == rest;
    StepKeepsInv(s, Signal);
    AnnouncedGrows(Do(s, Signal), rest);
    RunKeepsInv(Do(s, Signal), rest);
  }

  lemma {:induction false} AnnouncedGrows(s: State, steps: seq<Step>)
    requires Inv(s) && IsRun(s, steps)
    ensures s.announced.local <= After(s, steps).announced.local
    ensures s.announced.peers <= After(s, steps).announced.peers
    decreases steps
  {
    if steps != [] {
      StepKeepsInv(s, steps[0]);
      AnnouncedGrows(Do(s, steps[0]), steps[1..]);
    }
  }

  // ---------- Progress ----------

  /** The steps of the channel and the combiner, as opposed to those of its clients. */
  predicate Internal(step: Step) {
    step.Send? || step.Receive? || step.DrainOne? || step.DrainDone? || step.ReadLocal? || step.ReadPeers? || step.Finish?
  }

  /** An upper bound of the internal steps that can still be taken. */
  function Rank(s: State): nat {
    7 * s.spawned + 6 * s.buffered
    + match s.mode
      case Waiting => 0
      case Draining => 4
      case ReadingLocal => 3
      case ReadingPeers => 2
      case Combining => 1
  }

  /** Without further signals the combiner comes to rest: no run of internal steps is longer than the
      rank of the state it starts from. */
  lemma {:induction false} InternalRunsAreBounded(s: State, steps: seq<Step>)
    requires IsRun(s, steps) && forall i | 0 <= i < |steps| :: Internal(steps[i])
    ensures |steps| + Rank(After(s, steps)) <= Rank(s)
    decreases steps
  {
    if steps != [] {
      assert Internal(steps[0]);
      InternalRunsAreBounded(Do(s, steps[0]), steps[1..]);
    }
  }

  /** From any state of a run it does come to rest, so that every update announced by then has been seen. */
  lemma {:induction false} ComesToRest(s: State) returns (steps: seq<Step>)
    requires Inv(s)
    ensures IsRun(s, steps) && (forall step | step in steps :: Internal(step)) && |steps| <= Rank(s)
    ensures var end := After(s, steps);
      s.announced.local <= end.seen.local && s.announced.peers <= end.seen.peers && end.mode == Waiting
    decreases Rank(s)
  {
    if step :| Internal(step) && Enabled(s, step) {
      StepKeepsInv(s, step);
      var rest := ComesToRest(Do(s, step));
      steps := [step] + rest;
      assert steps[1..] == rest;
    } else {
      steps := [];
      RestMeansSeen(s);
    }
  }

  /** And it only rests when every announced update has been seen: a goroutine that blocks on the full
      channel can never be stuck, and a signal is never left behind. */
  lemma {:induction false} RestMeansSeen(s: State)
    requires Inv(s) && forall step | Internal(step) :: !Enabled(s, step)
    ensures s.announced.local <= s.seen.local && s.announced.peers <= s.seen.peers
    ensures s.mode == Waiting && s.spawned == 0 && s.buffered == 0
  {
    assert !Enabled(s, Send) && !Enabled(s, Receive) && !Enabled(s, DrainOne) && !Enabled(s, DrainDone);
    assert !Enabled(s, ReadLocal) && !Enabled(s, ReadPeers) && !Enabled(s, Finish);
  }
}
