/** Parallel copying of a directory tree in r.tolkacheva/lab7: one dispatcher pops tasks from a
    shared stack and starts a thread for each; directory threads push their children and then take
    themselves off the count of directories being walked. */
module TreeStack {
  import opened Counting
  import opened Links
  import opened Trees
  import Runs

  // ---------- the stack itself ----------

  /** What a round of `stack_pop` tells its caller. */
  datatype Attempt = Task(t: Tree) | Wait | Nothing

  /** `struct stack` without its mutex: a chain of nodes from the head down. */
  class TaskStack {
    var head: Node?<Tree>
    var walking: int
    var stopped: bool
    ghost var nodes: seq<Node<Tree>>

    ghost predicate Valid()
      reads this, nodes
    {
      (nodes == [] <==> head == null) && (nodes != [] ==> head == nodes[0]) && Chained(nodes)
    }

    /** The tasks on the stack, the last one pushed first. */
    ghost function Contents(): seq<Tree>
      reads this, nodes
    {
      Values(nodes)
    }

    constructor ()
      ensures Valid() && Contents() == [] && walking == 0 && !stopped
    {
      head, walking, stopped, nodes := null, 0, false, [];
    }

    method Push(t: Tree)
      requires Valid()
      modifies this`head, this`nodes
      ensures Valid() && Contents() == [t] + old(Contents())
    {
      var node := new Node(t, head);
      head, nodes := node, [node] + nodes;
    }

    /** One round of `stack_pop` under the mutex: the task pushed last, or the word to go on
        waiting for those who walk, or nothing once all is done. */
    method TryPop() returns (t: Attempt)
      requires Valid()
      modifies this`head, this`nodes
      ensures Valid()
      ensures old(Contents()) != [] ==> t.Task? && old(Contents()) == [t.t] + Contents()
      ensures old(Contents()) == [] ==> Contents() == [] && !t.Task?
      ensures old(Contents()) == [] ==> (t.Nothing? <==> stopped || walking == 0)
    {
      if head == null {
        if stopped || walking == 0 {
          return Nothing;
        }
        return Wait;
      }
      assert |nodes| > 1 ==> nodes[0].next == nodes[0 + 1];
      ghost var before := Contents();
      t := Task(head.value);
      head, nodes := head.next, nodes[1..];
      assert before == [t.t] + Contents();
    }

    /** `stack_stopped`: yes exactly when nothing is on the stack and nobody walks, or once it has
        said so. */
    method CheckStopped() returns (yes: bool)
      requires Valid()
      modifies this`stopped
      ensures Valid() && Contents() == old(Contents()) && stopped == yes
      ensures yes <==> old(stopped) || (Contents() == [] && walking == 0)
    {
      if stopped {
        return true;
      }
      yes := head == null && walking == 0;
      if yes {
        stopped := true;
      }
    }
  }

  // ---------- the threads ----------

  /** The dispatcher. In `CheckHeld` and `PopHeld` it holds the mutex, has looked at the head of the
      stack and has not yet loaded the count. */
  datatype Main = Check | CheckHeld(empty: bool) | Pop | PopHeld | Popped(t: Tree) | Registered(t: Tree) | Finished

  /** A started thread: it walks a directory with `rest` still to push, or copies a file. */
  datatype Worker = Walking(rest: seq<Tree>) | Copying | Gone

  datatype State = State(
    root: Tree, stack: seq<Tree>, walking: int, stopped: bool, main: Main, workers: seq<Worker>, started: seq<Tree>)

  predicate Held(s: State) { s.main.CheckHeld? || s.main.PopHeld? }

  datatype Step = MainStep | PushStep(i: nat) | LeaveStep(i: nat)

  predicate Enabled(s: State, step: Step)
  {
    match step
    case MainStep => !s.main.Finished?
    case PushStep(i) => i < |s.workers| && s.workers[i].Walking? && s.workers[i].rest != [] && !Held(s)
    case LeaveStep(i) => i < |s.workers| && (s.workers[i] == Walking([]) || s.workers[i].Copying?)
  }

  /** The dispatcher's next step. The mutex is its own whenever it wants it: the sections of the
      other threads are single steps. */
  function DoMain(s: State): State
  {
    match s.main
    case Check => s.(main := if s.stopped then Finished else CheckHeld(s.stack == []))
    case CheckHeld(empty) =>
      var yes := empty && s.walking == 0;
      s.(stopped := yes, main := if yes then Finished else Pop)
    case Pop =>
      if s.stack == [] then s.(main := PopHeld) else s.(stack := s.stack[1..], main := Popped(s.stack[0]))
    case PopHeld => s.(main := if s.stopped || s.walking == 0 then Check else Pop)
    case Popped(t) => s.(walking := if t.Dir? then s.walking + 1 else s.walking, main := Registered(t))
    case Registered(t) =>
      s.(main := Check, started := s.started + [t],
         workers := s.workers + [if t.Dir? then Walking(t.kids) else Copying])
    case Finished => s
  }

  function Do(s: State, step: Step): State
    requires Enabled(s, step)
  {
    match step
    case MainStep => DoMain(s)
    case PushStep(i) =>
      var rest := s.workers[i].rest;
      s.(stack := [rest[0]] + s.stack, workers := s.workers[i := Walking(rest[1..])])
    case LeaveStep(i) =>
      s.(walking := if s.workers[i].Walking? then s.walking - 1 else s.walking, workers := s.workers[i := Gone])
  }

  predicate NextStep(s: State, s': State, step: Step) { Enabled(s, step) && s' == Do(s, step) }

  ghost predicate Next(s: State, s': State) { exists step :: NextStep(s, s', step) }

  /** The root task has been pushed and the dispatcher enters its loop. */
  ghost predicate Init(s: State)
  {
    s.root.Dir? && s == State(s.root, [s.root], 0, false, Check, [], [])
  }

  ghost predicate Reachable(s: State) { Runs.Reachable(Init, Next, s) }

  // ---------- the invariant ----------

  function Rest(w: Worker): seq<Tree> { if w.Walking? then w.rest else [] }

  /** The weight of what a thread has still to push, with everything below it. */
  ghost function RestWeight(w: Tree -> nat): Worker -> nat { (k: Worker) => ForestWeight(Rest(k), w) }

  /** The weight of what the dispatcher has popped and not yet started. */
  ghost function InHand(m: Main, w: Tree -> nat): nat
  {
    if m.Popped? || m.Registered? then Weight(m.t, w) else 0
  }

  predicate IsWalking(w: Worker) { w.Walking? }

  /** The weight of everything not yet started. */
  ghost function Pending(s: State, w: Tree -> nat): nat
  {
    InHand(s.main, w) + ForestWeight(s.stack, w) + Sum(s.workers, RestWeight(w))
  }

  /** Every node has been started, or is in hand, on the stack or still to be pushed - once. */
  ghost predicate Accounted(s: State, w: Tree -> nat)
  {
    Sum(s.started, w) + Pending(s, w) == Weight(s.root, w)
  }

  /** The count is the number of directories whose thread has not left, plus the one registered and
      not yet started. */
  ghost predicate CountInv(s: State)
  {
    s.walking == Count(s.workers, IsWalking) + if s.main.Registered? && s.main.t.Dir? then 1 else 0
  }

  predicate MainInv(s: State)
  {
    && (s.main.CheckHeld? ==> (s.main.empty <==> s.stack == []))
    && (s.main.PopHeld? ==> s.stack == [])
    && (s.stopped <==> s.main.Finished?)
    && (s.main.Finished? ==> s.stack == [] && s.walking == 0)
  }

  ghost predicate Inv(s: State, w: Tree -> nat) { Accounted(s, w) && CountInv(s) && MainInv(s) }

  function Started(t: Tree): Worker { if t.Dir? then Walking(t.kids) else Copying }

  lemma StartedWeighs(t: Tree, w: Tree -> nat)
    ensures Weight(t, w) == w(t) + RestWeight(w)(Started(t))
  {
  }

  /** Starting a thread moves one node from the dispatcher's hand to the started ones, and what is
      below it to the new thread. */
  lemma StartWeighs(s: State, w: Tree -> nat)
    requires s.main.Registered?
    ensures var s' := DoMain(s);
            && Sum(s'.started, w) == Sum(s.started, w) + w(s.main.t)
            && Pending(s', w) == Pending(s, w) - w(s.main.t)
            && Count(s'.workers, IsWalking) == Count(s.workers, IsWalking) + if s.main.t.Dir? then 1 else 0
  {
    var t := s.main.t;
    StartedWeighs(t, w);
    SumAppend(s.started, w, t);
    SumAppend(s.workers, RestWeight(w), Started(t));
    CountAppend(s.workers, IsWalking, Started(t));
  }

  lemma PushWeighs(s: State, i: nat, w: Tree -> nat)
    requires Enabled(s, PushStep(i))
    ensures var s' := Do(s, PushStep(i));
            Pending(s', w) == Pending(s, w) && Count(s'.workers, IsWalking) == Count(s.workers, IsWalking)
  {
    var rest := s.workers[i].rest;
    SumUpdate(s.workers, RestWeight(w), i, Walking(rest[1..]));
    CountUpdate(s.workers, IsWalking, i, Walking(rest[1..]));
    assert ([rest[0]] + s.stack)[1..] == s.stack;
  }

  lemma LeaveWeighs(s: State, i: nat, w: Tree -> nat)
    requires Enabled(s, LeaveStep(i))
    ensures var s' := Do(s, LeaveStep(i));
            && Pending(s', w) == Pending(s, w)
            && Count(s'.workers, IsWalking) == Count(s.workers, IsWalking) - if s.workers[i].Walking? then 1 else 0
  {
    SumUpdate(s.workers, RestWeight(w), i, Gone);
    CountUpdate(s.workers, IsWalking, i, Gone);
  }

  lemma MainKeepsInv(s: State, w: Tree -> nat)
    requires Inv(s, w) && !s.main.Finished?
    ensures Inv(DoMain(s), w)
  {
    if s.main.Registered? {
      StartWeighs(s, w);
    }
  }

  lemma StepKeepsInv(s: State, s': State, w: Tree -> nat)
    requires Inv(s, w) && Next(s, s')
    ensures Inv(s', w)
  {
    var step :| NextStep(s, s', step);
    match step {
      case MainStep => MainKeepsInv(s, w);
      case PushStep(i) =>
        PushWeighs(s, i, w);
        CountPositive(s.workers, IsWalking, i);
      case LeaveStep(i) =>
        LeaveWeighs(s, i, w);
        if s.workers[i].Walking? {
          CountPositive(s.workers, IsWalking, i);
        }
    }
  }

  lemma ReachableInv(s: State, w: Tree -> nat)
    requires Reachable(s)
    ensures Inv(s, w)
  {
    var inv := (t: State) => Inv(t, w);
    forall t | Init(t)
      ensures inv(t)
    {
      assert ForestWeight([t.root], w) == Weight(t.root, w);
    }
    forall t, t' | inv(t) && Next(t, t')
      ensures inv(t')
    {
      StepKeepsInv(t, t', w);
    }
    Runs.HoldsWhenReachable(Init, Next, inv, s);
  }

  lemma {:induction false} NothingUnpushed(ws: seq<Worker>, w: Tree -> nat)
    requires Count(ws, IsWalking) == 0
    ensures Sum(ws, RestWeight(w)) == 0
  {
    if ws != [] {
      NothingUnpushed(ws[..|ws| - 1], w);
    }
  }

  // ---------- the theorems ----------

  /** When `stack_stopped` has answered yes, every directory and file has been given to a thread
      exactly once, and no thread is left that could touch the stack. */
  lemma StoppedMeansDone(s: State)
    requires Reachable(s) && s.stopped
    ensures multiset(s.started) == Nodes(s.root)
    ensures s.stack == [] && s.walking == 0 && forall i :: 0 <= i < |s.workers| ==> !s.workers[i].Walking?
  {
    forall x: Tree
      ensures multiset(s.started)[x] == Nodes(s.root)[x]
    {
      ReachableInv(s, Is(x));
      NothingUnpushed(s.workers, Is(x));
      NodesWeigh(s.root, x);
      SequenceWeighs(s.started, x);
    }
    ReachableInv(s, One());
    CountZero(s.workers, IsWalking);
  }

  /** From then on nothing that the threads share ever changes again. */
  lemma StoppedIsFinal(s: State, s': State)
    requires Reachable(s) && s.stopped && Next(s, s')
    ensures s'.stopped && s'.stack == s.stack && s'.walking == s.walking && s'.started == s.started && s'.main == s.main
  {
    ReachableInv(s, One());
    StoppedMeansDone(s);
  }

  /** What registering and unregistering come to: the count is the number of directories whose
      thread has been announced and has not left, so that the unsigned counter never wraps. */
  lemma CountIsWalkers(s: State)
    requires Reachable(s)
    ensures s.walking == Count(s.workers, IsWalking) + if s.main.Registered? && s.main.t.Dir? then 1 else 0
    ensures s.walking >= 0
  {
    ReachableInv(s, One());
  }

  /** Last in, first out: a child goes on top of the stack, the dispatcher takes the top, and nothing
      else moves the stack. */
  lemma TasksMoveAtTheTop(s: State, s': State, step: Step)
    requires NextStep(s, s', step)
    ensures step.PushStep? ==> s.workers[step.i].rest != [] && s'.stack == [s.workers[step.i].rest[0]] + s.stack
    ensures s'.main.Popped? && s'.main != s.main ==> s.stack == [s'.main.t] + s'.stack
    ensures !step.PushStep? && (s'.main == s.main || !s'.main.Popped?) ==> s'.stack == s.stack
  {
  }

  // ---------- the program can always finish ----------

  /** What it takes to start a task and to walk its directory. */
  function Cost(): Tree -> nat { (t: Tree) => if t.Dir? then |t.kids| + 3 else 2 }

  /** What it takes a thread to finish with its directory. */
  function Chores(): Worker -> nat { (k: Worker) => if k.Walking? then |k.rest| + 1 else 0 }

  ghost predicate Quiet(s: State) { Pending(s, Cost()) == 0 && Count(s.workers, IsWalking) == 0 }

  ghost function MainRank(s: State): nat
  {
    match s.main
    case PopHeld => 8
    case Check => 7
    case CheckHeld(_) => 6
    case Pop => if Quiet(s) then 9 else 5
    case Popped(_) => 4
    case Registered(_) => 3
    case Finished => 0
  }

  ghost function Distance(s: State): nat
  {
    10 * Pending(s, Cost()) + 10 * Sum(s.workers, Chores()) + MainRank(s)
  }

  lemma PushNearer(s: State, i: nat)
    requires Enabled(s, PushStep(i))
    ensures Distance(Do(s, PushStep(i))) < Distance(s)
  {
    PushWeighs(s, i, Cost());
    SumUpdate(s.workers, Chores(), i, Walking(s.workers[i].rest[1..]));
    CountPositive(s.workers, IsWalking, i);
  }

  lemma LeaveNearer(s: State, i: nat)
    requires Enabled(s, LeaveStep(i)) && s.workers[i].Walking?
    ensures Distance(Do(s, LeaveStep(i))) < Distance(s)
  {
    LeaveWeighs(s, i, Cost());
    SumUpdate(s.workers, Chores(), i, Gone);
  }

  lemma StartNearer(s: State)
    requires s.main.Registered?
    ensures Distance(DoMain(s)) < Distance(s)
  {
    StartWeighs(s, Cost());
    SumAppend(s.workers, Chores(), Started(s.main.t));
  }

  lemma StackCosts(ts: seq<Tree>)
    ensures ts == [] <==> ForestWeight(ts, Cost()) == 0
  {
    if ts != [] {
      assert Cost()(ts[0]) >= 2;
    }
  }

  lemma MainNearer(s: State)
    requires Inv(s, Cost()) && !s.main.Finished? && (Held(s) || Count(s.workers, IsWalking) == 0)
    ensures Distance(DoMain(s)) < Distance(s)
  {
    if s.main.Registered? {
      StartNearer(s);
      return;
    }
    StackCosts(s.stack);
    if Count(s.workers, IsWalking) == 0 {
      NothingUnpushed(s.workers, Cost());
      return;
    }
  }

  /** Unless the program has finished, some thread has a step that brings the end nearer. */
  lemma Nearer(s: State) returns (step: Step)
    requires Inv(s, Cost()) && !s.main.Finished?
    ensures Enabled(s, step) && Distance(Do(s, step)) < Distance(s)
  {
    if Held(s) || Count(s.workers, IsWalking) == 0 {
      MainNearer(s);
      return MainStep;
    }
    var i := CountWitness(s.workers, IsWalking);
    if s.workers[i].rest != [] {
      PushNearer(s, i);
      return PushStep(i);
    }
    LeaveNearer(s, i);
    return LeaveStep(i);
  }

  /** From every reachable state the program can still come to its end: no count is left too high
      and no task out of reach. */
  lemma {:induction false} CanAlwaysFinish(s: State) returns (s': State)
    requires Reachable(s)
    ensures Runs.Leads(Next, s, s') && s'.main.Finished?
    decreases Distance(s)
  {
    if s.main.Finished? {
      Runs.NoStep(Next, s);
      return s;
    }
    ReachableInv(s, Cost());
    var step := Nearer(s);
    var s1 := Do(s, step);
    assert NextStep(s, s1, step);
    Runs.ReachableStep(Init, Next, s, s1);
    s' := CanAlwaysFinish(s1);
    Runs.OneStep(Next, s, s1);
    Runs.Then(Next, s, s1, s');
  }
}
