/** The linked queue of m.dyagilev/7: values at the head, a tail pointer to append at, and a size
    that the callers count outside the mutex. */
module LinkedQueue {
  import opened Links

  class Queue<T> {
    var head: Node?<T>
    var tail: Node?<T>
    var size: int
    ghost var nodes: seq<Node<T>>

    /** The nodes form a chain from the head to the tail; both pointers are null or neither is. */
    ghost predicate Valid()
      reads this, nodes
    {
      && (nodes == [] <==> head == null) && (nodes == [] <==> tail == null)
      && (nodes != [] ==> head == nodes[0] && tail == nodes[|nodes| - 1]) && Chained(nodes)
      && (forall i, j :: 0 <= i < j < |nodes| ==> nodes[i] != nodes[j])
    }

    ghost function Contents(): seq<T>
      reads this, nodes
    {
      Values(nodes)
    }

    constructor ()
      ensures Valid() && Contents() == [] && size == 0
    {
      head, tail, size, nodes := null, null, 0, [];
    }

    /** The part of `queue_push` under the mutex. */
    method Link(value: T)
      requires Valid()
      modifies this, nodes
      ensures Valid() && Contents() == old(Contents()) + [value] && size == old(size)
      ensures |nodes| == old(|nodes|) + 1 && fresh(nodes[|nodes| - 1]) && nodes[..|nodes| - 1] == old(nodes)
    {
      var node := new Node(value, null);
      if tail != null {
        assert head != null;
        tail.next := node;
        tail := node;
      } else {
        assert head == null;
        head, tail := node, node;
      }
      nodes := nodes + [node];
    }

    /** The part of `queue_pop` under the mutex. */
    method Unlink() returns (value: T)
      requires Valid() && Contents() != []
      modifies this
      ensures Valid() && old(Contents()) == [value] + Contents() && size == old(size)
    {
      ghost var before := Contents();
      assert |nodes| > 1 ==> nodes[0].next == nodes[0 + 1];
      value := head.value;
      head := head.next;
      nodes := nodes[1..];
      if head == null {
        tail := null;
      }
      assert before == [value] + Contents();
    }

    /** `queue_push` by the only thread: the size is raised after the mutex has been released. */
    method Push(value: T)
      requires Valid()
      modifies this, nodes
      ensures Valid() && Contents() == old(Contents()) + [value] && size == old(size) + 1
    {
      Link(value);
      size := size + 1;
    }

    /** `queue_pop` by the only thread, which finds the size raised. */
    method Pop() returns (value: T)
      requires Valid() && Contents() != []
      modifies this
      ensures Valid() && old(Contents()) == [value] + Contents() && size == old(size) - 1
    {
      value := Unlink();
      size := size - 1;
    }
  }
}

/** The tree copy of m.dyagilev/7: the dispatcher counts the tasks it expects and stops at none. */
module TaskQueueProtocol {
  import opened Counting
  import opened Trees
  import Runs

  /** The dispatcher's place in its loop. `Crashed` is the null head that `queue_pop` does not check. */
  datatype Main =
    | Loop              // at the loop condition
    | Poll              // waiting for a nonzero size
    | Take              // has seen a nonzero size
    | Taken(t: Tree)    // has popped, the size not yet lowered
    | Lowered(t: Tree)  // the size lowered, `expected` not yet adjusted
    | Adjusted(t: Tree) // `expected` adjusted, the thread not yet started
    | Finished
    | Crashed

  /** A started thread: a directory thread with the children it has still to push, of which it may
      have linked the first without having raised the size; or a file thread. */
  datatype Worker = Pushing(rest: seq<Tree>, linked: bool) | Copying | Gone

  datatype State = State(
    root: Tree, queue: seq<Tree>, size: int, expected: int, main: Main, workers: seq<Worker>, started: seq<Tree>)

  datatype Step = MainStep | LinkStep(i: nat) | RaiseStep(i: nat) | LeaveStep(i: nat)

  predicate Enabled(s: State, step: Step)
  {
    match step
    case MainStep => !s.main.Finished? && !s.main.Crashed?
    case LinkStep(i) => i < |s.workers| && s.workers[i].Pushing? && !s.workers[i].linked && s.workers[i].rest != []
    case RaiseStep(i) => i < |s.workers| && s.workers[i].Pushing? && s.workers[i].linked && s.workers[i].rest != []
    case LeaveStep(i) => i < |s.workers| && (s.workers[i] == Pushing([], false) || s.workers[i].Copying?)
  }

  function Kids(t: Tree): seq<Tree> { if t.Dir? then t.kids else [] }

  function Started(t: Tree): Worker { if t.Dir? then Pushing(t.kids, false) else Copying }

  function DoMain(s: State): State
  {
    match s.main
    case Loop => s.(main := if s.expected > 0 then Poll else Finished)
    case Poll => s.(main := if s.size == 0 then Poll else Take)
    case Take => if s.queue == [] then s.(main := Crashed) else s.(queue := s.queue[1..], main := Taken(s.queue[0]))
    case Taken(t) => s.(size := s.size - 1, main := Lowered(t))
    case Lowered(t) => s.(expected := s.expected - 1 + |Kids(t)|, main := Adjusted(t))
    case Adjusted(t) => s.(workers := s.workers + [Started(t)], started := s.started + [t], main := Loop)
    case Finished => s
    case Crashed => s
  }

  function Do(s: State, step: Step): State
    requires Enabled(s, step)
  {
    match step
    case MainStep => DoMain(s)
    case LinkStep(i) =>
      var rest := s.workers[i].rest;
      s.(queue := s.queue + [rest[0]], workers := s.workers[i := Pushing(rest, true)])
    case RaiseStep(i) =>
      s.(size := s.size + 1, workers := s.workers[i := Pushing(s.workers[i].rest[1..], false)])
    case LeaveStep(i) => s.(workers := s.workers[i := Gone])
  }

  predicate NextStep(s: State, s': State, step: Step) { Enabled(s, step) && s' == Do(s, step) }

  ghost predicate Next(s: State, s': State) { exists step :: NextStep(s, s', step) }

  /** The first task has been pushed. */
  ghost predicate Init(s: State)
  {
    s == State(s.root, [s.root], 1, 1, Loop, [], [])
  }

  ghost predicate Reachable(s: State) { Runs.Reachable(Init, Next, s) }

  // ---------- the invariant ----------

  /** Children that a thread has not linked yet. */
  function Unlinked(k: Worker): seq<Tree>
  {
    if !k.Pushing? then [] else if k.linked && k.rest != [] then k.rest[1..] else k.rest
  }

  function UnlinkedCount(): Worker -> nat { (k: Worker) => |Unlinked(k)| }

  ghost function UnlinkedWeight(w: Tree -> nat): Worker -> nat { (k: Worker) => ForestWeight(Unlinked(k), w) }

  /** Inside `queue_push`, with the node linked and the size not yet raised. */
  predicate HalfPushed(k: Worker) { k.Pushing? && k.linked }

  ghost function InHand(m: Main, w: Tree -> nat): nat
  {
    if m.Taken? || m.Lowered? || m.Adjusted? then Weight(m.t, w) else 0
  }

  ghost function Pending(s: State, w: Tree -> nat): nat
  {
    InHand(s.main, w) + ForestWeight(s.queue, w) + Sum(s.workers, UnlinkedWeight(w))
  }

  ghost predicate Accounted(s: State, w: Tree -> nat)
  {
    Sum(s.started, w) + Pending(s, w) == Weight(s.root, w)
  }

  /** `expected` is the linked nodes and the children still to be linked, the one in hand included
      until `expected` is adjusted for it. */
  ghost predicate ExpectedInv(s: State)
  {
    s.expected == |s.queue| + Sum(s.workers, UnlinkedCount())
                  + (if s.main.Taken? || s.main.Lowered? then 1 else 0)
                  + (if s.main.Adjusted? then |Kids(s.main.t)| else 0)
  }

  /** `size` is completed pushes minus completed pops. */
  ghost predicate SizeInv(s: State)
  {
    && s.size == |s.queue| - Count(s.workers, HalfPushed) + (if s.main.Taken? then 1 else 0)
    && s.size >= 0 && (s.main.Take? || s.main.Taken? ==> s.size > 0)
  }

  predicate MainInv(s: State)
  {
    && (s.main.Poll? || s.main.Take? ==> s.expected > 0) && (s.main.Finished? ==> s.expected == 0) && !s.main.Crashed?
    && forall i :: 0 <= i < |s.workers| && HalfPushed(s.workers[i]) ==> s.workers[i].rest != []
  }

  ghost predicate Inv(s: State, w: Tree -> nat)
  {
    Accounted(s, w) && ExpectedInv(s) && SizeInv(s) && MainInv(s)
  }

  lemma {:induction false} ForestAppend(ts: seq<Tree>, t: Tree, w: Tree -> nat)
    ensures ForestWeight(ts + [t], w) == ForestWeight(ts, w) + Weight(t, w)
    decreases ts
  {
    if ts == [] {
      assert [] + [t] == [t];
    } else {
      assert (ts + [t])[1..] == ts[1..] + [t];
      ForestAppend(ts[1..], t, w);
    }
  }

  lemma StartWeighs(s: State, w: Tree -> nat)
    requires s.main.Adjusted?
    ensures var s', t := DoMain(s), s.main.t;
            && Sum(s'.started, w) == Sum(s.started, w) + w(t) && Pending(s', w) == Pending(s, w) - w(t)
            && Sum(s'.workers, UnlinkedCount()) == Sum(s.workers, UnlinkedCount()) + |Kids(t)|
            && Count(s'.workers, HalfPushed) == Count(s.workers, HalfPushed)
  {
    var t := s.main.t;
    SumAppend(s.started, w, t);
    SumAppend(s.workers, UnlinkedWeight(w), Started(t));
    SumAppend(s.workers, UnlinkedCount(), Started(t));
    CountAppend(s.workers, HalfPushed, Started(t));
  }

  lemma LinkWeighs(s: State, i: nat, w: Tree -> nat)
    requires Enabled(s, LinkStep(i))
    ensures var s' := Do(s, LinkStep(i));
            && Pending(s', w) == Pending(s, w)
            && Sum(s'.workers, UnlinkedCount()) == Sum(s.workers, UnlinkedCount()) - 1
            && Count(s'.workers, HalfPushed) == Count(s.workers, HalfPushed) + 1
  {
    var k := Pushing(s.workers[i].rest, true);
    SumUpdate(s.workers, UnlinkedWeight(w), i, k);
    SumUpdate(s.workers, UnlinkedCount(), i, k);
    CountUpdate(s.workers, HalfPushed, i, k);
    ForestAppend(s.queue, k.rest[0], w);
  }

  /** Steps that only replace a thread by one with the same unlinked children. */
  lemma SameUnlinked(ws: seq<Worker>, i: nat, k: Worker, w: Tree -> nat)
    requires i < |ws| && Unlinked(k) == Unlinked(ws[i])
    ensures Sum(ws[i := k], UnlinkedWeight(w)) == Sum(ws, UnlinkedWeight(w))
    ensures Sum(ws[i := k], UnlinkedCount()) == Sum(ws, UnlinkedCount())
    ensures Count(ws[i := k], HalfPushed)
            == Count(ws, HalfPushed) - (if HalfPushed(ws[i]) then 1 else 0) + (if HalfPushed(k) then 1 else 0)
  {
    SumUpdate(ws, UnlinkedWeight(w), i, k);
    SumUpdate(ws, UnlinkedCount(), i, k);
    CountUpdate(ws, HalfPushed, i, k);
  }

  lemma StartKeepsInv(s: State, w: Tree -> nat)
    requires Inv(s, w) && s.main.Adjusted?
    ensures Inv(DoMain(s), w)
  {
    StartWeighs(s, w);
  }

  lemma MainKeepsInv(s: State, w: Tree -> nat)
    requires Inv(s, w) && Enabled(s, MainStep)
    ensures Inv(DoMain(s), w)
  {
    if s.main.Adjusted? {
      StartKeepsInv(s, w);
      return;
    }
    if s.main.Take? {
      return;
    }
  }

  lemma LinkKeepsInv(s: State, i: nat, w: Tree -> nat)
    requires Inv(s, w) && Enabled(s, LinkStep(i))
    ensures Inv(Do(s, LinkStep(i)), w)
  {
    LinkWeighs(s, i, w);
  }

  lemma RaiseKeepsInv(s: State, i: nat, w: Tree -> nat)
    requires Inv(s, w) && Enabled(s, RaiseStep(i))
    ensures Inv(Do(s, RaiseStep(i)), w)
  {
    SameUnlinked(s.workers, i, Pushing(s.workers[i].rest[1..], false), w);
  }

  lemma LeaveKeepsInv(s: State, i: nat, w: Tree -> nat)
    requires Inv(s, w) && Enabled(s, LeaveStep(i))
    ensures Inv(Do(s, LeaveStep(i)), w)
  {
    SameUnlinked(s.workers, i, Gone, w);
  }

  lemma StepKeepsInv(s: State, s': State, w: Tree -> nat)
    requires Inv(s, w) && Next(s, s')
    ensures Inv(s', w)
  {
    var step :| NextStep(s, s', step);
    match step {
      case MainStep => MainKeepsInv(s, w);
      case LinkStep(i) => LinkKeepsInv(s, i, w);
      case RaiseStep(i) => RaiseKeepsInv(s, i, w);
      case LeaveStep(i) => LeaveKeepsInv(s, i, w);
    }
  }

  lemma ReachableInv(s: State, w: Tree -> nat)
    requires Reachable(s)
    ensures Inv(s, w)
  {
    var inv := (t: State) => Inv(t, w);
    forall t | Init(t)
      ensures inv(t)
    {
      assert ForestWeight([t.root], w) == Weight(t.root, w);
    }
    forall t, t' | inv(t) && Next(t, t')
      ensures inv(t')
    {
      StepKeepsInv(t, t', w);
    }
    Runs.HoldsWhenReachable(Init, Next, inv, s);
  }

  // ---------- the theorems ----------

  /** The counters mean what they should in every reachable state, and `queue_pop` never meets a
      null head. */
  lemma CountersAreExact(s: State)
    requires Reachable(s)
    ensures ExpectedInv(s) && SizeInv(s) && !s.main.Crashed? && (s.main.Take? ==> s.queue != [])
  {
    ReachableInv(s, One());
  }

  /** First in, first out: a child goes to the end of the queue, the dispatcher takes the front, and
      nothing else moves the queue. */
  lemma TasksMoveInOrder(s: State, s': State, step: Step)
    requires NextStep(s, s', step)
    ensures step.LinkStep? ==> s.workers[step.i].rest != [] && s'.queue == s.queue + [s.workers[step.i].rest[0]]
    ensures s'.main.Taken? && s'.main != s.main ==> s.queue == [s'.main.t] + s'.queue
    ensures !step.LinkStep? && (s'.main == s.main || !s'.main.Taken?) ==> s'.queue == s.queue
  {
  }

  lemma {:induction false} NothingUnlinked(ws: seq<Worker>, w: Tree -> nat)
    requires Sum(ws, UnlinkedCount()) == 0
    ensures Sum(ws, UnlinkedWeight(w)) == 0
    ensures forall i :: 0 <= i < |ws| ==> Unlinked(ws[i]) == []
  {
    if ws != [] {
      NothingUnlinked(ws[..|ws| - 1], w);
      assert UnlinkedCount()(ws[|ws| - 1]) == 0;
    }
  }

  /** When the loop ends every directory and file has been given to a thread exactly once, the queue
      is empty and no thread is inside `queue_push` or will ever enter it. */
  lemma FinishedMeansDone(s: State)
    requires Reachable(s) && s.main.Finished?
    ensures multiset(s.started) == Nodes(s.root)
    ensures s.queue == [] && s.size == 0
    ensures forall i :: 0 <= i < |s.workers| && s.workers[i].Pushing? ==> s.workers[i] == Pushing([], false)
  {
    forall x: Tree
      ensures multiset(s.started)[x] == Nodes(s.root)[x]
    {
      ReachableInv(s, Is(x));
      NothingUnlinked(s.workers, Is(x));
      NodesWeigh(s.root, x);
      SequenceWeighs(s.started, x);
    }
    ReachableInv(s, One());
    NothingUnlinked(s.workers, One());
    CountZero(s.workers, HalfPushed);
  }

  // ---------- the program can always finish ----------

  function Cost(): Tree -> nat { (t: Tree) => 2 * |Kids(t)| + 3 }

  function Chores(): Worker -> nat
  {
    (k: Worker) => if k.Pushing? then 2 * |k.rest| + (if k.linked then 0 else 1) else 0
  }

  function MainRank(m: Main): nat
  {
    match m
    case Loop => 6 case Poll => 5 case Take => 4 case Taken(_) => 3 case Lowered(_) => 2
    case Adjusted(_) => 1 case Finished => 0 case Crashed => 0
  }

  ghost function Distance(s: State): nat
  {
    10 * Pending(s, Cost()) + 10 * Sum(s.workers, Chores()) + MainRank(s.main)
  }

  lemma StartNearer(s: State)
    requires s.main.Adjusted?
    ensures Distance(DoMain(s)) < Distance(s)
  {
    StartWeighs(s, Cost());
    SumAppend(s.workers, Chores(), Started(s.main.t));
    assert Chores()(Started(s.main.t)) + 2 <= Cost()(s.main.t);
  }

  lemma MainNearer(s: State)
    requires Inv(s, Cost()) && Enabled(s, MainStep) && (s.main.Poll? ==> s.size > 0)
    ensures Distance(DoMain(s)) < Distance(s)
  {
    if s.main.Adjusted? {
      StartNearer(s);
      return;
    }
    if s.main.Take? {
      assert DoMain(s).main.Taken?;
      return;
    }
  }

  lemma LinkNearer(s: State, i: nat)
    requires Enabled(s, LinkStep(i))
    ensures Distance(Do(s, LinkStep(i))) < Distance(s)
  {
    LinkWeighs(s, i, Cost());
    SumUpdate(s.workers, Chores(), i, Pushing(s.workers[i].rest, true));
  }

  lemma RaiseNearer(s: State, i: nat)
    requires Enabled(s, RaiseStep(i))
    ensures Distance(Do(s, RaiseStep(i))) < Distance(s)
  {
    var k := Pushing(s.workers[i].rest[1..], false);
    SameUnlinked(s.workers, i, k, Cost());
    SumUpdate(s.workers, Chores(), i, k);
  }

  predicate HasPush(k: Worker) { k.Pushing? && k.rest != [] }

  lemma {:induction false} NoPushNoCount(ws: seq<Worker>)
    requires Count(ws, HasPush) == 0 && forall i :: 0 <= i < |ws| && HalfPushed(ws[i]) ==> ws[i].rest != []
    ensures Sum(ws, UnlinkedCount()) == 0 && Count(ws, HalfPushed) == 0
  {
    if ws != [] {
      NoPushNoCount(ws[..|ws| - 1]);
      assert ws[|ws| - 1] == ws[|ws| - 1];
    }
  }

  /** Unless the program has finished, some thread has a step that brings the end nearer. */
  lemma Nearer(s: State) returns (step: Step)
    requires Inv(s, Cost()) && !s.main.Finished?
    ensures Enabled(s, step) && Distance(Do(s, step)) < Distance(s)
  {
    if Count(s.workers, HasPush) == 0 {
      NoPushNoCount(s.workers);
      MainNearer(s);
      return MainStep;
    }
    var i := CountWitness(s.workers, HasPush);
    if s.workers[i].linked {
      RaiseNearer(s, i);
      return RaiseStep(i);
    }
    LinkNearer(s, i);
    return LinkStep(i);
  }

  /** From every reachable state the program can still come to its end: the dispatcher never waits
      for a task that nobody will push. */
  lemma {:induction false} CanAlwaysFinish(s: State) returns (s': State)
    requires Reachable(s)
    ensures Runs.Leads(Next, s, s') && s'.main.Finished?
    decreases Distance(s)
  {
    if s.main.Finished? {
      Runs.NoStep(Next, s);
      return s;
    }
    ReachableInv(s, Cost());
    var step := Nearer(s);
    var s1 := Do(s, step);
    assert NextStep(s, s1, step);
    Runs.ReachableStep(Init, Next, s, s1);
    s' := CanAlwaysFinish(s1);
    Runs.OneStep(Next, s, s1);
    Runs.Then(Next, s, s1, s');
  }
}
