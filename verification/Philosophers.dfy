/** The dining philosophers of a.yanin/10: everyone takes the fork with the lower number first, and
    the dishes come from a shared store. */
module Philosophers {
  import opened Counting
  import Runs

  /** `food_store_take`. */
  class FoodStore {
    var units: int

    constructor (dishes: nat)
      ensures units == dishes
    {
      units := dishes;
    }

    /** Hands out the number of the topmost dish that is left, and -1 from then on. */
    method Take() returns (dish: int)
      requires units >= -1
      modifies this
      ensures old(units) > 0 ==> dish == units == old(units) - 1
      ensures old(units) <= 0 ==> dish == units == -1
    {
      if units >= 0 {
        units := units - 1;
      }
      dish := units;
    }
  }

  function AfterTake(units: int): int { if units >= 0 then units - 1 else units }

  // ---------- the table ----------

  datatype Pc =
    | Hungry     // about to take a dish
    | Served     // has a dish and no fork
    | OneFork    // has the first fork
    | Eating     // has both forks
    | PuttingDown // has put down the first fork
    | Done

  /** `forks[f]` is the philosopher who holds fork `f`, or `FREE`. */
  datatype State = State(units: int, forks: seq<int>, pcs: seq<Pc>, eaten: nat)

  const FREE := -1

  /** The fork taken first. The last philosopher goes against the crowd. */
  function First(n: nat, i: nat): nat { if i + 1 == n then 0 else i }

  function Second(n: nat, i: nat): nat { if i + 1 == n then i else i + 1 }

  datatype Step = Take(i: nat) | TakeFirst(i: nat) | TakeSecond(i: nat) | PutFirst(i: nat) | PutSecond(i: nat)

  predicate Shaped(s: State) { |s.pcs| == |s.forks| >= 2 }

  predicate Enabled(s: State, step: Step)
  {
    && Shaped(s) && step.i < |s.pcs|
    && var n := |s.pcs|;
       match step
       case Take(i) => s.pcs[i].Hungry?
       case TakeFirst(i) => s.pcs[i].Served? && s.forks[First(n, i)] == FREE
       case TakeSecond(i) => s.pcs[i].OneFork? && s.forks[Second(n, i)] == FREE
       case PutFirst(i) => s.pcs[i].Eating?
       case PutSecond(i) => s.pcs[i].PuttingDown?
  }

  function Do(s: State, step: Step): State
    requires Enabled(s, step)
  {
    var n, i := |s.pcs|, step.i;
    match step
    case Take(_) =>
      var units := AfterTake(s.units);
      s.(units := units, pcs := s.pcs[i := if units != -1 then Served else Done])
    case TakeFirst(_) => s.(forks := s.forks[First(n, i) := i], pcs := s.pcs[i := OneFork])
    case TakeSecond(_) => s.(forks := s.forks[Second(n, i) := i], pcs := s.pcs[i := Eating], eaten := s.eaten + 1)
    case PutFirst(_) => s.(forks := s.forks[First(n, i) := FREE], pcs := s.pcs[i := PuttingDown])
    case PutSecond(_) => s.(forks := s.forks[Second(n, i) := FREE], pcs := s.pcs[i := Hungry])
  }

  predicate NextStep(s: State, s': State, step: Step) { Enabled(s, step) && s' == Do(s, step) }

  ghost predicate Next(s: State, s': State) { exists step :: NextStep(s, s', step) }

  /** `food` dishes, everybody hungry, every fork on the table. */
  ghost predicate Init(s: State, food: nat)
  {
    && Shaped(s) && s.units == food && s.eaten == 0
    && (forall f :: 0 <= f < |s.forks| ==> s.forks[f] == FREE)
    && (forall i :: 0 <= i < |s.pcs| ==> s.pcs[i] == Hungry)
  }

  ghost predicate Reachable(s: State, food: nat) { Runs.Reachable((t: State) => Init(t, food), Next, s) }

  // ---------- the invariant ----------

  predicate HoldsFork(n: nat, pc: Pc, i: nat, f: nat)
  {
    || (f == First(n, i) && (pc.OneFork? || pc.Eating?))
    || (f == Second(n, i) && (pc.Eating? || pc.PuttingDown?))
  }

  predicate ForkInv(s: State)
  {
    && (forall f :: 0 <= f < |s.forks| && s.forks[f] != FREE ==>
          0 <= s.forks[f] < |s.pcs| && HoldsFork(|s.pcs|, s.pcs[s.forks[f]], s.forks[f], f))
    && (forall i, f :: 0 <= i < |s.pcs| && 0 <= f < |s.forks| ==>
          (s.forks[f] == i <==> HoldsFork(|s.pcs|, s.pcs[i], i, f)))
  }

  /** Served and not yet eating. */
  predicate Owed(pc: Pc) { pc.Served? || pc.OneFork? }

  predicate IsDone(pc: Pc) { pc.Done? }

  function Left(units: int): nat { if units > 0 then units else 0 }

  /** Every dish has been eaten, is about to be, or is still in the store. */
  ghost predicate FoodInv(s: State, food: nat)
  {
    && s.units >= -1 && s.eaten + Count(s.pcs, Owed) + Left(s.units) == food
    && (Count(s.pcs, IsDone) > 0 ==> s.units == -1)
  }

  ghost predicate Inv(s: State, food: nat) { Shaped(s) && ForkInv(s) && FoodInv(s, food) }

  lemma ForkRange(n: nat, i: nat)
    requires i < n && n >= 2
    ensures First(n, i) < Second(n, i) < n
  {
  }

  /** A philosopher takes the free fork `f` or puts down his own fork `f`, and holds the others as before. */
  lemma ForkMoves(s: State, i: nat, f: nat, pc: Pc, taken: bool)
    requires Shaped(s) && ForkInv(s) && i < |s.pcs| && f < |s.forks|
    requires s.forks[f] == if taken then FREE else i
    requires forall g :: 0 <= g < |s.forks| && g != f ==>
               (HoldsFork(|s.pcs|, pc, i, g) <==> HoldsFork(|s.pcs|, s.pcs[i], i, g))
    requires HoldsFork(|s.pcs|, pc, i, f) <==> taken
    ensures ForkInv(s.(forks := s.forks[f := if taken then i else FREE], pcs := s.pcs[i := pc]))
  {
  }

  lemma StepKeepsForks(s: State, step: Step)
    requires Enabled(s, step) && ForkInv(s)
    ensures ForkInv(Do(s, step))
  {
    var n := |s.pcs|;
    ForkRange(n, step.i);
    match step {
      case Take(i) => TakeKeepsForks(s, i);
      case TakeFirst(i) => ForkMoves(s, i, First(n, i), OneFork, true);
      case TakeSecond(i) => ForkMoves(s, i, Second(n, i), Eating, true);
      case PutFirst(i) => ForkMoves(s, i, First(n, i), PuttingDown, false);
      case PutSecond(i) => ForkMoves(s, i, Second(n, i), Hungry, false);
    }
  }

  lemma TakeKeepsForks(s: State, i: nat)
    requires Enabled(s, Take(i)) && ForkInv(s)
    ensures ForkInv(Do(s, Take(i)))
  {
  }

  lemma StepKeepsFood(s: State, step: Step, food: nat)
    requires Enabled(s, step) && FoodInv(s, food)
    ensures FoodInv(Do(s, step), food)
  {
    var pc := Do(s, step).pcs[step.i];
    CountUpdate(s.pcs, Owed, step.i, pc);
    CountUpdate(s.pcs, IsDone, step.i, pc);
  }

  lemma ReachableInv(s: State, food: nat)
    requires Reachable(s, food)
    ensures Inv(s, food)
  {
    var init, inv := (t: State) => Init(t, food), (t: State) => Inv(t, food);
    forall t | init(t)
      ensures inv(t)
    {
      CountZero(t.pcs, Owed);
      CountZero(t.pcs, IsDone);
    }
    forall t, t' | inv(t) && Next(t, t')
      ensures inv(t')
    {
      var step :| NextStep(t, t', step);
      StepKeepsForks(t, step);
      StepKeepsFood(t, step, food);
    }
    Runs.HoldsWhenReachable(init, Next, inv, s);
  }

  // ---------- the theorems ----------

  /** Sitting side by side at a round table. */
  predicate Neighbours(n: nat, i: nat, j: nat) { i < n && j < n && (j == (if i + 1 == n then 0 else i + 1)) }

  /** Two neighbours never eat together. */
  lemma NeighboursNeverEatTogether(s: State, food: nat, i: nat, j: nat)
    requires Reachable(s, food) && Neighbours(|s.pcs|, i, j)
    ensures !(s.pcs[i].Eating? && s.pcs[j].Eating?)
  {
    ReachableInv(s, food);
    var n := |s.pcs|;
    ForkRange(n, i);
    ForkRange(n, j);
    var f := if First(n, i) == First(n, j) || First(n, i) == Second(n, j) then First(n, i) else Second(n, i);
    assert s.forks[f] == i <==> HoldsFork(n, s.pcs[i], i, f);
    assert s.forks[f] == j <==> HoldsFork(n, s.pcs[j], j, f);
  }

  predicate WaitsForFork(pc: Pc) { pc.Served? || pc.OneFork? || pc.Done? }

  /** Up the chain of held forks there is a philosopher who can take a second one. */
  lemma {:induction false} SomeoneCanEat(s: State, i: nat) returns (k: nat)
    requires Shaped(s) && ForkInv(s) && i < |s.pcs| && s.pcs[i].OneFork?
    requires forall j :: 0 <= j < |s.pcs| ==> WaitsForFork(s.pcs[j])
    ensures Enabled(s, TakeSecond(k))
    decreases |s.pcs| - First(|s.pcs|, i)
  {
    var n := |s.pcs|;
    var j := s.forks[Second(n, i)];
    if j == FREE {
      return i;
    }
    assert HoldsFork(n, s.pcs[j], j, Second(n, i)) && WaitsForFork(s.pcs[j]);
    k := SomeoneCanEat(s, j);
  }

  lemma NobodyHolds(s: State, f: nat)
    requires Shaped(s) && ForkInv(s) && f < |s.forks|
    requires forall j :: 0 <= j < |s.pcs| ==> s.pcs[j].Served? || s.pcs[j].Done?
    ensures s.forks[f] == FREE
  {
  }

  predicate AllDone(s: State) { forall i :: 0 <= i < |s.pcs| ==> s.pcs[i].Done? }

  /** Until everyone is done, somebody can take a step. */
  lemma NeverStuck(s: State, food: nat)
    requires Reachable(s, food)
    ensures AllDone(s) || exists step :: Enabled(s, step)
  {
    ReachableInv(s, food);
    var n := |s.pcs|;
    if j :| 0 <= j < n && s.pcs[j].Hungry? {
      assert Enabled(s, Take(j));
    } else if j :| 0 <= j < n && s.pcs[j].Eating? {
      assert Enabled(s, PutFirst(j));
    } else if j :| 0 <= j < n && s.pcs[j].PuttingDown? {
      assert Enabled(s, PutSecond(j));
    } else if j :| 0 <= j < n && s.pcs[j].OneFork? {
      var k := SomeoneCanEat(s, j);
      assert Enabled(s, TakeSecond(k));
    } else if i :| 0 <= i < n && s.pcs[i].Served? {
      ForkRange(n, i);
      NobodyHolds(s, First(n, i));
      assert Enabled(s, TakeFirst(i));
    }
  }

  function Rank(pc: Pc): nat
  {
    match pc
    case Hungry => 1 case Served => 5 case OneFork => 4 case Eating => 3 case PuttingDown => 2 case Done => 0
  }

  /** A bound on the steps that are left. */
  ghost function Measure(s: State): nat { StoreRank(s.units) + Sum(s.pcs, Rank) }

  lemma StepDecreases(s: State, s': State, food: nat)
    requires Reachable(s, food) && Next(s, s')
    ensures Measure(s') < Measure(s)
  {
    ReachableInv(s, food);
    var step :| NextStep(s, s', step);
    StepRanks(s, step);
    SumUpdate(s.pcs, Rank, step.i, s'.pcs[step.i]);
  }

  function StoreRank(units: int): nat { 5 * (if units >= 0 then units + 1 else 0) }

  lemma StepRanks(s: State, step: Step)
    requires Enabled(s, step) && s.units >= -1
    ensures var s' := Do(s, step);
            && s'.pcs == s.pcs[step.i := s'.pcs[step.i]]
            && StoreRank(s'.units) + Rank(s'.pcs[step.i]) < StoreRank(s.units) + Rank(s.pcs[step.i])
  {
  }

  /** Every run is finite: the measure of its first state bounds its length. */
  lemma {:induction false} RunsAreBounded(run: seq<State>, food: nat)
    requires Runs.IsRun((t: State) => Init(t, food), Next, run)
    ensures |run| - 1 + Measure(run[|run| - 1]) <= Measure(run[0])
    decreases |run|
  {
    if |run| > 1 {
      var front, init := run[..|run| - 1], (t: State) => Init(t, food);
      assert Next(run[|run| - 2], run[|run| - 2 + 1]);
      assert Runs.IsRun(init, Next, front) && front[|front| - 1] == run[|run| - 2];
      RunsAreBounded(front, food);
      StepDecreases(run[|run| - 2], run[|run| - 1], food);
    }
  }

  /** A run that can go no further has served every dish exactly once and left every fork free. */
  lemma EveryDishIsEaten(s: State, food: nat)
    requires Reachable(s, food) && forall step :: !Enabled(s, step)
    ensures s.eaten == food && s.units == -1
    ensures forall i :: 0 <= i < |s.pcs| ==> s.pcs[i].Done?
    ensures forall f :: 0 <= f < |s.forks| ==> s.forks[f] == FREE
  {
    ReachableInv(s, food);
    NeverStuck(s, food);
    CountZero(s.pcs, Owed);
    CountPositive(s.pcs, IsDone, 0);
    forall f | 0 <= f < |s.forks|
      ensures s.forks[f] == FREE
    {
      NobodyHolds(s, f);
    }
  }
}
