/** The print ring of k.romanov/11: `n` threads pass `n + 1` mutexes around so that their lines come
    out in turn, `prints` lines from each.

    A mutex is held from the step that locks it to the step that unlocks it, so who holds what can be
    read off the program counters. */
module PrintRing {
  import opened Counting
  import opened Modular
  import Runs

  datatype Pc =
    | Start            // before the first lock
    | Holding          // has its first mutex, not yet counted
    | Waiting          // counted, at the barrier
    | Ready(i: nat)    // `i` lines printed, holds mutex `i` of its own round trip
    | Locked(i: nat)   // holds mutexes `i` and `i + 1`, about to print
    | Printed(i: nat)  // has printed, still holds both
    | Done

  datatype State = State(prints: nat, counter: nat, pcs: seq<Pc>, log: seq<nat>)

  /** The mutex at place `i` of the round trip of thread `r`. */
  function Mutex(n: nat, r: nat, i: nat): nat
    requires r < n
  {
    var total := n + 1;
    (i + (total - r) % total) % total
  }

  /** Thread `r` at `pc` holds mutex `l`. */
  predicate Holds(n: nat, pc: Pc, r: nat, l: nat)
    requires r < n
  {
    match pc
    case Start => false
    case Holding => l == Mutex(n, r, 0)
    case Waiting => l == Mutex(n, r, 0)
    case Ready(i) => l == Mutex(n, r, i)
    case Locked(i) => l == Mutex(n, r, i) || l == Mutex(n, r, i + 1)
    case Printed(i) => l == Mutex(n, r, i) || l == Mutex(n, r, i + 1)
    case Done => false
  }

  predicate Free(s: State, l: nat)
  {
    forall r :: 0 <= r < |s.pcs| ==> !Holds(|s.pcs|, s.pcs[r], r, l)
  }

  /** The next step of thread `r` can be taken. */
  predicate Enabled(s: State, r: nat)
  {
    && r < |s.pcs|
    && match s.pcs[r]
       case Start => Free(s, Mutex(|s.pcs|, r, 0))
       case Waiting => s.counter >= |s.pcs|
       case Ready(i) => i >= s.prints || Free(s, Mutex(|s.pcs|, r, i + 1))
       case Done => false
       case _ => true
  }

  function Do(s: State, r: nat): State
    requires Enabled(s, r)
  {
    match s.pcs[r]
    case Start => s.(pcs := s.pcs[r := Holding])
    case Holding => s.(counter := s.counter + 1, pcs := s.pcs[r := Waiting])
    case Waiting => s.(pcs := s.pcs[r := Ready(0)])
    case Ready(i) => s.(pcs := s.pcs[r := if i < s.prints then Locked(i) else Done])
    case Locked(i) => s.(pcs := s.pcs[r := Printed(i)], log := s.log + [r])
    case Printed(i) => s.(pcs := s.pcs[r := Ready(i + 1)])
    case Done => s
  }

  predicate NextStep(s: State, s': State, r: nat) { Enabled(s, r) && s' == Do(s, r) }

  ghost predicate Next(s: State, s': State) { exists r: nat :: NextStep(s, s', r) }

  ghost predicate Init(s: State)
  {
    |s.pcs| >= 1 && s.counter == 0 && s.log == [] && forall r :: 0 <= r < |s.pcs| ==> s.pcs[r] == Start
  }

  ghost predicate Reachable(s: State) { Runs.Reachable(Init, Next, s) }

  // ---------- mutex arithmetic ----------

  lemma MutexIs(n: nat, r: nat, i: nat)
    requires r < n
    ensures Mutex(n, r, i) == (i + n + 1 - r) % (n + 1)
  {
    if r == 0 {
      DivModUnique(n + 1, n + 1, 1, 0);
      Period(i, n + 1);
    } else {
      DivModUnique(n + 1 - r, n + 1, 0, n + 1 - r);
    }
  }

  /** Places less than a whole round apart are different mutexes. */
  lemma MutexDiffers(n: nat, r: nat, i: nat, r': nat, i': nat)
    requires r < n && r' < n && 0 < (i' - r') - (i - r) <= n
    ensures Mutex(n, r, i) != Mutex(n, r', i')
  {
    MutexIs(n, r, i);
    MutexIs(n, r', i');
    NoRepeat(i + n + 1 - r, i' + n + 1 - r', n + 1);
  }

  /** The thread that prints before `r`. */
  function Before(n: nat, r: nat): nat
    requires r < n
  {
    if r == 0 then n - 1 else r - 1
  }

  /** What a thread wants next is where the thread before it stands, or has just moved to. */
  lemma WantedIsBefore(n: nat, r: nat, i: nat)
    requires r < n && (r == 0 ==> i > 0)
    ensures Mutex(n, r, i + 1) == Mutex(n, Before(n, r), if r == 0 then i - 1 else i)
  {
    var j := if r == 0 then i - 1 else i;
    MutexIs(n, r, i + 1);
    MutexIs(n, Before(n, r), j);
    if r == 0 {
      Period(i + 1, n + 1);
    }
  }

  // ---------- whose turn it is ----------

  /** The round and the thread of line `k`. */
  function Turn(n: nat, k: nat): (t: (nat, nat))
    requires n > 0
    ensures t.1 < n && k == n * t.0 + t.1
  {
    if k == 0 then (0, 0)
    else
      var (q, m) := Turn(n, k - 1);
      if m + 1 == n then (q + 1, 0) else (q, m + 1)
  }

  lemma TurnIsRemainder(n: nat, k: nat)
    requires n > 0
    ensures Turn(n, k).1 == k % n
  {
    var t := Turn(n, k);
    DivModUnique(k, n, t.0, t.1);
  }

  // ---------- the invariant ----------

  function Lines(prints: nat, pc: Pc): nat
  {
    match pc
    case Ready(i) => i
    case Locked(i) => i
    case Printed(i) => i + 1
    case Done => prints
    case _ => 0
  }

  predicate Early(pc: Pc) { pc.Start? || pc.Holding? || pc.Waiting? }

  predicate Counted(pc: Pc) { !pc.Start? && !pc.Holding? }

  /** Thread `r` at `pc` is where it should be when thread `m` is to print in round `q`. */
  predicate InPlace(n: nat, prints: nat, pc: Pc, r: nat, q: nat, m: nat)
    requires r < n && m < n
  {
    && Lines(prints, pc) == (if r < m then q + 1 else q) <= prints
    && (pc.Locked? ==> r == m && pc.i < prints)
    && (pc.Printed? ==> r == Before(n, m))
  }

  predicate RingInv(s: State)
  {
    && |s.pcs| >= 1
    && var t := Turn(|s.pcs|, |s.log|);
       forall r :: 0 <= r < |s.pcs| ==> InPlace(|s.pcs|, s.prints, s.pcs[r], r, t.0, t.1)
  }

  ghost predicate BarrierInv(s: State)
  {
    && s.counter == Count(s.pcs, Counted)
    && (s.counter < |s.pcs| ==> forall r :: 0 <= r < |s.pcs| ==> Early(s.pcs[r]))
  }

  predicate LogInv(s: State)
    requires |s.pcs| >= 1
  {
    forall k :: 0 <= k < |s.log| ==> s.log[k] == Turn(|s.pcs|, k).1
  }

  /** Nobody is about to print while the thread before still holds the mutex between them. */
  predicate HandOver(s: State)
  {
    forall r :: 0 <= r < |s.pcs| && s.pcs[r].Locked? ==> !s.pcs[Before(|s.pcs|, r)].Printed?
  }

  ghost predicate Inv(s: State) { RingInv(s) && BarrierInv(s) && LogInv(s) && HandOver(s) }

  /** Past the barrier everyone has been counted. */
  lemma AllCounted(s: State, r: nat)
    requires BarrierInv(s) && r < |s.pcs| && !Early(s.pcs[r])
    ensures forall j :: 0 <= j < |s.pcs| ==> Counted(s.pcs[j])
  {
    CountFull(s.pcs, Counted);
  }

  /** The thread before one whose turn it is not holds what that one wants. */
  lemma WantedIsHeld(s: State, r: nat)
    requires RingInv(s) && BarrierInv(s) && r < |s.pcs| && s.pcs[r].Ready? && s.pcs[r].i < s.prints
    requires r != Turn(|s.pcs|, |s.log|).1
    ensures !Free(s, Mutex(|s.pcs|, r, s.pcs[r].i + 1))
  {
    var n, i := |s.pcs|, s.pcs[r].i;
    var (q, m) := Turn(n, |s.log|);
    var b := Before(n, r);
    assert InPlace(n, s.prints, s.pcs[r], r, q, m) && InPlace(n, s.prints, s.pcs[b], b, q, m);
    AllCounted(s, r);
    WantedIsBefore(n, r, i);
    assert Counted(s.pcs[b]);
    assert Holds(n, s.pcs[b], b, Mutex(n, r, i + 1));
  }

  /** A thread that has printed and not let go holds what the next one wants. */
  lemma PrintedHoldsWanted(s: State, r: nat)
    requires RingInv(s) && r == Turn(|s.pcs|, |s.log|).1 && s.pcs[r].Ready? && s.pcs[Before(|s.pcs|, r)].Printed?
    ensures !Free(s, Mutex(|s.pcs|, r, s.pcs[r].i + 1))
  {
    var n, i := |s.pcs|, s.pcs[r].i;
    var q, b := Turn(n, |s.log|).0, Before(n, r);
    assert InPlace(n, s.prints, s.pcs[r], r, q, r) && InPlace(n, s.prints, s.pcs[b], b, q, r);
    WantedIsBefore(n, r, i);
    assert Holds(n, s.pcs[b], b, Mutex(n, r, i + 1));
  }

  lemma LockKeepsInv(s: State, r: nat)
    requires Inv(s) && Enabled(s, r) && s.pcs[r].Ready? && s.pcs[r].i < s.prints
    ensures Inv(Do(s, r))
  {
    var n := |s.pcs|;
    var t := Turn(n, |s.log|);
    if r != t.1 {
      WantedIsHeld(s, r);
      assert false;
    }
    assert InPlace(n, s.prints, s.pcs[r], r, t.0, t.1);
    CountUpdate(s.pcs, Counted, r, Do(s, r).pcs[r]);
    AllCounted(s, r);
    if s.pcs[Before(n, r)].Printed? {
      PrintedHoldsWanted(s, r);
      assert false;
    }
  }

  lemma PrintKeepsInv(s: State, r: nat)
    requires Inv(s) && Enabled(s, r) && s.pcs[r].Locked?
    ensures Inv(Do(s, r))
  {
    var n, s' := |s.pcs|, Do(s, r);
    var (q, m) := Turn(n, |s.log|);
    var (q', m') := Turn(n, |s'.log|);
    assert InPlace(n, s.prints, s.pcs[r], r, q, m);
    forall j | 0 <= j < n
      ensures InPlace(n, s.prints, s'.pcs[j], j, q', m') && !s'.pcs[j].Locked?
    {
      assert InPlace(n, s.prints, s.pcs[j], j, q, m);
    }
    CountUpdate(s.pcs, Counted, r, s'.pcs[r]);
    AllCounted(s, r);
  }

  /** The steps up to the barrier. */
  lemma EarlyKeepsInv(s: State, r: nat)
    requires Inv(s) && Enabled(s, r) && Early(s.pcs[r])
    ensures Inv(Do(s, r))
  {
    var n, s' := |s.pcs|, Do(s, r);
    var t := Turn(n, |s.log|);
    assert InPlace(n, s.prints, s.pcs[r], r, t.0, t.1);
    CountUpdate(s.pcs, Counted, r, s'.pcs[r]);
  }

  /** The steps that let go of a mutex. */
  lemma UnlockKeepsInv(s: State, r: nat)
    requires Inv(s) && Enabled(s, r) && (s.pcs[r].Printed? || (s.pcs[r].Ready? && s.pcs[r].i >= s.prints))
    ensures Inv(Do(s, r))
  {
    var n, s' := |s.pcs|, Do(s, r);
    var t := Turn(n, |s.log|);
    assert InPlace(n, s.prints, s.pcs[r], r, t.0, t.1);
    CountUpdate(s.pcs, Counted, r, s'.pcs[r]);
    AllCounted(s, r);
  }

  lemma StepKeepsInv(s: State, s': State)
    requires Inv(s) && Next(s, s')
    ensures Inv(s')
  {
    var r: nat :| NextStep(s, s', r);
    if s.pcs[r].Locked? {
      PrintKeepsInv(s, r);
    } else if s.pcs[r].Ready? && s.pcs[r].i < s.prints {
      LockKeepsInv(s, r);
    } else if Early(s.pcs[r]) {
      EarlyKeepsInv(s, r);
    } else {
      UnlockKeepsInv(s, r);
    }
  }

  lemma ReachableInv(s: State)
    requires Reachable(s)
    ensures Inv(s)
  {
    forall t | Init(t)
      ensures Inv(t)
    {
      CountZero(t.pcs, Counted);
    }
    forall t, t' | Inv(t) && Next(t, t')
      ensures Inv(t')
    {
      StepKeepsInv(t, t');
    }
    Runs.HoldsWhenReachable(Init, Next, Inv, s);
  }

  // ---------- the theorems ----------

  /** The k-th line comes from thread `k` modulo the number of threads. */
  lemma LinesComeInTurn(s: State, k: nat)
    requires Reachable(s) && k < |s.log|
    ensures |s.pcs| > 0 && s.log[k] == k % |s.pcs|
  {
    ReachableInv(s);
    TurnIsRemainder(|s.pcs|, k);
  }

  predicate AllDone(s: State) { forall r :: 0 <= r < |s.pcs| ==> s.pcs[r].Done? }

  /** Before the barrier every first mutex is free for its thread. */
  lemma FirstMutexFree(s: State, r: nat)
    requires Inv(s) && r < |s.pcs| && s.pcs[r].Start?
    ensures Free(s, Mutex(|s.pcs|, r, 0))
  {
    var n := |s.pcs|;
    CountFull(s.pcs, Counted);
    forall j | 0 <= j < n
      ensures !Holds(n, s.pcs[j], j, Mutex(n, r, 0))
    {
      assert Early(s.pcs[j]);
      if j < r {
        MutexDiffers(n, r, 0, j, 0);
      } else if j > r {
        MutexDiffers(n, j, 0, r, 0);
      }
    }
  }

  /** When everyone waits for a mutex, the one whose turn it is can have it. */
  lemma TurnMutexFree(s: State)
    requires Inv(s) && forall r :: 0 <= r < |s.pcs| ==> s.pcs[r].Done? || s.pcs[r].Ready?
    ensures var t := Turn(|s.pcs|, |s.log|); Free(s, Mutex(|s.pcs|, t.1, t.0 + 1))
  {
    var n := |s.pcs|;
    var (q, m) := Turn(n, |s.log|);
    forall r | 0 <= r < n
      ensures !Holds(n, s.pcs[r], r, Mutex(n, m, q + 1))
    {
      assert InPlace(n, s.prints, s.pcs[r], r, q, m);
      if r < m {
        MutexDiffers(n, m, q + 1, r, q + 1);
      } else {
        MutexDiffers(n, r, q, m, q + 1);
      }
    }
  }

  /** Until all threads are done some thread can step, also while early finishers let go. */
  lemma NeverStuck(s: State)
    requires Reachable(s)
    ensures AllDone(s) || exists r: nat :: Enabled(s, r)
  {
    ReachableInv(s);
    var n := |s.pcs|;
    if r :| 0 <= r < n && (s.pcs[r].Holding? || s.pcs[r].Locked? || s.pcs[r].Printed?) {
      assert Enabled(s, r);
    } else if r :| 0 <= r < n && s.pcs[r].Start? {
      FirstMutexFree(s, r);
      assert Enabled(s, r);
    } else if r :| 0 <= r < n && s.pcs[r].Waiting? {
      CountFull(s.pcs, Counted);
      assert Enabled(s, r);
    } else if r :| 0 <= r < n && s.pcs[r].Ready? && s.pcs[r].i >= s.prints {
      assert Enabled(s, r);
    } else if r :| 0 <= r < n && s.pcs[r].Ready? {
      var m := TurnCanLock(s, r);
      assert Enabled(s, m);
    }
  }

  lemma TurnCanLock(s: State, r: nat) returns (m: nat)
    requires Inv(s) && r < |s.pcs| && s.pcs[r].Ready? && s.pcs[r].i < s.prints
    requires forall j :: 0 <= j < |s.pcs| ==> s.pcs[j].Done? || s.pcs[j].Ready?
    ensures Enabled(s, m)
  {
    var n := |s.pcs|;
    var t := Turn(n, |s.log|);
    m := t.1;
    assert InPlace(n, s.prints, s.pcs[r], r, t.0, m) && InPlace(n, s.prints, s.pcs[m], m, t.0, m);
    TurnMutexFree(s);
  }

  /** A run that can go no further has printed every line of every thread. */
  lemma EverythingIsPrinted(s: State)
    requires Reachable(s) && forall r: nat :: !Enabled(s, r)
    ensures AllDone(s) && |s.log| == |s.pcs| * s.prints
  {
    ReachableInv(s);
    NeverStuck(s);
    var n := |s.pcs|;
    var (q, m) := Turn(n, |s.log|);
    assert InPlace(n, s.prints, s.pcs[0], 0, q, m) && InPlace(n, s.prints, s.pcs[n - 1], n - 1, q, m);
  }

  /** Steps a thread has left. */
  function Rank(prints: nat): Pc -> nat
  {
    (pc: Pc) =>
      match pc
      case Start => 3 * prints + 5
      case Holding => 3 * prints + 4
      case Waiting => 3 * prints + 3
      case Ready(i) => if i <= prints then 3 * (prints - i) + 2 else 2
      case Locked(i) => if i <= prints then 3 * (prints - i) + 1 else 1
      case Printed(i) => if i <= prints then 3 * (prints - i) else 0
      case Done => 0
  }

  /** Every step uses up one of a fixed number of steps, so that every run is finite. */
  lemma StepsRunOut(s: State, s': State)
    requires Reachable(s) && Next(s, s')
    ensures Sum(s'.pcs, Rank(s.prints)) < Sum(s.pcs, Rank(s.prints))
  {
    ReachableInv(s);
    var r: nat :| NextStep(s, s', r);
    StepRanks(s, r);
    SumUpdate(s.pcs, Rank(s.prints), r, s'.pcs[r]);
  }

  lemma StepRanks(s: State, r: nat)
    requires RingInv(s) && Enabled(s, r)
    ensures var s' := Do(s, r);
            s'.pcs == s.pcs[r := s'.pcs[r]] && Rank(s.prints)(s'.pcs[r]) < Rank(s.prints)(s.pcs[r])
  {
    var t := Turn(|s.pcs|, |s.log|);
    assert InPlace(|s.pcs|, s.prints, s.pcs[r], r, t.0, t.1);
  }
}
