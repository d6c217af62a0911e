/** Any number of threads putting, popping and invalidating the work queue of s.pchelintsev/25.

    Steps are as fine as the code's own synchronisation: counting in, taking the semaphore, the
    unlocked look at `valid`, taking the lock, posting the other semaphore, and the copy with the
    unlock. The posts of `wqInvalidate` and its two unlocked reads are single steps too. */
module WorkQueueProtocol {
  import opened WorkQueueSlots
  import opened Counting
  import Runs

  /** A call: a message to put, or a buffer of `size` bytes to pop into. */
  datatype Op = Put(buf: seq<byte>) | Pop(size: nat)

  /** A call that has returned: its return code, whether the queue refused it, and the bytes copied
      out to the caller. */
  datatype Answer = Answer(op: Op, code: nat, refused: bool, got: seq<byte>)

  datatype Pc =
    | Idle
    | Waiting(op: Op)      // counted in `waiting`, before sem_wait
    | Passed(op: Op)       // sem_wait done, `valid` not yet looked at
    | Seen(op: Op)         // saw `valid`, before the lock
    | Locked(op: Op)       // holds the lock
    | Posted(op: Op)       // holds the lock, `waiting` lowered and the other semaphore posted
    | InvLook              // wqInvalidate has read `waiting` as 0, `valid` not yet looked at
    | InvWant              // wqInvalidate before its lock
    | InvPosting(done: nat, half: bool) // wqInvalidate inside its loop

  /** `calls` holds the put or pop that each thread was last called for; `pushed`, `popped` and
      `answers` are the history of the run. */
  datatype State = State(
    full: nat, free: nat, holder: int, head: nat, tail: nat, slots: seq<seq<byte>>,
    valid: bool, waiting: int, threads: seq<Pc>, calls: seq<Op>,
    pushed: seq<seq<byte>>, popped: seq<seq<byte>>, answers: seq<Answer>)

  datatype Step =
    | Enter(i: nat, op: Op) | Pass(i: nat) | Look(i: nat) | Lock(i: nat) | Post(i: nat) | Finish(i: nat)
    | InvStart(i: nat) | InvPeek(i: nat) | InvLock(i: nat) | InvPost(i: nat) | InvDone(i: nat)

  const NOBODY := -1

  predicate Inside(pc: Pc) { pc.Locked? || pc.Posted? || pc.InvPosting? }

  function With(s: State, i: nat, pc: Pc): State
    requires i < |s.threads|
  {
    s.(threads := s.threads[i := pc])
  }

  /** The semaphore `op` decrements. */
  function Claimed(s: State, op: Op): nat { if op.Pop? then s.full else s.free }

  predicate Shaped(s: State)
  {
    && |s.slots| == WQ_QUEUE_CAP && s.head < WQ_QUEUE_CAP && s.tail < WQ_QUEUE_CAP && |s.calls| == |s.threads|
    && (forall k :: 0 <= k < |s.slots| ==> IsSlot(s.slots[k]))
    && (forall i :: 0 <= i < |s.threads| ==> Sane(s.threads[i]))
  }

  /** The thread is inside a put or a pop. */
  predicate Calling(pc: Pc) { pc.Waiting? || pc.Passed? || pc.Seen? || pc.Locked? || pc.Posted? }

  predicate Sane(pc: Pc) { Calling(pc) && pc.op.Put? ==> Readable(pc.op.buf) }

  /** The thread is at the step's program point and what it waits for is there. */
  predicate Enabled(s: State, step: Step)
  {
    && step.i < |s.threads| && Shaped(s)
    && var pc := s.threads[step.i];
       match step
       case Enter(_, op) => pc.Idle? && s.holder == NOBODY && (op.Put? ==> Readable(op.buf))
       case Pass(_) => pc.Waiting? && Claimed(s, pc.op) > 0
       case Look(_) => pc.Passed?
       case Lock(_) => pc.Seen? && s.holder == NOBODY
       case Post(_) => pc.Locked?
       case Finish(_) => pc.Posted?
       case InvStart(_) => pc.Idle?
       case InvPeek(_) => pc.InvLook?
       case InvLock(_) => pc.InvWant? && s.holder == NOBODY
       case InvPost(_) => pc.InvPosting? && (pc.half || pc.done < s.waiting)
       case InvDone(_) => pc.InvPosting? && !pc.half && pc.done >= s.waiting
  }

  function Refused(s: State, op: Op): State { s.(answers := s.answers + [Answer(op, 0, true, [])]) }

  function Called(s: State, i: nat, op: Op): State
    requires i < |s.calls|
  {
    s.(calls := s.calls[i := op])
  }

  function Do(s: State, step: Step): State
    requires Enabled(s, step)
  {
    var i := step.i;
    var pc := s.threads[i];
    match step
    case Enter(_, op) =>
      var s1 := Called(s, i, op);
      if s.valid then With(s1, i, Waiting(op)).(waiting := s.waiting + 1) else Refused(s1, op)
    case Pass(_) =>
      if pc.op.Pop? then With(s, i, Passed(pc.op)).(full := s.full - 1)
      else With(s, i, Passed(pc.op)).(free := s.free - 1)
    case Look(_) => if s.valid then With(s, i, Seen(pc.op)) else Refused(With(s, i, Idle), pc.op)
    case Lock(_) => With(s, i, Locked(pc.op)).(holder := i)
    case Post(_) =>
      var s1 := With(s, i, Posted(pc.op)).(waiting := s.waiting - 1);
      if pc.op.Pop? then s1.(free := s.free + 1) else s1.(full := s.full + 1)
    case Finish(_) =>
      var s1 := With(s, i, Idle).(holder := NOBODY);
      (match pc.op
       case Pop(size) =>
         var n := CopySize(size);
         s1.(tail := Wrap(s.tail, 1), popped := s.popped + [Text(s.slots[s.tail])],
             answers := s.answers + [Answer(pc.op, n, false, s.slots[s.tail][..n])])
       case Put(buf) =>
         s1.(head := Wrap(s.head, 1), slots := s.slots[s.head := CopyIn(s.slots[s.head], buf)],
             pushed := s.pushed + [Text(buf)],
             answers := s.answers + [Answer(pc.op, TextLen(buf), false, [])]))
    case InvStart(_) => With(s, i, if s.waiting == 0 then InvLook else InvWant)
    case InvPeek(_) => With(s, i, if s.valid then InvWant else Idle)
    case InvLock(_) => With(s, i, InvPosting(0, false)).(holder := i, valid := false)
    case InvPost(_) =>
      if pc.half then With(s, i, InvPosting(pc.done + 1, false)).(free := s.free + 1)
      else With(s, i, InvPosting(pc.done, true)).(full := s.full + 1)
    case InvDone(_) => With(s, i, Idle).(waiting := 0, holder := NOBODY)
  }

  predicate NextStep(s: State, s': State, step: Step)
  {
    Enabled(s, step) && s' == Do(s, step)
  }

  ghost predicate Next(s: State, s': State) { exists step :: NextStep(s, s', step) }

  ghost predicate Init(s: State)
  {
    && s.full == 0 && s.free == WQ_QUEUE_CAP && s.holder == NOBODY && s.head == 0 && s.tail == 0
    && s.valid && s.waiting == 0 && s.pushed == [] && s.popped == [] && s.answers == []
    && Shaped(s)
    && forall i :: 0 <= i < |s.threads| ==> s.threads[i] == Idle
  }

  ghost predicate Reachable(s: State) { Runs.Reachable(Init, Next, s) }

  // ---------- the invariant ----------

  predicate WaitPop(pc: Pc) { pc.Waiting? && pc.op.Pop? }
  predicate WaitPut(pc: Pc) { pc.Waiting? && pc.op.Put? }
  predicate SurePop(pc: Pc) { (pc.Seen? || pc.Locked? || pc.Posted?) && pc.op.Pop? }
  predicate SurePut(pc: Pc) { (pc.Seen? || pc.Locked? || pc.Posted?) && pc.op.Put? }
  predicate PassedPop(pc: Pc) { pc.Passed? && pc.op.Pop? }
  predicate PassedPut(pc: Pc) { pc.Passed? && pc.op.Put? }
  predicate PostedPop(pc: Pc) { pc.Posted? && pc.op.Pop? }
  predicate PostedPut(pc: Pc) { pc.Posted? && pc.op.Put? }
  predicate CountedIn(pc: Pc) { pc.Waiting? || pc.Passed? || pc.Seen? || pc.Locked? }

  /** The counts the invariant speaks about. */
  datatype Tally = Tally(waitPop: nat, waitPut: nat, passedPop: nat, passedPut: nat,
                         surePop: nat, surePut: nat, postedPop: nat, postedPut: nat, counting: nat)

  ghost function TallyOf(ts: seq<Pc>): Tally
  {
    Tally(Count(ts, WaitPop), Count(ts, WaitPut), Count(ts, PassedPop), Count(ts, PassedPut),
          Count(ts, SurePop), Count(ts, SurePut), Count(ts, PostedPop), Count(ts, PostedPut), Count(ts, CountedIn))
  }

  /** Messages put and not yet popped. */
  function Live(s: State): int { |s.pushed| - |s.popped| }

  /** The cursors and slots hold exactly the unread messages, in order. */
  ghost predicate Store(s: State)
  {
    && 0 <= Live(s) <= WQ_QUEUE_CAP && |s.slots| == WQ_QUEUE_CAP
    && s.head == |s.pushed| % WQ_QUEUE_CAP && s.tail == |s.popped| % WQ_QUEUE_CAP
    && s.popped <= s.pushed
    && (forall k :: |s.popped| <= k < |s.pushed| ==> Text(s.slots[k % WQ_QUEUE_CAP]) == s.pushed[k])
  }

  ghost predicate LockInv(s: State)
  {
    && (s.holder == NOBODY || 0 <= s.holder < |s.threads|)
    && forall i :: 0 <= i < |s.threads| ==> (Inside(s.threads[i]) <==> s.holder == i)
  }

  /** While the queue is valid the semaphores account for every slot; whoever has seen it valid
      keeps a slot of its own even after the semaphores have been inflated. */
  predicate Claims(s: State, t: Tally)
  {
    && (s.valid ==>
          && s.full + t.passedPop + t.surePop == Live(s) + t.postedPut
          && s.free + t.passedPut + t.surePut == WQ_QUEUE_CAP - Live(s) + t.postedPop
          && s.waiting == t.counting)
    && t.surePop <= Live(s) + t.postedPut
    && t.surePut <= WQ_QUEUE_CAP - Live(s) + t.postedPop
  }

  /** A `wqInvalidate` is inside its loop. */
  predicate Invalidating(s: State)
  {
    0 <= s.holder < |s.threads| && s.threads[s.holder].InvPosting?
  }

  /** Posts that the running `wqInvalidate` has still to make. */
  function Owed(s: State): (int, int)
  {
    if Invalidating(s) then
      var pc := s.threads[s.holder];
      (Positive(s.waiting - pc.done - if pc.half then 1 else 0), Positive(s.waiting - pc.done))
    else (0, 0)
  }

  function Positive(n: int): nat { if n > 0 then n else 0 }

  /** After invalidation the semaphores, with the posts still owed, cover everyone waiting on them. */
  predicate Released(s: State, t: Tally)
  {
    && (!s.valid ==> s.full + Owed(s).0 >= t.waitPop && s.free + Owed(s).1 >= t.waitPut)
    && (s.valid ==> forall i :: 0 <= i < |s.threads| ==> !s.threads[i].InvPosting?)
    && (!s.valid && !Invalidating(s) ==> s.waiting <= 0)
    && (forall i :: 0 <= i < |s.threads| && s.threads[i].InvPosting? && s.threads[i].half ==>
          s.threads[i].done < s.waiting)
  }

  /** The return code is 0 for a refused call, the length of the message for a put, and the number
      of bytes copied out for a pop. */
  predicate RightCode(r: Answer)
  {
    if r.refused then r.code == 0
    else match r.op
         case Put(buf) => Readable(buf) && r.code == TextLen(buf)
         case Pop(size) => r.code == CopySize(size) == |r.got|
  }

  /** The accepted pops among the calls that have returned, in order. */
  function Received(rs: seq<Answer>): seq<Answer>
  {
    if rs == [] then []
    else
      var r := rs[|rs| - 1];
      Received(rs[..|rs| - 1]) + if r.op.Pop? && !r.refused then [r] else []
  }

  /** The accepted puts among the calls that have returned, in order. */
  function Accepted(rs: seq<Answer>): seq<Answer>
  {
    if rs == [] then []
    else
      var r := rs[|rs| - 1];
      Accepted(rs[..|rs| - 1]) + if r.op.Put? && !r.refused then [r] else []
  }

  /** The caller has put message `m`. */
  predicate Handed(r: Answer, m: seq<byte>) { r.op.Put? && Text(r.op.buf) == m }

  /** The caller was given message `m`, or as much of it as fits into its buffer. */
  predicate Delivered(r: Answer, m: seq<byte>)
  {
    r.op.Pop? && Text(r.got) == if r.op.size < |m| then m[..r.op.size] else m
  }

  ghost predicate Answered(s: State)
  {
    && (forall k :: 0 <= k < |s.answers| ==> RightCode(s.answers[k]))
    && |Received(s.answers)| == |s.popped|
    && (forall k :: 0 <= k < |s.popped| ==> Delivered(Received(s.answers)[k], s.popped[k]))
    && |Accepted(s.answers)| == |s.pushed|
    && (forall k :: 0 <= k < |s.pushed| ==> Handed(Accepted(s.answers)[k], s.pushed[k]))
  }

  /** A thread inside a put or a pop is inside the one it was called for. */
  ghost predicate OwnCalls(s: State)
  {
    && |s.calls| == |s.threads|
    && forall i :: 0 <= i < |s.threads| && Calling(s.threads[i]) ==> s.threads[i].op == s.calls[i]
  }

  ghost predicate Inv(s: State)
  {
    && Shaped(s) && Store(s) && LockInv(s) && Answered(s) && OwnCalls(s)
    && Claims(s, TallyOf(s.threads)) && Released(s, TallyOf(s.threads))
  }

  // ---------- every step keeps it ----------

  function Bit(b: bool): int { if b then 1 else 0 }

  /** How the tally moves when one thread moves from `pc` to `pc'`. */
  predicate Moved(t: Tally, t': Tally, pc: Pc, pc': Pc)
  {
    && t'.waitPop == t.waitPop - Bit(WaitPop(pc)) + Bit(WaitPop(pc'))
    && t'.waitPut == t.waitPut - Bit(WaitPut(pc)) + Bit(WaitPut(pc'))
    && t'.passedPop == t.passedPop - Bit(PassedPop(pc)) + Bit(PassedPop(pc'))
    && t'.passedPut == t.passedPut - Bit(PassedPut(pc)) + Bit(PassedPut(pc'))
    && t'.surePop == t.surePop - Bit(SurePop(pc)) + Bit(SurePop(pc'))
    && t'.surePut == t.surePut - Bit(SurePut(pc)) + Bit(SurePut(pc'))
    && t'.postedPop == t.postedPop - Bit(PostedPop(pc)) + Bit(PostedPop(pc'))
    && t'.postedPut == t.postedPut - Bit(PostedPut(pc)) + Bit(PostedPut(pc'))
    && t'.counting == t.counting - Bit(CountedIn(pc)) + Bit(CountedIn(pc'))
  }

  lemma RetallyWaits(ts: seq<Pc>, i: nat, pc: Pc)
    requires i < |ts|
    ensures Count(ts[i := pc], WaitPop) == Count(ts, WaitPop) - Bit(WaitPop(ts[i])) + Bit(WaitPop(pc))
    ensures Count(ts[i := pc], WaitPut) == Count(ts, WaitPut) - Bit(WaitPut(ts[i])) + Bit(WaitPut(pc))
    ensures Count(ts[i := pc], CountedIn) == Count(ts, CountedIn) - Bit(CountedIn(ts[i])) + Bit(CountedIn(pc))
  {
    CountUpdate(ts, WaitPop, i, pc);
    CountUpdate(ts, WaitPut, i, pc);
    CountUpdate(ts, CountedIn, i, pc);
  }

  lemma RetallyPops(ts: seq<Pc>, i: nat, pc: Pc)
    requires i < |ts|
    ensures Count(ts[i := pc], PassedPop) == Count(ts, PassedPop) - Bit(PassedPop(ts[i])) + Bit(PassedPop(pc))
    ensures Count(ts[i := pc], SurePop) == Count(ts, SurePop) - Bit(SurePop(ts[i])) + Bit(SurePop(pc))
    ensures Count(ts[i := pc], PostedPop) == Count(ts, PostedPop) - Bit(PostedPop(ts[i])) + Bit(PostedPop(pc))
  {
    CountUpdate(ts, PassedPop, i, pc);
    CountUpdate(ts, SurePop, i, pc);
    CountUpdate(ts, PostedPop, i, pc);
  }

  lemma RetallyPuts(ts: seq<Pc>, i: nat, pc: Pc)
    requires i < |ts|
    ensures Count(ts[i := pc], PassedPut) == Count(ts, PassedPut) - Bit(PassedPut(ts[i])) + Bit(PassedPut(pc))
    ensures Count(ts[i := pc], SurePut) == Count(ts, SurePut) - Bit(SurePut(ts[i])) + Bit(SurePut(pc))
    ensures Count(ts[i := pc], PostedPut) == Count(ts, PostedPut) - Bit(PostedPut(ts[i])) + Bit(PostedPut(pc))
  {
    CountUpdate(ts, PassedPut, i, pc);
    CountUpdate(ts, SurePut, i, pc);
    CountUpdate(ts, PostedPut, i, pc);
  }

  lemma Retally(ts: seq<Pc>, i: nat, pc: Pc)
    requires i < |ts|
    ensures Moved(TallyOf(ts), TallyOf(ts[i := pc]), ts[i], pc)
  {
    RetallyWaits(ts, i, pc);
    RetallyPops(ts, i, pc);
    RetallyPuts(ts, i, pc);
  }

  /** Only the lock holder can be posted, so a posted popper excludes posted putters and vice versa. */
  lemma PostedAlone(s: State, i: nat)
    requires LockInv(s) && i < |s.threads| && s.threads[i].Posted?
    ensures s.threads[i].op.Pop? ==> Count(s.threads, PostedPut) == 0 && Count(s.threads, SurePop) > 0
    ensures s.threads[i].op.Put? ==> Count(s.threads, PostedPop) == 0 && Count(s.threads, SurePut) > 0
  {
    if s.threads[i].op.Pop? {
      CountZero(s.threads, PostedPut);
      CountPositive(s.threads, SurePop, i);
    } else {
      CountZero(s.threads, PostedPop);
      CountPositive(s.threads, SurePut, i);
    }
  }

  /** Waiting threads are among the counted ones, so one post each is enough for either semaphore. */
  lemma {:induction false} WaitersAreCounted(ts: seq<Pc>)
    ensures Count(ts, WaitPop) + Count(ts, WaitPut) <= Count(ts, CountedIn)
  {
    if ts != [] {
      WaitersAreCounted(ts[..|ts| - 1]);
    }
  }

  /** Only one thread moves, and it stays sane. */
  lemma OneMoves(s: State, s': State, step: Step)
    requires NextStep(s, s', step)
    ensures s'.threads == s.threads[step.i := s'.threads[step.i]] && Sane(s'.threads[step.i])
    ensures !step.Finish? ==>
              && s'.slots == s.slots && s'.head == s.head && s'.tail == s.tail
              && s'.pushed == s.pushed && s'.popped == s.popped
  {
    assert Sane(s.threads[step.i]);
  }

  /** The slots change only when a call finishes; everything else keeps their shape. */
  lemma StoreKept(s: State, s': State, step: Step)
    requires Shaped(s) && Store(s) && NextStep(s, s', step) && !step.Finish?
    ensures Shaped(s') && Store(s')
  {
    OneMoves(s, s', step);
    SanityKept(s, s', step.i);
  }

  lemma SanityKept(s: State, s': State, i: nat)
    requires Shaped(s) && i < |s.threads| == |s'.threads| && Sane(s'.threads[i])
    requires s'.threads == s.threads[i := s'.threads[i]]
    ensures forall j :: 0 <= j < |s'.threads| ==> Sane(s'.threads[j])
  {
  }

  /** Thread `i` takes the free lock, releases its own, or leaves the lock alone. */
  predicate LockMove(s: State, s': State, i: nat)
    requires i < |s.threads| == |s'.threads|
  {
    var was, is_ := Inside(s.threads[i]), Inside(s'.threads[i]);
    if was == is_ then s'.holder == s.holder
    else if is_ then s.holder == NOBODY && s'.holder == i
    else s'.holder == NOBODY
  }

  lemma LockMoves(s: State, s': State, step: Step)
    requires NextStep(s, s', step)
    ensures |s'.threads| == |s.threads| && LockMove(s, s', step.i)
  {
  }

  lemma LockFrame(s: State, s': State, i: nat)
    requires LockInv(s) && i < |s.threads| == |s'.threads| && LockMove(s, s', i)
    requires s'.threads == s.threads[i := s'.threads[i]]
    ensures LockInv(s')
  {
  }

  lemma LockKept(s: State, s': State, step: Step)
    requires LockInv(s) && NextStep(s, s', step)
    ensures LockInv(s')
  {
    OneMoves(s, s', step);
    LockMoves(s, s', step);
    LockFrame(s, s', step.i);
  }

  lemma ClaimsKept(s: State, s': State, step: Step, t: Tally, t': Tally)
    requires LockInv(s) && Claims(s, t) && Released(s, t) && NextStep(s, s', step)
    requires |s'.threads| == |s.threads| && Moved(t, t', s.threads[step.i], s'.threads[step.i])
    requires !step.Post? && !step.InvDone?
    ensures Claims(s', t')
  {
    if step.Enter? || step.Pass? || step.Look? {
      return;
    } else if step.Lock? || step.Finish? {
      return;
    }
  }

  lemma PostKeepsClaims(s: State, s': State, step: Step, t: Tally, t': Tally)
    requires Claims(s, t) && NextStep(s, s', step)
    requires |s'.threads| == |s.threads| && Moved(t, t', s.threads[step.i], s'.threads[step.i])
    requires step.Post? || (step.InvDone? && !s.valid)
    ensures Claims(s', t')
  {
  }

  lemma ReleasedKept(s: State, s': State, step: Step, t: Tally, t': Tally)
    requires LockInv(s) && Released(s, t) && NextStep(s, s', step)
    requires |s'.threads| == |s.threads| && Moved(t, t', s.threads[step.i], s'.threads[step.i])
    requires !step.InvLock? && !step.InvPost? && !step.InvDone?
    ensures Released(s', t')
  {
    OwedKept(s, s', step);
    if step.Enter? || step.Pass? || step.Look? {
      return;
    }
  }

  lemma OwedKept(s: State, s': State, step: Step)
    requires LockInv(s) && NextStep(s, s', step) && !step.InvLock? && !step.InvPost? && !step.InvDone?
    ensures Invalidating(s') == Invalidating(s) && (Invalidating(s) ==> Owed(s') == Owed(s) && s'.waiting == s.waiting)
    ensures s'.valid == s.valid
  {
    if Invalidating(s) {
      assert Inside(s.threads[s.holder]);
      assert step.i != s.holder;
    }
  }

  /** `wqInvalidate` posts both semaphores once for every counted caller. */
  lemma ReleasedByInvalidate(s: State, s': State, step: Step, t: Tally, t': Tally)
    requires LockInv(s) && Claims(s, t) && Released(s, t) && NextStep(s, s', step)
    requires |s'.threads| == |s.threads| && Moved(t, t', s.threads[step.i], s'.threads[step.i])
    requires step.InvLock? || step.InvPost? || step.InvDone?
    requires t.waitPop + t.waitPut <= t.counting
    ensures Released(s', t')
  {
    assert step.InvLock? || s.holder == step.i;
    assert !step.InvDone? ==> s'.holder == step.i;
  }

  /** The copy into or out of the slot that the caller owns. */
  lemma FinishKeepsStore(s: State, s': State, step: Step)
    requires Inv(s) && NextStep(s, s', step) && step.Finish?
    ensures Shaped(s') && Store(s')
  {
    PostedAlone(s, step.i);
    match s.threads[step.i].op {
      case Pop(_) => PopKeepsStore(s, s');
      case Put(buf) => PutKeepsStore(s, s', buf);
    }
  }

  lemma PopKeepsStore(s: State, s': State)
    requires Shaped(s) && Store(s) && Live(s) > 0
    requires s'.popped == s.popped + [Text(s.slots[s.tail])] && s'.tail == Wrap(s.tail, 1)
    requires s'.pushed == s.pushed && s'.head == s.head && s'.slots == s.slots
    ensures Store(s')
  {
    NextSlot(|s.popped|);
    assert Text(s.slots[|s.popped| % WQ_QUEUE_CAP]) == s.pushed[|s.popped|];
    assert s.pushed[..|s.popped| + 1] == s.popped + [s.pushed[|s.popped|]];
  }

  lemma PutKeepsStore(s: State, s': State, buf: seq<byte>)
    requires Shaped(s) && Store(s) && Live(s) < WQ_QUEUE_CAP && Readable(buf)
    requires s'.pushed == s.pushed + [Text(buf)] && s'.head == Wrap(s.head, 1)
    requires s'.slots == s.slots[s.head := CopyIn(s.slots[s.head], buf)]
    requires s'.popped == s.popped && s'.tail == s.tail
    ensures Store(s')
  {
    PutThenRead(s.slots[s.head], buf);
    NextSlot(|s.pushed|);
    forall k | |s'.popped| <= k < |s'.pushed|
      ensures Text(s'.slots[k % WQ_QUEUE_CAP]) == s'.pushed[k]
    {
      if k < |s.pushed| {
        OtherSlot(k, |s.pushed|);
        assert Text(s.slots[k % WQ_QUEUE_CAP]) == s.pushed[k];
      }
    }
  }

  /** One more return keeps the record of what was delivered. */
  lemma PopAnswerKept(s: State, s': State, r: Answer)
    requires Answered(s) && s'.answers == s.answers + [r]
    requires if r.op.Pop? && !r.refused then |s'.popped| == |s.popped| + 1 && s'.popped[..|s.popped|] == s.popped
             else s'.popped == s.popped
    requires r.op.Pop? && !r.refused ==> Delivered(r, s'.popped[|s.popped|])
    ensures |Received(s'.answers)| == |s'.popped|
    ensures forall k :: 0 <= k < |s'.popped| ==> Delivered(Received(s'.answers)[k], s'.popped[k])
  {
    assert s'.answers[..|s.answers|] == s.answers;
  }

  /** One more return keeps the record of what was put. */
  lemma PutAnswerKept(s: State, s': State, r: Answer)
    requires Answered(s) && s'.answers == s.answers + [r]
    requires s'.pushed == s.pushed + if r.op.Put? && !r.refused then [Text(r.op.buf)] else []
    ensures |Accepted(s'.answers)| == |s'.pushed|
    ensures forall k :: 0 <= k < |s'.pushed| ==> Handed(Accepted(s'.answers)[k], s'.pushed[k])
  {
    assert s'.answers[..|s.answers|] == s.answers;
  }

  lemma AnswerKept(s: State, s': State, r: Answer)
    requires Answered(s) && s'.answers == s.answers + [r] && RightCode(r)
    requires if r.op.Pop? && !r.refused then |s'.popped| == |s.popped| + 1 && s'.popped[..|s.popped|] == s.popped
             else s'.popped == s.popped
    requires r.op.Pop? && !r.refused ==> Delivered(r, s'.popped[|s.popped|])
    requires s'.pushed == s.pushed + if r.op.Put? && !r.refused then [Text(r.op.buf)] else []
    ensures Answered(s')
  {
    PopAnswerKept(s, s', r);
    PutAnswerKept(s, s', r);
  }

  lemma FinishKeepsAnswers(s: State, s': State, step: Step)
    requires Answered(s) && NextStep(s, s', step) && step.Finish?
    ensures Answered(s')
  {
    var op := s.threads[step.i].op;
    assert Sane(s.threads[step.i]);
    if op.Pop? {
      CroppedText(s.slots[s.tail], op.size);
      AnswerKept(s, s', Answer(op, CopySize(op.size), false, s.slots[s.tail][..CopySize(op.size)]));
      return;
    }
    AnswerKept(s, s', Answer(op, TextLen(op.buf), false, []));
  }

  lemma AnswersKept(s: State, s': State, step: Step)
    requires Answered(s) && NextStep(s, s', step)
    ensures Answered(s')
  {
    if step.Finish? {
      FinishKeepsAnswers(s, s', step);
      return;
    }
    OneMoves(s, s', step);
    if step.Enter? || step.Look? {
      RefusalIsAnswered(s, s', step);
      if !s.valid {
        AnswerKept(s, s', Answer(if step.Enter? then step.op else s.threads[step.i].op, 0, true, []));
      }
      return;
    }
    OthersAreNotAnswered(s, s', step);
  }

  lemma CallsMove(s: State, s': State, step: Step)
    requires NextStep(s, s', step)
    ensures |s'.threads| == |s.threads| == |s.calls|
    ensures s'.calls == if step.Enter? then s.calls[step.i := step.op] else s.calls
    ensures Calling(s'.threads[step.i]) && step.Enter? ==> s'.threads[step.i].op == step.op
    ensures Calling(s'.threads[step.i]) && !step.Enter? ==>
              Calling(s.threads[step.i]) && s'.threads[step.i].op == s.threads[step.i].op
  {
  }

  lemma CallsKept(s: State, s': State, step: Step)
    requires OwnCalls(s) && NextStep(s, s', step)
    ensures OwnCalls(s')
  {
    OneMoves(s, s', step);
    CallsMove(s, s', step);
  }

  lemma NextSlot(n: nat)
    ensures Wrap(n % WQ_QUEUE_CAP, 1) == (n + 1) % WQ_QUEUE_CAP
  {
  }

  /** Fewer than `WQ_QUEUE_CAP` apart, two message numbers never share a slot. */
  lemma OtherSlot(k: nat, n: nat)
    requires k < n < k + WQ_QUEUE_CAP
    ensures k % WQ_QUEUE_CAP != n % WQ_QUEUE_CAP
  {
  }

  lemma OneThreadMoves(s: State, s': State, step: Step)
    requires NextStep(s, s', step)
    ensures |s'.threads| == |s.threads| && s'.threads == s.threads[step.i := s'.threads[step.i]]
    ensures Moved(TallyOf(s.threads), TallyOf(s'.threads), s.threads[step.i], s'.threads[step.i])
  {
    assert s'.threads == s.threads[step.i := s'.threads[step.i]];
    Retally(s.threads, step.i, s'.threads[step.i]);
  }

  lemma CountsKept(s: State, s': State, step: Step, t: Tally, t': Tally)
    requires LockInv(s) && Claims(s, t) && Released(s, t) && NextStep(s, s', step)
    requires |s'.threads| == |s.threads| && Moved(t, t', s.threads[step.i], s'.threads[step.i])
    requires t.waitPop + t.waitPut <= t.counting
    ensures Claims(s', t') && Released(s', t')
  {
    if step.Post? || step.InvDone? {
      PostKeepsClaims(s, s', step, t, t');
    } else {
      ClaimsKept(s, s', step, t, t');
    }
    if step.InvLock? || step.InvPost? || step.InvDone? {
      ReleasedByInvalidate(s, s', step, t, t');
    } else {
      ReleasedKept(s, s', step, t, t');
    }
  }

  lemma StepKeepsInv(s: State, s': State, step: Step)
    requires Inv(s) && NextStep(s, s', step)
    ensures Inv(s')
  {
    OneThreadMoves(s, s', step);
    WaitersAreCounted(s.threads);
    LockKept(s, s', step);
    AnswersKept(s, s', step);
    CallsKept(s, s', step);
    if step.Finish? {
      FinishKeepsStore(s, s', step);
    } else {
      StoreKept(s, s', step);
    }
    CountsKept(s, s', step, TallyOf(s.threads), TallyOf(s'.threads));
  }

  lemma InvIsInductive()
    ensures Runs.Inductive(Init, Next, Inv)
  {
    forall s | Init(s) ensures Inv(s) { InitHasInv(s); }
    forall s, s' | Inv(s) && Next(s, s') ensures Inv(s')
    {
      var step :| NextStep(s, s', step);
      StepKeepsInv(s, s', step);
    }
  }

  lemma InitHasInv(s: State)
    requires Init(s)
    ensures Inv(s)
  {
    CountZero(s.threads, WaitPop);
    CountZero(s.threads, WaitPut);
    CountZero(s.threads, PassedPop);
    CountZero(s.threads, PassedPut);
    CountZero(s.threads, SurePop);
    CountZero(s.threads, SurePut);
    CountZero(s.threads, PostedPop);
    CountZero(s.threads, PostedPut);
    CountZero(s.threads, CountedIn);
  }

  lemma ReachableHasInv(s: State)
    requires Reachable(s)
    ensures Inv(s)
  {
    InvIsInductive();
    Runs.HoldsWhenReachable(Init, Next, Inv, s);
  }

  // ---------- the theorems ----------

  /** Messages leave in the order in which they were put and at most `WQ_QUEUE_CAP` are unread: the
      k-th accepted pop hands its caller the message of the k-th accepted put, cropped to the
      caller's buffer. */
  lemma FifoDelivery(s: State)
    requires Reachable(s)
    ensures |Received(s.answers)| <= |Accepted(s.answers)| <= |Received(s.answers)| + WQ_QUEUE_CAP
    ensures forall k :: 0 <= k < |Received(s.answers)| ==>
              && Accepted(s.answers)[k].op.Put?
              && Delivered(Received(s.answers)[k], Text(Accepted(s.answers)[k].op.buf))
    ensures s.popped <= s.pushed && |s.popped| == |Received(s.answers)| && |s.pushed| == |Accepted(s.answers)|
  {
    ReachableHasInv(s);
    forall k | 0 <= k < |Received(s.answers)|
      ensures Accepted(s.answers)[k].op.Put?
      ensures Delivered(Received(s.answers)[k], Text(Accepted(s.answers)[k].op.buf))
    {
      assert Handed(Accepted(s.answers)[k], s.pushed[k]);
      assert Delivered(Received(s.answers)[k], s.popped[k]);
    }
  }

  /** Thread `i` has been given the answer `r`, and nobody else any. */
  predicate Answers(s: State, s': State, i: nat, r: Answer)
    requires i < |s'.threads|
  {
    s'.answers == s.answers + [r] && s'.threads[i].Idle?
  }

  /** A call is refused on the way in or after its semaphore, and only by an invalid queue. */
  lemma RefusalIsAnswered(s: State, s': State, step: Step)
    requires NextStep(s, s', step) && (step.Enter? || step.Look?)
    ensures |s'.threads| == |s.threads|
    ensures s.valid ==> s'.answers == s.answers && Calling(s'.threads[step.i])
    ensures !s.valid ==>
              Answers(s, s', step.i, Answer(if step.Enter? then step.op else s.threads[step.i].op, 0, true, []))
  {
  }

  lemma FinishIsAnswered(s: State, s': State, step: Step)
    requires NextStep(s, s', step) && step.Finish?
    ensures |s'.threads| == |s.threads| && |s'.answers| == |s.answers| + 1
    ensures var r := s'.answers[|s.answers|];
            Answers(s, s', step.i, r) && r.op == s.threads[step.i].op && !r.refused
  {
  }

  lemma OthersAreNotAnswered(s: State, s': State, step: Step)
    requires NextStep(s, s', step) && !step.Enter? && !step.Look? && !step.Finish?
    ensures |s'.threads| == |s.threads| && s'.answers == s.answers
    ensures Calling(s.threads[step.i]) <==> Calling(s'.threads[step.i])
  {
  }

  /** The step answers the call in progress: with a refusal exactly when the thread looks at an
      invalid queue, and with an acceptance exactly when it finishes. */
  predicate AnswersCall(s: State, s': State, step: Step, call: Op)
    requires step.i < |s'.threads|
  {
    if step.Finish? then
      |s'.answers| > |s.answers| && var r := s'.answers[|s.answers|];
      Answers(s, s', step.i, r) && r.op == call && !r.refused && RightCode(r)
    else if (step.Enter? || step.Look?) && !s.valid then Answers(s, s', step.i, Answer(call, 0, true, []))
    else s'.answers == s.answers
  }

  /** Every put or pop is answered once and for itself: while it is not answered its thread stays
      inside it, the answer speaks of the call that the thread entered, with the code that is right
      for it, and a call is refused exactly when the queue was invalid as the thread looked. */
  lemma CallsAreAnswered(s: State, s': State, step: Step)
    requires Reachable(s) && NextStep(s, s', step)
    ensures |s'.threads| == |s.threads| == |s'.calls|
    ensures s'.calls == if step.Enter? then s.calls[step.i := step.op] else s.calls
    ensures AnswersCall(s, s', step, s'.calls[step.i])
    ensures step.Enter? || Calling(s.threads[step.i]) ==>
              (Calling(s'.threads[step.i]) <==> s'.answers == s.answers)
  {
    ReachableHasInv(s);
    CallsMove(s, s', step);
    if step.Finish? {
      FinishIsAnswered(s, s', step);
      AnswersKept(s, s', step);
      assert RightCode(s'.answers[|s.answers|]);
    } else if step.Enter? || step.Look? {
      RefusalIsAnswered(s, s', step);
    } else {
      OthersAreNotAnswered(s, s', step);
    }
  }

  /** What a caller may read off the arguments of its call: the message or the buffer is not empty. */
  predicate Substantial(op: Op)
  {
    match op
    case Put(buf) => buf != [] && buf[0] != 0
    case Pop(size) => size > 0
  }

  /** A caller who takes the return code 0 to mean that the queue refused the call is right exactly
      when it did refuse, or when the message, or the buffer to pop into, was not empty. */
  lemma ZeroMeansRefusedExactlyWhen(s: State, k: nat)
    requires Reachable(s) && k < |s.answers|
    ensures var r := s.answers[k]; (r.code == 0 <==> r.refused) <==> r.refused || Substantial(r.op)
  {
    ReachableHasInv(s);
    var r := s.answers[k];
    assert RightCode(r);
    if r.op.Put? && !r.refused && TextLen(r.op.buf) > 0 {
      assert r.op.buf[0] != 0;
    }
  }

  const EMPTY_MESSAGE: seq<byte> := [0]

  /** The states of one thread that puts the empty message. */
  function EmptyPut(k: nat): State
  {
    var op := Put(EMPTY_MESSAGE);
    var slots := seq(WQ_QUEUE_CAP, _ => seq(WQ_STRING_CAP, _ => 0 as byte));
    var s := State(0, WQ_QUEUE_CAP, NOBODY, 0, 0, slots, true, 0, [Idle], [op], [], [], []);
    if k == 0 then s
    else if k == 1 then s.(threads := [Waiting(op)], waiting := 1)
    else if k == 2 then s.(threads := [Passed(op)], waiting := 1, free := WQ_QUEUE_CAP - 1)
    else if k == 3 then s.(threads := [Seen(op)], waiting := 1, free := WQ_QUEUE_CAP - 1)
    else if k == 4 then s.(threads := [Locked(op)], waiting := 1, free := WQ_QUEUE_CAP - 1, holder := 0)
    else s.(threads := [Posted(op)], full := 1, free := WQ_QUEUE_CAP - 1, holder := 0)
  }

  lemma EmptyPutSteps(k: nat) returns (step: Step)
    requires k < 5
    ensures NextStep(EmptyPut(k), EmptyPut(k + 1), step)
  {
    var op := Put(EMPTY_MESSAGE);
    step := if k == 0 then Enter(0, op) else if k == 1 then Pass(0) else if k == 2 then Look(0)
            else if k == 3 then Lock(0) else Post(0);
    assert TextLen(EMPTY_MESSAGE) == 0;
  }

  lemma {:induction false} EmptyPutReached(k: nat)
    requires k <= 5
    ensures Reachable(EmptyPut(k))
  {
    if k == 0 {
      Runs.ReachableInit(Init, Next, EmptyPut(0));
    } else {
      EmptyPutReached(k - 1);
      var step := EmptyPutSteps(k - 1);
      Runs.ReachableStep(Init, Next, EmptyPut(k - 1), EmptyPut(k));
    }
  }

  /** The case does occur: the empty message is accepted and the call returns 0. */
  lemma EmptyPutLooksRefused() returns (s: State)
    ensures Reachable(s) && s.answers == [Answer(Put(EMPTY_MESSAGE), 0, false, [])] && s.pushed == [[]]
  {
    EmptyPutReached(5);
    assert TextLen(EMPTY_MESSAGE) == 0;
    s := Do(EmptyPut(5), Finish(0));
    assert NextStep(EmptyPut(5), s, Finish(0));
    Runs.ReachableStep(Init, Next, EmptyPut(5), s);
  }

  /** The caller about to copy owns its slot: a put writes a slot with no unread message and a pop
      reads the oldest unread one. This includes callers who saw the queue valid just before the
      semaphores were inflated. */
  lemma SlotsNeverClash(s: State, i: nat)
    requires Reachable(s) && i < |s.threads| && s.threads[i].Posted?
    ensures |s.slots| == WQ_QUEUE_CAP && s.head < WQ_QUEUE_CAP && s.tail < WQ_QUEUE_CAP
    ensures s.threads[i].op.Put? ==>
              forall k :: |s.popped| <= k < |s.pushed| ==> k % WQ_QUEUE_CAP != s.head
    ensures s.threads[i].op.Pop? ==>
              |s.popped| < |s.pushed| && Text(s.slots[s.tail]) == s.pushed[|s.popped|]
  {
    ReachableHasInv(s);
    PostedAlone(s, i);
    if s.threads[i].op.Put? {
      forall k | |s.popped| <= k < |s.pushed|
        ensures k % WQ_QUEUE_CAP != s.head
      {
        OtherSlot(k, |s.pushed|);
      }
    }
  }

  lemma NobodyIsBlocked(s: State)
    requires Inv(s) && !s.valid && Owed(s) == (0, 0)
    ensures s.full >= Count(s.threads, WaitPop) && s.free >= Count(s.threads, WaitPut)
    ensures forall i :: 0 <= i < |s.threads| && s.threads[i].Waiting? ==> Claimed(s, s.threads[i].op) > 0
  {
    forall i | 0 <= i < |s.threads| && s.threads[i].Waiting?
      ensures Claimed(s, s.threads[i].op) > 0
    {
      if s.threads[i].op.Pop? {
        CountPositive(s.threads, WaitPop, i);
      } else {
        CountPositive(s.threads, WaitPut, i);
      }
    }
  }

  /** Once `wqInvalidate` has made its posts, each semaphore covers all callers waiting on it, so
      none of them is blocked. Later steps keep this, those of a second `wqInvalidate` included:
      nothing is ever owed again and nobody new is counted in. */
  lemma InvalidateReleasesAll(s: State)
    requires Reachable(s) && !s.valid && Owed(s) == (0, 0)
    ensures s.full >= Count(s.threads, WaitPop) && s.free >= Count(s.threads, WaitPut)
    ensures forall i :: 0 <= i < |s.threads| && s.threads[i].Waiting? ==> Claimed(s, s.threads[i].op) > 0
    ensures forall step :: Enabled(s, step) ==>
              && !Do(s, step).valid && Owed(Do(s, step)) == (0, 0)
              && Count(Do(s, step).threads, CountedIn) <= Count(s.threads, CountedIn)
  {
    ReachableHasInv(s);
    NobodyIsBlocked(s);
    forall step | Enabled(s, step)
      ensures !Do(s, step).valid && Owed(Do(s, step)) == (0, 0)
      ensures Count(Do(s, step).threads, CountedIn) <= Count(s.threads, CountedIn)
    {
      NobodyNewIsCounted(s, step);
      OwedFalls(s, step);
    }
  }

  lemma NobodyNewIsCounted(s: State, step: Step)
    requires !s.valid && Enabled(s, step)
    ensures !Do(s, step).valid && Count(Do(s, step).threads, CountedIn) <= Count(s.threads, CountedIn)
  {
    var s' := Do(s, step);
    assert s'.threads == s.threads[step.i := s'.threads[step.i]];
    CountUpdate(s.threads, CountedIn, step.i, s'.threads[step.i]);
  }

  /** The thread is inside `wqInvalidate`. */
  predicate InInvalidate(pc: Pc) { pc.InvLook? || pc.InvWant? || pc.InvPosting? }

  lemma ValidEndsOnce(s: State, s': State, step: Step)
    requires NextStep(s, s', step)
    ensures s'.valid == (s.valid && !step.InvLock?)
  {
  }

  lemma InvalidateMoves(s: State, s': State, step: Step)
    requires NextStep(s, s', step) && (step.InvStart? || InInvalidate(s.threads[step.i]))
    requires s.threads[step.i].InvPosting? ==> !s.valid
    ensures |s'.threads| == |s.threads|
    ensures InInvalidate(s'.threads[step.i]) || (s'.threads[step.i].Idle? && !step.InvStart? && !s'.valid)
  {
  }

  /** Whoever comes back from `wqInvalidate` leaves the queue invalid, also by the short cut without
      the lock; nothing else makes the queue invalid, and nothing makes it valid again. */
  lemma InvalidateInvalidates(s: State, s': State, step: Step)
    requires Reachable(s) && NextStep(s, s', step)
    ensures |s'.threads| == |s.threads| && s'.valid == (s.valid && !step.InvLock?)
    ensures step.InvStart? || InInvalidate(s.threads[step.i]) ==>
              InInvalidate(s'.threads[step.i]) || (s'.threads[step.i].Idle? && !step.InvStart? && !s'.valid)
  {
    ReachableHasInv(s);
    OneMoves(s, s', step);
    ValidEndsOnce(s, s', step);
    if step.InvStart? || InInvalidate(s.threads[step.i]) {
      InvalidateMoves(s, s', step);
    }
  }

  /** The step a thread inside a call takes next. */
  function Upcoming(s: State, i: nat): Step
    requires i < |s.threads| && !s.threads[i].Idle?
  {
    match s.threads[i]
    case Waiting(_) => Pass(i)
    case Passed(_) => Look(i)
    case Seen(_) => Lock(i)
    case Locked(_) => Post(i)
    case Posted(_) => Finish(i)
    case InvLook => InvPeek(i)
    case InvWant => InvLock(i)
    case InvPosting(done, half) => if half || done < s.waiting then InvPost(i) else InvDone(i)
  }

  /** After invalidation a thread inside a call can take its next step, unless it waits for a lock
      (or for posts) whose holder can take its own. */
  lemma NobodyIsStuck(s: State, i: nat)
    requires Reachable(s) && !s.valid && i < |s.threads| && !s.threads[i].Idle?
    ensures s.holder == NOBODY ==> Enabled(s, Upcoming(s, i))
    ensures s.holder != NOBODY ==>
              && 0 <= s.holder < |s.threads| && !s.threads[s.holder].Idle?
              && Enabled(s, Upcoming(s, s.holder))
  {
    ReachableHasInv(s);
    if s.holder == NOBODY {
      FreeCanStep(s, i);
    } else {
      HolderCanStep(s);
    }
  }

  lemma FreeCanStep(s: State, i: nat)
    requires Inv(s) && !s.valid && s.holder == NOBODY && i < |s.threads| && !s.threads[i].Idle?
    ensures Enabled(s, Upcoming(s, i))
  {
    assert !Inside(s.threads[i]);
    if s.threads[i].Waiting? {
      NobodyIsBlocked(s);
    }
  }

  lemma HolderCanStep(s: State)
    requires Shaped(s) && LockInv(s) && s.holder != NOBODY
    ensures 0 <= s.holder < |s.threads| && !s.threads[s.holder].Idle? && Enabled(s, Upcoming(s, s.holder))
  {
    assert Inside(s.threads[s.holder]);
  }

  function Rank(pc: Pc): nat
  {
    match pc
    case Idle => 0
    case Waiting(_) => 2
    case Passed(_) => 1
    case Seen(_) => 3
    case Locked(_) => 2
    case Posted(_) => 1
    case InvLook => 3
    case InvWant => 2
    case InvPosting(_, _) => 1
  }

  /** Steps left to the calls in progress, the posts of a running `wqInvalidate` included. */
  ghost function Work(s: State): int
  {
    Sum(s.threads, Rank) + Owed(s).0 + Owed(s).1
  }

  /** After invalidation every step of a call in progress uses up work and a new put or pop is
      refused on the spot, so all calls return. */
  lemma CallsRunOut(s: State, step: Step)
    requires Reachable(s) && !s.valid && Enabled(s, step) && !step.InvStart?
    ensures Work(s) >= 0
    ensures step.Enter? ==> Do(s, step) == Refused(Called(s, step.i, step.op), step.op)
    ensures !step.Enter? ==> Work(Do(s, step)) < Work(s)
  {
    ReachableHasInv(s);
    if !step.Enter? {
      StepRanks(s, step);
      SumUpdate(s.threads, Rank, step.i, Do(s, step).threads[step.i]);
      OwedFalls(s, step);
    }
  }

  lemma StepRanks(s: State, step: Step)
    requires Enabled(s, step) && !s.valid && !step.InvStart? && !step.Enter?
    ensures var s' := Do(s, step);
            && s'.threads == s.threads[step.i := s'.threads[step.i]]
            && Rank(s'.threads[step.i]) + (if step.InvPost? then 0 else 1) <= Rank(s.threads[step.i])
  {
  }

  /** Only `wqInvalidate` pays what it owes, and nobody adds to it. */
  lemma OwedFalls(s: State, step: Step)
    requires Inv(s) && Enabled(s, step) && !s.valid
    ensures var s' := Do(s, step);
            Owed(s').0 + Owed(s').1 <= Owed(s).0 + Owed(s).1 - if step.InvPost? then 1 else 0
  {
    var s' := Do(s, step);
    LockKept(s, s', step);
    if Invalidating(s) {
      assert Inside(s.threads[s.holder]);
      if step.i != s.holder {
        assert Owed(s') == Owed(s);
      }
    } else {
      assert Owed(s') == (0, 0);
    }
  }
}
