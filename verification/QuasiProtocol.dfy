/** Any number of producers and consumers around the queue of a.yanin/26.

    A thread is a program counter; every mutex-held stretch is one step. Waking follows POSIX:
    a signal unblocks at least one thread sleeping on the condition variable, a broadcast all of
    them, and a sleeper may also wake for no reason. A woken thread still has to take the mutex
    again before it looks at the queue, so any number of steps can pass in between. */
module QuasiProtocol {
  import opened QuasiMonitor
  import opened Counting
  import Runs

  datatype Role = Producer | Consumer

  datatype Op = DoPush(x: Message) | DoPop | DoDrop

  datatype Pc =
    | Idle
    | AtDrop(op: Op, asleep: bool)
    | AtRd(asleep: bool)
    | AtWr(x: Message, asleep: bool)

  /** What a call has returned, with the message that a pop hands out. */
  datatype Result = Nothing | Got(status: Status, got: seq<Message>)

  /** `call` is the operation the thread was last called for, and `hit` records that a drop happened
      while the thread was counted in it. */
  datatype Thread = Thread(role: Role, call: Op, pc: Pc, hit: bool, result: Result)

  /** What left and entered the queue: totals, and the messages of the epoch since the last drop. */
  datatype Log = Log(pushes: nat, pops: nat, discards: nat, epochPushed: seq<Message>, epochPopped: seq<Message>)

  datatype State = State(mon: Monitor, threads: seq<Thread>, log: Log)

  datatype Step = Call(i: nat, op: Op) | Retry(i: nat) | Resume(i: nat) | Spurious(i: nat)

  predicate Counted(t: Thread) { t.pc.AtRd? || t.pc.AtWr? }

  predicate Asleep(t: Thread)
  {
    match t.pc
    case Idle => false
    case AtDrop(_, asleep) => asleep
    case AtRd(asleep) => asleep
    case AtWr(_, asleep) => asleep
  }

  function Awaken(t: Thread): Thread
  {
    match t.pc
    case Idle => t
    case AtDrop(op, _) => t.(pc := AtDrop(op, false))
    case AtRd(_) => t.(pc := AtRd(false))
    case AtWr(x, _) => t.(pc := AtWr(x, false))
  }

  predicate RdAsleep(t: Thread) { t.pc.AtRd? && t.pc.asleep }

  predicate WrAsleep(t: Thread) { t.pc.AtWr? && t.pc.asleep }

  predicate DropAsleep(t: Thread) { t.pc.AtDrop? && t.pc.asleep }

  /** The notification a sleeping thread receives from `w`. */
  function NotifyFor(w: Wake, t: Thread): Notify
  {
    if RdAsleep(t) then w.rd else if WrAsleep(t) then w.wr else if DropAsleep(t) then w.drop else Nobody
  }

  /** `ts'` is a possible outcome of sending the notifications `w` to `ts`. */
  ghost predicate Woken(ts: seq<Thread>, ts': seq<Thread>, w: Wake)
  {
    && |ts'| == |ts|
    && (forall i :: 0 <= i < |ts| ==> ts'[i] == ts[i] || (NotifyFor(w, ts[i]) != Nobody && ts'[i] == Awaken(ts[i])))
    && (forall i :: 0 <= i < |ts| && NotifyFor(w, ts[i]) == All ==> ts'[i] == Awaken(ts[i]))
    && (w.rd == One && (exists i :: 0 <= i < |ts| && RdAsleep(ts[i])) ==>
          exists i :: 0 <= i < |ts| && RdAsleep(ts[i]) && !Asleep(ts'[i]))
    && (w.wr == One && (exists i :: 0 <= i < |ts| && WrAsleep(ts[i])) ==>
          exists i :: 0 <= i < |ts| && WrAsleep(ts[i]) && !Asleep(ts'[i]))
  }

  /** A drop marks every thread that is counted at that moment. */
  function MarkHit(ts: seq<Thread>): seq<Thread>
  {
    seq(|ts|, i requires 0 <= i < |ts| => if Counted(ts[i]) then ts[i].(hit := true) else ts[i])
  }

  function Admit(m: Monitor): Monitor { m.(blocked := m.blocked + 1) }

  /** The section run by a thread that `quasi_lock_clean` lets in. */
  function Enter(m: Monitor, op: Op): Section
  {
    match op
    case DoPush(x) => PushSection(Admit(m), x)
    case DoPop => PopSection(Admit(m))
    case DoDrop => DropSection(m)
  }

  function After(t: Thread, op: Op, fate: Fate): Thread
  {
    match fate
    case Sleeps =>
      t.(pc := match op case DoPush(x) => AtWr(x, true) case DoPop => AtRd(true) case DoDrop => Idle)
    case Returns(status, got) =>
      t.(pc := Idle, result := if op.DoDrop? then Nothing else Got(status, got))
  }

  function Record(log: Log, op: Op, m: Monitor, fate: Fate): Log
  {
    match op
    case DoPush(x) =>
      if fate.Returns? && fate.status == Ok
         then log.(pushes := log.pushes + 1, epochPushed := log.epochPushed + [x]) else log
    case DoPop =>
      if fate.Returns? && fate.status == Ok
         then log.(pops := log.pops + 1, epochPopped := log.epochPopped + fate.got) else log
    case DoDrop =>
      log.(discards := log.discards + |m.queue|, epochPushed := [], epochPopped := [])
  }

  /** Thread `i` runs section `sec` of operation `op` and its notifications take effect. */
  ghost predicate RunsSection(s: State, s': State, i: nat, t: Thread, op: Op, sec: Section)
    requires i < |s.threads|
  {
    var mid := s.threads[i := After(t, op, sec.fate)];
    && s'.mon == sec.mon
    && Woken(if op.DoDrop? then MarkHit(mid) else mid, s'.threads, sec.wake)
    && s'.log == Record(s.log, op, s.mon, sec.fate)
  }

  /** `quasi_lock_clean`: wait while the epoch is dropped, otherwise go in. */
  ghost predicate LockClean(s: State, s': State, i: nat, t: Thread, op: Op)
    requires i < |s.threads|
  {
    if s.mon.state == Dropped then
      s' == s.(threads := s.threads[i := t.(pc := AtDrop(op, true))])
    else
      RunsSection(s, s', i, t, op, Enter(s.mon, op))
  }

  function Called(t: Thread, op: Op): Thread { t.(call := op, hit := false, result := Nothing) }

  /** Producers push and drop; consumers pop and drop. */
  predicate Allowed(role: Role, op: Op)
  {
    op.DoDrop? || (op.DoPush? <==> role == Producer)
  }

  ghost predicate NextStep(s: State, s': State, step: Step)
  {
    && step.i < |s.threads|
    && var t := s.threads[step.i];
       match step
       case Call(i, op) =>
         t.pc.Idle? && Allowed(t.role, op) && LockClean(s, s', i, Called(t, op), op)
       case Retry(i) =>
         t.pc.AtDrop? && !t.pc.asleep && LockClean(s, s', i, t, t.pc.op)
       case Resume(i) =>
         && Counted(t) && !Asleep(t) && s.mon.blocked > 0
         && (if t.pc.AtRd? then RunsSection(s, s', i, t, DoPop, PopSection(s.mon))
             else RunsSection(s, s', i, t, DoPush(t.pc.x), PushSection(s.mon, t.pc.x)))
       case Spurious(i) =>
         Asleep(t) && s' == s.(threads := s.threads[i := Awaken(t)])
  }

  ghost predicate Next(s: State, s': State)
  {
    exists step :: NextStep(s, s', step)
  }

  ghost predicate Init(s: State)
  {
    && s.mon.capacity >= 1 && s.mon == Monitor([], s.mon.capacity, 0, Ok)
    && (forall i :: 0 <= i < |s.threads| ==> s.threads[i].pc == Idle && s.threads[i].result == Nothing)
    && s.log == Log(0, 0, 0, [], [])
  }

  ghost predicate Reachable(s: State) { Runs.Reachable(Init, Next, s) }

  // ---------- the invariant ----------

  /** `blocked_count` is the number of threads inside an operation. */
  ghost predicate CountExact(s: State)
  {
    s.mon.blocked == Count(s.threads, Counted)
  }

  /** The two phases of an epoch. */
  ghost predicate EpochInv(s: State)
  {
    && (s.mon.state == Dropped ==> s.mon.queue == [] && s.mon.blocked > 0)
    && (forall i :: 0 <= i < |s.threads| ==> ThreadInv(s.mon.state, s.threads[i]))
  }

  /** In an open epoch nobody sleeps on `drop_cond` and no counted thread has been hit;
      in a dropped one every counted thread has been hit and is awake. */
  predicate ThreadInv(state: Status, t: Thread)
  {
    && (state == Ok ==> !DropAsleep(t) && (Counted(t) ==> !t.hit))
    && (state == Dropped ==> !RdAsleep(t) && !WrAsleep(t) && (Counted(t) ==> t.hit))
    && (t.result.Got? ==> (t.result.status == Dropped <==> t.hit))
    && (t.pc.AtRd? ==> t.role == Consumer)
    && (t.pc.AtWr? ==> t.role == Producer)
    && (t.pc.AtDrop? ==> Allowed(t.role, t.pc.op) && !t.hit)
    && (!t.pc.Idle? ==> t.result == Nothing) && OwnCall(t)
  }

  /** A thread inside an operation is inside the one it was called for, with the message given. */
  predicate OwnCall(t: Thread)
  {
    match t.pc
    case Idle => true
    case AtDrop(op, _) => t.call == op
    case AtRd(_) => t.call == DoPop
    case AtWr(x, _) => t.call == DoPush(x)
  }

  /** Not every consumer sleeps on a nonempty queue, nor every producer on one with room. */
  ghost predicate NotStarved(s: State)
  {
    && (s.mon.queue != [] && HasRole(s.threads, Consumer) ==> Free(s.threads, Consumer))
    && (|s.mon.queue| < s.mon.capacity && HasRole(s.threads, Producer) ==> Free(s.threads, Producer))
  }

  predicate Stuck(t: Thread) { RdAsleep(t) || WrAsleep(t) }

  ghost predicate HasRole(ts: seq<Thread>, role: Role)
  {
    exists i :: 0 <= i < |ts| && ts[i].role == role
  }

  ghost predicate Free(ts: seq<Thread>, role: Role)
  {
    exists i :: 0 <= i < |ts| && ts[i].role == role && !Stuck(ts[i])
  }

  /** FIFO within the epoch, and conservation over the whole run. */
  ghost predicate LogInv(s: State)
  {
    && s.log.epochPushed == s.log.epochPopped + s.mon.queue
    && s.log.pushes == s.log.pops + s.log.discards + |s.mon.queue|
  }

  ghost predicate Inv(s: State)
  {
    WellFormed(s.mon) && CountExact(s) && EpochInv(s) && NotStarved(s) && LogInv(s)
  }

  // ---------- every step keeps it ----------

  lemma WokenKeepsCount(ts: seq<Thread>, ts': seq<Thread>, w: Wake)
    requires Woken(ts, ts', w)
    ensures Count(ts', Counted) == Count(ts, Counted)
  {
    CountSame(ts, ts', Counted);
  }

  lemma SectionCount(s: State, s': State, i: nat, t: Thread, op: Op, sec: Section)
    requires i < |s.threads| && RunsSection(s, s', i, t, op, sec)
    ensures Count(s'.threads, Counted) ==
            Count(s.threads, Counted) - (if Counted(s.threads[i]) then 1 else 0)
              + (if Counted(After(t, op, sec.fate)) then 1 else 0)
  {
    var mid := s.threads[i := After(t, op, sec.fate)];
    CountUpdate(s.threads, Counted, i, After(t, op, sec.fate));
    CountSame(mid, MarkHit(mid), Counted);
    WokenKeepsCount(if op.DoDrop? then MarkHit(mid) else mid, s'.threads, sec.wake);
  }

  ghost predicate Typed(ts: seq<Thread>)
  {
    forall i :: 0 <= i < |ts| ==>
      (ts[i].pc.AtRd? ==> ts[i].role == Consumer) && (ts[i].pc.AtWr? ==> ts[i].role == Producer)
  }

  lemma FreeAfterWake(ts: seq<Thread>, ts': seq<Thread>, w: Wake, role: Role)
    requires Woken(ts, ts', w) && Free(ts, role)
    ensures Free(ts', role)
  {
    var k :| 0 <= k < |ts| && ts[k].role == role && !Stuck(ts[k]);
    assert !Stuck(ts'[k]) && ts'[k].role == role;
  }

  /** A notification on the role's condition variable leaves one of its threads free. */
  lemma FreeBySignal(ts: seq<Thread>, ts': seq<Thread>, w: Wake, role: Role)
    requires Woken(ts, ts', w) && Typed(ts) && HasRole(ts, role)
    requires role == Consumer ==> w.rd != Nobody
    requires role == Producer ==> w.wr != Nobody
    ensures Free(ts', role)
  {
    var k :| 0 <= k < |ts| && ts[k].role == role;
    if !Stuck(ts[k]) {
      FreeAfterWake(ts, ts', w, role);
    } else if NotifyFor(w, ts[k]) == All {
      assert !Stuck(ts'[k]) && ts'[k].role == role;
    } else if role == Consumer {
      var j :| 0 <= j < |ts| && RdAsleep(ts[j]) && !Asleep(ts'[j]);
      assert !Stuck(ts'[j]) && ts'[j].role == role;
    } else {
      var j :| 0 <= j < |ts| && WrAsleep(ts[j]) && !Asleep(ts'[j]);
      assert !Stuck(ts'[j]) && ts'[j].role == role;
    }
  }

  /** Replacing one thread by another of the same role keeps the roles and,
      unless the newcomer is stuck, the freedom of its role. */
  lemma RolesAfterUpdate(ts: seq<Thread>, i: nat, t: Thread, role: Role)
    requires i < |ts| && t.role == ts[i].role
    ensures HasRole(ts[i := t], role) == HasRole(ts, role)
    ensures Free(ts, role) && (!Stuck(t) || t.role != role) ==> Free(ts[i := t], role)
    ensures t.role == role && !Stuck(t) ==> Free(ts[i := t], role)
  {
    var ts' := ts[i := t];
    assert ts'[i] == t;
    if HasRole(ts, role) {
      var k :| 0 <= k < |ts| && ts[k].role == role;
      assert ts'[k].role == role;
    }
    if HasRole(ts', role) {
      var k :| 0 <= k < |ts'| && ts'[k].role == role;
      assert ts[k].role == role;
    }
    if Free(ts, role) && (!Stuck(t) || t.role != role) {
      var k :| 0 <= k < |ts| && ts[k].role == role && !Stuck(ts[k]);
      assert ts'[k].role == role && !Stuck(ts'[k]);
    }
  }

  lemma RolesAfterMark(ts: seq<Thread>, role: Role)
    ensures HasRole(MarkHit(ts), role) == HasRole(ts, role)
    ensures Free(MarkHit(ts), role) == Free(ts, role)
  {
    var ts' := MarkHit(ts);
    assert forall k :: 0 <= k < |ts| ==> ts'[k].role == ts[k].role && Stuck(ts'[k]) == Stuck(ts[k]);
    if HasRole(ts, role) { var k :| 0 <= k < |ts| && ts[k].role == role; assert ts'[k].role == role; }
    if Free(ts, role) { var k :| 0 <= k < |ts| && ts[k].role == role && !Stuck(ts[k]); assert !Stuck(ts'[k]); }
  }

  lemma RolesAfterWake(ts: seq<Thread>, ts': seq<Thread>, w: Wake, role: Role)
    requires Woken(ts, ts', w)
    ensures HasRole(ts', role) == HasRole(ts, role)
  {
    if HasRole(ts, role) { var k :| 0 <= k < |ts| && ts[k].role == role; assert ts'[k].role == role; }
    if HasRole(ts', role) { var k :| 0 <= k < |ts'| && ts'[k].role == role; assert ts[k].role == role; }
  }

  /** The section `sec` is one that operation `op` can run in an open epoch, counted as `blocked`. */
  predicate OpenSection(m: Monitor, op: Op, sec: Section, blocked: nat)
  {
    && m.state == Ok && blocked > 0
    && sec == match op
              case DoPush(x) => PushSection(m.(blocked := blocked), x)
              case DoPop => PopSection(m.(blocked := blocked))
              case DoDrop => DropSection(m)
  }

  lemma SectionNotStarved(s: State, s': State, i: nat, t: Thread, op: Op, sec: Section, blocked: nat)
    requires WellFormed(s.mon) && NotStarved(s) && i < |s.threads| && Typed(s.threads)
    requires RunsSection(s, s', i, t, op, sec) && OpenSection(s.mon, op, sec, blocked)
    requires t.role == s.threads[i].role && Allowed(t.role, op)
    ensures NotStarved(s')
  {
    var mid := s.threads[i := After(t, op, sec.fate)];
    var ts := if op.DoDrop? then MarkHit(mid) else mid;
    forall role: Role
      ensures HasRole(s'.threads, role) == HasRole(s.threads, role)
    {
      RolesAfterUpdate(s.threads, i, After(t, op, sec.fate), role);
      RolesAfterMark(mid, role);
      RolesAfterWake(ts, s'.threads, sec.wake, role);
    }
    if s'.mon.queue != [] && HasRole(s.threads, Consumer) {
      SectionFree(s, s', i, t, op, sec, blocked, Consumer);
    }
    if |s'.mon.queue| < s'.mon.capacity && HasRole(s.threads, Producer) {
      SectionFree(s, s', i, t, op, sec, blocked, Producer);
    }
  }

  /** The role the section's outcome matters to has a free thread: the one that ran,
      one that was free before, or one that the edge notification wakes. */
  lemma SectionFree(s: State, s': State, i: nat, t: Thread, op: Op, sec: Section, blocked: nat, role: Role)
    requires WellFormed(s.mon) && NotStarved(s) && i < |s.threads| && Typed(s.threads)
    requires RunsSection(s, s', i, t, op, sec) && OpenSection(s.mon, op, sec, blocked)
    requires t.role == s.threads[i].role && Allowed(t.role, op)
    requires HasRole(s.threads, role)
    requires role == Consumer ==> s'.mon.queue != []
    requires role == Producer ==> |s'.mon.queue| < s'.mon.capacity
    ensures Free(s'.threads, role)
  {
    var t' := After(t, op, sec.fate);
    var mid := s.threads[i := t'];
    var ts := if op.DoDrop? then MarkHit(mid) else mid;
    RolesAfterUpdate(s.threads, i, t', role);
    RolesAfterMark(mid, role);
    var notified := if role == Consumer then sec.wake.rd else sec.wake.wr;
    if notified != Nobody {
      TypedAfterMove(s.threads, i, t, op, sec.fate);
      FreeBySignal(ts, s'.threads, sec.wake, role);
      return;
    }
    SectionFreeBefore(s, i, t, op, sec, blocked, role);
    FreeAfterWake(ts, s'.threads, sec.wake, role);
  }

  lemma TypedAfterMove(ts: seq<Thread>, i: nat, t: Thread, op: Op, fate: Fate)
    requires Typed(ts) && i < |ts| && Allowed(t.role, op)
    ensures var mid := ts[i := After(t, op, fate)]; Typed(mid) && Typed(MarkHit(mid))
  {
  }

  /** Where nobody is notified, someone of the role was free before or the caller stays so. */
  lemma SectionFreeBefore(s: State, i: nat, t: Thread, op: Op, sec: Section, blocked: nat, role: Role)
    requires WellFormed(s.mon) && NotStarved(s) && i < |s.threads| && OpenSection(s.mon, op, sec, blocked)
    requires t.role == s.threads[i].role && Allowed(t.role, op) && HasRole(s.threads, role)
    requires role == Consumer ==> sec.mon.queue != [] && sec.wake.rd == Nobody
    requires role == Producer ==> |sec.mon.queue| < sec.mon.capacity && sec.wake.wr == Nobody
    ensures var mid := s.threads[i := After(t, op, sec.fate)]; Free(mid, role) && !op.DoDrop?
  {
    var mid := s.threads[i := After(t, op, sec.fate)];
    if k :| 0 <= k < |s.threads| && k != i && s.threads[k].role == role && !Stuck(s.threads[k]) {
      assert mid[k] == s.threads[k];
    } else {
      assert mid[i].role == role && !Stuck(mid[i]);
    }
  }

  /** A section run in an open epoch keeps the whole invariant. */
  lemma OpenSectionKeepsInv(s: State, s': State, i: nat, t: Thread, op: Op, sec: Section)
    requires Inv(s) && i < |s.threads|
    requires t.role == s.threads[i].role && Allowed(t.role, op) && t.result == Nothing && !t.hit && t.call == op
    requires RunsSection(s, s', i, t, op, sec)
    requires var blocked := s.mon.blocked + if Counted(s.threads[i]) then 0 else 1;
             OpenSection(s.mon, op, sec, blocked) && (op.DoDrop? ==> !Counted(s.threads[i]))
    ensures Inv(s')
  {
    var blocked := s.mon.blocked + if Counted(s.threads[i]) then 0 else 1;
    if Counted(s.threads[i]) { CountPositive(s.threads, Counted, i); }
    SectionCount(s, s', i, t, op, sec);
    assert Typed(s.threads);
    SectionNotStarved(s, s', i, t, op, sec, blocked);
    OpenSectionThreads(s, s', i, t, op, sec, blocked);
    OpenSectionMonitor(s, s', i, t, op, sec, blocked);
  }

  /** The part that concerns the monitor and the log only. */
  lemma OpenSectionMonitor(s: State, s': State, i: nat, t: Thread, op: Op, sec: Section, blocked: nat)
    requires WellFormed(s.mon) && LogInv(s) && i < |s.threads|
    requires RunsSection(s, s', i, t, op, sec) && OpenSection(s.mon, op, sec, blocked)
    ensures WellFormed(s'.mon) && LogInv(s')
    ensures s'.mon.state == Dropped ==> s'.mon.queue == [] && s'.mon.blocked > 0
    ensures s'.mon.blocked ==
            if op.DoDrop? then s.mon.blocked else blocked - (if sec.fate.Returns? then 1 else 0)
    ensures op.DoDrop? ==> sec.fate.Returns?
  {
  }

  lemma OpenSectionThreads(s: State, s': State, i: nat, t: Thread, op: Op, sec: Section, blocked: nat)
    requires EpochInv(s) && CountExact(s) && i < |s.threads|
    requires op.DoDrop? ==> !Counted(s.threads[i])
    requires t.role == s.threads[i].role && Allowed(t.role, op) && t.result == Nothing && !t.hit && t.call == op
    requires RunsSection(s, s', i, t, op, sec)
    requires OpenSection(s.mon, op, sec, blocked)
    ensures forall k :: 0 <= k < |s'.threads| ==> ThreadInv(s'.mon.state, s'.threads[k])
  {
    var mid := s.threads[i := After(t, op, sec.fate)];
    var ts := if op.DoDrop? then MarkHit(mid) else mid;
    CountZero(s.threads, Counted);
    forall k | 0 <= k < |s'.threads|
      ensures ThreadInv(s'.mon.state, s'.threads[k])
    {
      assert ThreadInv(s.mon.state, s.threads[k]);
      assert s'.threads[k] == ts[k] || s'.threads[k] == Awaken(ts[k]);
    }
  }

  /** A counted thread that wakes up in a dropped epoch leaves; the last one reopens the queue. */
  lemma DroppedSectionKeepsInv(s: State, s': State, i: nat, op: Op, sec: Section)
    requires Inv(s) && i < |s.threads| && s.mon.state == Dropped && Counted(s.threads[i])
    requires !op.DoDrop? && s.mon.blocked > 0
    requires sec == if op.DoPush? then PushSection(s.mon, op.x) else PopSection(s.mon)
    requires RunsSection(s, s', i, s.threads[i], op, sec)
    ensures Inv(s')
  {
    var t := s.threads[i];
    SectionCount(s, s', i, t, op, sec);
    var mid := s.threads[i := After(t, op, sec.fate)];
    if s'.mon.state == Ok { CountZero(s'.threads, Counted); }
    forall k | 0 <= k < |s'.threads|
      ensures ThreadInv(s'.mon.state, s'.threads[k]) && !Stuck(s'.threads[k])
    {
      assert ThreadInv(s.mon.state, s.threads[k]);
      assert s'.threads[k] == mid[k] || s'.threads[k] == Awaken(mid[k]);
    }
    NobodyStuck(s'.threads, Consumer);
    NobodyStuck(s'.threads, Producer);
  }

  lemma NobodyStuck(ts: seq<Thread>, role: Role)
    requires forall k :: 0 <= k < |ts| ==> !Stuck(ts[k])
    ensures HasRole(ts, role) ==> Free(ts, role)
  {
    if HasRole(ts, role) {
      var k :| 0 <= k < |ts| && ts[k].role == role;
      assert !Stuck(ts[k]);
    }
  }

  /** Falling asleep on `drop_cond`, or waking for no reason, keeps the invariant. */
  lemma QuietKeepsInv(s: State, s': State, i: nat, t: Thread)
    requires Inv(s) && i < |s.threads|
    requires s' == s.(threads := s.threads[i := t])
    requires t.role == s.threads[i].role && Counted(t) == Counted(s.threads[i]) && !Stuck(t)
    requires ThreadInv(s.mon.state, t)
    ensures Inv(s')
  {
    CountUpdate(s.threads, Counted, i, t);
    RolesAfterUpdate(s.threads, i, t, Consumer);
    RolesAfterUpdate(s.threads, i, t, Producer);
  }

  lemma StepKeepsInv(s: State, s': State, step: Step)
    requires Inv(s) && NextStep(s, s', step)
    ensures Inv(s')
  {
    var i := step.i;
    var t := s.threads[i];
    assert ThreadInv(s.mon.state, t);
    match step {
      case Call(_, op) => LockCleanKeepsInv(s, s', i, Called(t, op), op);
      case Retry(_) => LockCleanKeepsInv(s, s', i, t, t.pc.op);
      case Resume(_) =>
        var op := if t.pc.AtRd? then DoPop else DoPush(t.pc.x);
        var sec := if t.pc.AtRd? then PopSection(s.mon) else PushSection(s.mon, t.pc.x);
        assert s.mon.(blocked := s.mon.blocked) == s.mon;
        if s.mon.state == Ok {
          OpenSectionKeepsInv(s, s', i, t, op, sec);
        } else {
          DroppedSectionKeepsInv(s, s', i, op, sec);
        }
      case Spurious(_) => QuietKeepsInv(s, s', i, Awaken(t));
    }
  }

  lemma LockCleanKeepsInv(s: State, s': State, i: nat, t: Thread, op: Op)
    requires Inv(s) && i < |s.threads| && !Counted(s.threads[i]) && !Asleep(s.threads[i])
    requires t.role == s.threads[i].role && Allowed(t.role, op) && t.result == Nothing && !t.hit && t.call == op
    requires LockClean(s, s', i, t, op)
    ensures Inv(s')
  {
    if s.mon.state == Dropped {
      QuietKeepsInv(s, s', i, t.(pc := AtDrop(op, true)));
    } else {
      assert s.mon.(blocked := s.mon.blocked + 1) == Admit(s.mon);
      OpenSectionKeepsInv(s, s', i, t, op, Enter(s.mon, op));
    }
  }

  lemma InitHasInv(s: State)
    requires Init(s)
    ensures Inv(s)
  {
    CountZero(s.threads, Counted);
    NobodyStuck(s.threads, Producer);
    NobodyStuck(s.threads, Consumer);
  }

  lemma InvIsInductive()
    ensures Runs.Inductive(Init, Next, Inv)
  {
    forall s | Init(s) ensures Inv(s) { InitHasInv(s); }
    forall s, s' | Inv(s) && Next(s, s') ensures Inv(s')
    {
      var step :| NextStep(s, s', step);
      StepKeepsInv(s, s', step);
    }
  }

  lemma ReachableHasInv(s: State)
    requires Reachable(s)
    ensures Inv(s)
  {
    InvIsInductive();
    Runs.HoldsWhenReachable(Init, Next, Inv, s);
  }

  // ---------- the theorems ----------

  /** With a producer and a consumer, no reachable state has every thread asleep,
      although a signal is sent only when the queue stops being empty or stops being full. */
  lemma NeverAllAsleep(s: State)
    requires Reachable(s)
    requires HasRole(s.threads, Producer) && HasRole(s.threads, Consumer)
    ensures exists i :: 0 <= i < |s.threads| && !Asleep(s.threads[i])
  {
    ReachableHasInv(s);
    if s.mon.state == Dropped {
      var i := CountWitness(s.threads, Counted);
      assert ThreadInv(s.mon.state, s.threads[i]);
      assert !Asleep(s.threads[i]);
    } else {
      var role := if s.mon.queue != [] then Consumer else Producer;
      var i :| 0 <= i < |s.threads| && s.threads[i].role == role && !Stuck(s.threads[i]);
      assert ThreadInv(s.mon.state, s.threads[i]);
      assert !Asleep(s.threads[i]);
    }
  }

  /** A thread that is not asleep can always take a step: push or pop, retry, or resume. */
  lemma AwakeCanStep(s: State, i: nat) returns (step: Step, s': State)
    requires Reachable(s) && i < |s.threads| && !Asleep(s.threads[i])
    ensures step.i == i && NextStep(s, s', step)
  {
    ReachableHasInv(s);
    var t := s.threads[i];
    assert ThreadInv(s.mon.state, t);
    match t.pc {
      case Idle =>
        var op := if t.role == Producer then DoPush("") else DoPop;
        step := Call(i, op);
        s' := LockCleanOutcome(s, i, Called(t, op), op);
      case AtDrop(op, _) =>
        step := Retry(i);
        s' := LockCleanOutcome(s, i, t, op);
      case AtRd(_) =>
        CountPositive(s.threads, Counted, i);
        step := Resume(i);
        s' := SectionOutcome(s, i, t, DoPop, PopSection(s.mon));
      case AtWr(x, _) =>
        CountPositive(s.threads, Counted, i);
        step := Resume(i);
        s' := SectionOutcome(s, i, t, DoPush(x), PushSection(s.mon, x));
    }
  }

  /** Waking everyone a notification may wake is one of its possible outcomes. */
  lemma WakeEveryone(ts: seq<Thread>, w: Wake) returns (ts': seq<Thread>)
    ensures Woken(ts, ts', w)
  {
    ts' := seq(|ts|, k requires 0 <= k < |ts| => if NotifyFor(w, ts[k]) == Nobody then ts[k] else Awaken(ts[k]));
    if k :| 0 <= k < |ts| && RdAsleep(ts[k]) {
      assert w.rd == One ==> !Asleep(ts'[k]);
    }
    if k :| 0 <= k < |ts| && WrAsleep(ts[k]) {
      assert w.wr == One ==> !Asleep(ts'[k]);
    }
  }

  lemma SectionOutcome(s: State, i: nat, t: Thread, op: Op, sec: Section) returns (s': State)
    requires i < |s.threads|
    ensures RunsSection(s, s', i, t, op, sec)
  {
    var mid := s.threads[i := After(t, op, sec.fate)];
    var ts := if op.DoDrop? then MarkHit(mid) else mid;
    var ts' := WakeEveryone(ts, sec.wake);
    s' := State(sec.mon, ts', Record(s.log, op, s.mon, sec.fate));
  }

  lemma LockCleanOutcome(s: State, i: nat, t: Thread, op: Op) returns (s': State)
    requires i < |s.threads|
    ensures LockClean(s, s', i, t, op)
  {
    if s.mon.state == Dropped {
      s' := s.(threads := s.threads[i := t.(pc := AtDrop(op, true))]);
    } else {
      s' := SectionOutcome(s, i, t, op, Enter(s.mon, op));
    }
  }

  /** Drop epochs are exact: `blocked_count` is the number of threads inside an operation, a push
      or pop that has returned says DROPPED exactly when a drop found it inside, and while the
      epoch is dropped the queue is empty and every counted thread is marked and awake. */
  lemma EpochsAreExact(s: State)
    requires Reachable(s)
    ensures s.mon.blocked == Count(s.threads, Counted)
    ensures forall i :: 0 <= i < |s.threads| && s.threads[i].result.Got? ==>
              (s.threads[i].result.status == Dropped <==> s.threads[i].hit)
    ensures s.mon.state == Dropped ==>
              && s.mon.queue == [] && s.mon.blocked > 0
              && forall i :: 0 <= i < |s.threads| && Counted(s.threads[i]) ==> s.threads[i].hit && !Asleep(s.threads[i])
    ensures s.mon.state == Ok ==>
              forall i :: 0 <= i < |s.threads| && Counted(s.threads[i]) ==> !s.threads[i].hit
  {
    ReachableHasInv(s);
    forall i | 0 <= i < |s.threads|
      ensures ThreadInv(s.mon.state, s.threads[i])
    {
    }
  }

  /** While the epoch is dropped, a step either leaves the monitor alone and counts nobody in,
      or is a counted thread on its way out; the epoch ends exactly with the last of these. */
  lemma LateComersWait(s: State, s': State, step: Step)
    requires Reachable(s) && NextStep(s, s', step) && s.mon.state == Dropped
    ensures s'.log == s.log && s'.mon.queue == []
    ensures step.Resume? ==>
              && s'.mon.blocked == s.mon.blocked - 1
              && s'.threads[step.i].pc.Idle? && s'.threads[step.i].result == Got(Dropped, [])
    ensures !step.Resume? ==>
              s'.mon == s.mon && (Counted(s'.threads[step.i]) ==> Counted(s.threads[step.i]))
    ensures s'.mon.state == Ok <==> step.Resume? && s.mon.blocked == 1
    ensures s'.mon.state == Ok ==> forall i :: 0 <= i < |s'.threads| ==> !DropAsleep(s'.threads[i])
  {
    ReachableHasInv(s);
    StepKeepsInv(s, s', step);
    var t := s.threads[step.i];
    assert ThreadInv(s.mon.state, t);
    if step.Resume? {
      var op := if t.pc.AtRd? then DoPop else DoPush(t.pc.x);
      var sec := if t.pc.AtRd? then PopSection(s.mon) else PushSection(s.mon, t.pc.x);
      var mid := s.threads[step.i := After(t, op, sec.fate)];
      assert mid[step.i].pc == Idle;
      assert s'.threads[step.i] == mid[step.i];
    }
    forall i | 0 <= i < |s'.threads| && s'.mon.state == Ok
      ensures !DropAsleep(s'.threads[i])
    {
      assert ThreadInv(s'.mon.state, s'.threads[i]);
    }
  }

  /** Within an epoch the popped messages are a prefix of the pushed ones and the rest is queued;
      over the whole run nothing is lost or invented. */
  lemma FifoAndConservation(s: State)
    requires Reachable(s)
    ensures s.log.epochPushed == s.log.epochPopped + s.mon.queue
    ensures s.log.pushes == s.log.pops + s.log.discards + |s.mon.queue|
    ensures |s.mon.queue| <= s.mon.capacity
  {
    ReachableHasInv(s);
  }

  /** In every reachable state a thread inside a push, also one parked behind a drop, still carries
      the message of its call. */
  lemma CallsKeepTheirMessage(s: State, i: nat)
    requires Reachable(s) && i < |s.threads|
    ensures OwnCall(s.threads[i])
  {
    ReachableHasInv(s);
    assert ThreadInv(s.mon.state, s.threads[i]);
  }

  /** The operation that the thread is in during the step. */
  function CallOf(s: State, step: Step): Op
    requires step.i < |s.threads|
  {
    if step.Call? then step.op else s.threads[step.i].call
  }

  /** The thread has come out of its operation in this step. */
  predicate Returned(s: State, s': State, step: Step)
    requires step.i < |s.threads| == |s'.threads|
  {
    s'.threads[step.i].pc.Idle? && (step.Call? || !s.threads[step.i].pc.Idle?)
  }

  /** What a return from `call` has done: a push that says OK has queued its own message, a pop that
      says OK hands out the oldest message, a drop leaves nothing, and nothing else happens. */
  predicate DoesItsJob(call: Op, result: Result, queue: seq<Message>, queue': seq<Message>)
  {
    match call
    case DoPush(x) =>
      (result == Got(Ok, []) && queue' == queue + [x]) || (result == Got(Dropped, []) && queue' == queue)
    case DoPop =>
      || (queue != [] && result == Got(Ok, [queue[0]]) && queue' == queue[1..])
      || (result == Got(Dropped, []) && queue' == queue)
    case DoDrop => result == Nothing && queue' == []
  }

  lemma SectionDoesItsJob(s: State, s': State, i: nat, t: Thread, op: Op, sec: Section, blocked: nat)
    requires i < |s.threads| && RunsSection(s, s', i, t, op, sec) && blocked > 0
    requires sec == match op
                    case DoPush(x) => PushSection(s.mon.(blocked := blocked), x)
                    case DoPop => PopSection(s.mon.(blocked := blocked))
                    case DoDrop => DropSection(s.mon)
    ensures |s'.threads| == |s.threads| && s'.threads[i].call == t.call
    ensures s'.threads[i].pc.Idle? ==> DoesItsJob(op, s'.threads[i].result, s.mon.queue, s'.mon.queue)
    ensures !s'.threads[i].pc.Idle? ==> s'.mon.queue == s.mon.queue && s'.threads[i].result == t.result
  {
  }

  /** What a thread was called for and what it was told stay the same. */
  predicate SameCall(t: Thread, t': Thread) { t'.call == t.call && t'.result == t.result }

  lemma SectionLeavesOthers(s: State, s': State, i: nat, t: Thread, op: Op, sec: Section, k: nat)
    requires i < |s.threads| && RunsSection(s, s', i, t, op, sec) && k < |s.threads| && k != i
    ensures |s'.threads| == |s.threads| && SameCall(s.threads[k], s'.threads[k])
  {
    var mid := s.threads[i := After(t, op, sec.fate)];
    var ts := if op.DoDrop? then MarkHit(mid) else mid;
    assert s'.threads[k] == ts[k] || s'.threads[k] == Awaken(ts[k]);
  }

  lemma LockCleanLeavesOthers(s: State, s': State, i: nat, t: Thread, op: Op, k: nat)
    requires i < |s.threads| && LockClean(s, s', i, t, op) && k < |s.threads| && k != i
    ensures |s'.threads| == |s.threads| && SameCall(s.threads[k], s'.threads[k])
  {
    if s.mon.state != Dropped {
      SectionLeavesOthers(s, s', i, t, op, Enter(s.mon, op), k);
    }
  }

  lemma OthersKeepTheirs(s: State, s': State, step: Step, k: nat)
    requires NextStep(s, s', step) && k < |s.threads| && k != step.i
    ensures |s'.threads| == |s.threads| && SameCall(s.threads[k], s'.threads[k])
  {
    var t := s.threads[step.i];
    match step {
      case Call(i, op) => LockCleanLeavesOthers(s, s', i, Called(t, op), op, k);
      case Retry(i) => LockCleanLeavesOthers(s, s', i, t, t.pc.op, k);
      case Resume(i) =>
        if t.pc.AtRd? {
          SectionLeavesOthers(s, s', i, t, DoPop, PopSection(s.mon), k);
        } else {
          SectionLeavesOthers(s, s', i, t, DoPush(t.pc.x), PushSection(s.mon, t.pc.x), k);
        }
      case Spurious(_) =>
    }
  }

  /** Every call does what it was called for, whatever happens between its sections: the push that
      returns OK queues the message of its own call, the pop that returns OK takes the oldest one,
      the queue changes in no other way, and no step changes what another thread was called for or
      what it was told. */
  lemma CallsDoTheirJob(s: State, s': State, step: Step)
    requires Reachable(s) && NextStep(s, s', step)
    ensures |s'.threads| == |s.threads| && s'.threads[step.i].call == CallOf(s, step)
    ensures Returned(s, s', step) ==>
              DoesItsJob(CallOf(s, step), s'.threads[step.i].result, s.mon.queue, s'.mon.queue)
    ensures !Returned(s, s', step) ==>
              s'.mon.queue == s.mon.queue && s'.threads[step.i].result == Nothing
    ensures forall k :: 0 <= k < |s.threads| && k != step.i ==> SameCall(s.threads[k], s'.threads[k])
  {
    ReachableHasInv(s);
    var i := step.i;
    var t := s.threads[i];
    assert ThreadInv(s.mon.state, t);
    forall k | 0 <= k < |s.threads| && k != i
      ensures |s'.threads| == |s.threads| && SameCall(s.threads[k], s'.threads[k])
    {
      OthersKeepTheirs(s, s', step, k);
    }
    match step {
      case Call(_, op) => LockCleanDoesItsJob(s, s', i, Called(t, op), op);
      case Retry(_) => LockCleanDoesItsJob(s, s', i, t, t.pc.op);
      case Resume(_) =>
        assert s.mon.(blocked := s.mon.blocked) == s.mon;
        if t.pc.AtRd? {
          SectionDoesItsJob(s, s', i, t, DoPop, PopSection(s.mon), s.mon.blocked);
        } else {
          SectionDoesItsJob(s, s', i, t, DoPush(t.pc.x), PushSection(s.mon, t.pc.x), s.mon.blocked);
        }
      case Spurious(_) =>
    }
  }

  lemma LockCleanDoesItsJob(s: State, s': State, i: nat, t: Thread, op: Op)
    requires i < |s.threads| && LockClean(s, s', i, t, op)
    ensures |s'.threads| == |s.threads| && s'.threads[i].call == t.call
    ensures s'.threads[i].pc.Idle? ==> DoesItsJob(op, s'.threads[i].result, s.mon.queue, s'.mon.queue)
    ensures !s'.threads[i].pc.Idle? ==> s'.mon.queue == s.mon.queue && s'.threads[i].result == t.result
  {
    if s.mon.state != Dropped {
      assert s.mon.(blocked := s.mon.blocked + 1) == Admit(s.mon);
      SectionDoesItsJob(s, s', i, t, op, Enter(s.mon, op), s.mon.blocked + 1);
    }
  }
}
