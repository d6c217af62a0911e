/** One entry of the cache in a.yanin/waxy, its writer, and any number of read handles.

    `handler_force` sets a pending flag that the event loop clears before it calls `rd_process`.
    `rd_process` takes a snapshot under the entry lock, lets `on_read` perform one `cache_rd_read`,
    and only then decides whether to ask for another call; writes, completion and invalidation can
    fall between any two of these steps. */
module CacheReaders {
  import opened CacheEntries
  import Runs

  type Bytes = seq<int>

  datatype Seen = Never | Last(st: EntryState)

  datatype Pc =
    | Resting
    | Called                                  // rd_process entered, pending flag already cleared
    | Snapped(newLen: nat, st: EntryState)        // snapshot taken
    | Handled(newLen: nat, st: EntryState, read: bool) // on_read done, or skipped

  /** `born` is the state of the entry when the handle was created, and `late` records that it was
      created on an entry already complete and empty. */
  datatype Reader = Reader(
    registered: bool, pending: bool, count: nat, last: Seen, eof: bool, received: Bytes, pc: Pc,
    born: EntryState, late: bool)

  datatype State = State(buf: Bytes, st: EntryState, readers: seq<Reader>)

  datatype Step =
    | Register
    | Unregister(r: nat)
    | Dispatch(r: nat)
    | Snapshot(r: nat)
    | Read(r: nat, size: nat)
    | Skip(r: nat)
    | Finish(r: nat)
    | Write(bytes: Bytes)
    | MarkComplete
    | Abandon

  function Woken(r: Reader): Reader { if r.registered then r.(pending := true) else r }

  function Wake(rs: seq<Reader>): seq<Reader>
  {
    seq(|rs|, i requires 0 <= i < |rs| => Woken(rs[i]))
  }

  /** The guard of `on_read` in `rd_process`. */
  predicate ReadsNow(r: Reader)
  {
    r.pc.Snapped? && (r.pc.newLen > r.count || (Last(r.pc.st) != r.last && r.pc.st == Complete))
  }

  predicate Enabled(s: State, step: Step)
  {
    match step
    case Register => true
    case Unregister(r) => r < |s.readers| && s.readers[r].registered && s.readers[r].pc == Resting
    case Dispatch(r) => r < |s.readers| && s.readers[r].pc == Resting && s.readers[r].registered && s.readers[r].pending
    case Snapshot(r) => r < |s.readers| && s.readers[r].pc == Called
    case Read(r, _) => r < |s.readers| && ReadsNow(s.readers[r]) && s.readers[r].count <= |s.buf|
    case Skip(r) => r < |s.readers| && s.readers[r].pc.Snapped? && !ReadsNow(s.readers[r])
    case Finish(r) => r < |s.readers| && s.readers[r].pc.Handled?
    case Write(bytes) => bytes != []
    case MarkComplete => true
    case Abandon => true
  }

  /** `cache_rd_read` with a buffer of `size` bytes. */
  function ReadInto(s: State, r: Reader, size: nat): Reader
    requires r.count <= |s.buf| && r.pc.Snapped?
  {
    var unread := |s.buf| - r.count;
    var n := if size > unread then unread else size;
    r.(count := r.count + n, received := r.received + s.buf[r.count..r.count + n],
       eof := r.eof || (s.st != Partial && r.count + n >= |s.buf|),
       pc := Handled(r.pc.newLen, r.pc.st, true))
  }

  function Finished(r: Reader): Reader
    requires r.pc.Handled?
  {
    r.(pending := r.pending || (r.pc.read && r.count < r.pc.newLen), last := Last(r.pc.st), pc := Resting)
  }

  function Do(s: State, step: Step): State
    requires Enabled(s, step)
  {
    match step
    case Register =>
      var late := s.st == Complete && s.buf == [];
      s.(readers := s.readers + [Reader(true, s.buf != [], 0, Never, false, [], Resting, s.st, late)])
    case Unregister(r) => s.(readers := s.readers[r := s.readers[r].(registered := false)])
    case Dispatch(r) => s.(readers := s.readers[r := s.readers[r].(pending := false, pc := Called)])
    case Snapshot(r) => s.(readers := s.readers[r := s.readers[r].(pc := Snapped(|s.buf|, s.st))])
    case Read(r, size) => s.(readers := s.readers[r := ReadInto(s, s.readers[r], size)])
    case Skip(r) =>
      var pc := s.readers[r].pc;
      s.(readers := s.readers[r := s.readers[r].(pc := Handled(pc.newLen, pc.st, false))])
    case Finish(r) => s.(readers := s.readers[r := Finished(s.readers[r])])
    case Write(bytes) =>
      if s.st == Complete then s else s.(buf := s.buf + bytes, readers := Wake(s.readers))
    case MarkComplete => if s.st == Partial then s.(st := Complete, readers := Wake(s.readers)) else s
    case Abandon => if s.st == Partial then s.(st := Invalid, readers := Wake(s.readers)) else s
  }

  ghost predicate Next(s: State, s': State)
  {
    exists step :: Enabled(s, step) && s' == Do(s, step)
  }

  ghost predicate Init(s: State) { s == State([], Partial, []) }

  ghost predicate Reachable(s: State) { Runs.Reachable(Init, Next, s) }

  /** What holds of a read handle, whatever it and the writer are doing. */
  predicate ReaderInv(s: State, r: Reader)
  {
    && r.count <= |s.buf| && r.received == s.buf[..r.count]
    && (r.eof ==> s.st != Partial) && (r.eof && s.st == Complete ==> r.count == |s.buf|)
    && (r.last == Last(Complete) ==> s.st == Complete && (r.eof || r.count < |s.buf|))
    && (r.late ==> s.st == r.born == Complete && s.buf == [] && r.pc == Resting && !r.pending && !r.eof)
    && (r.pc != Resting ==> r.registered)
    && (r.registered && !r.late ==> AttentionInv(s, r))
  }

  /** Unfinished business is covered by the pending flag or by the call in progress. */
  predicate AttentionInv(s: State, r: Reader)
  {
    match r.pc
    case Resting => Behind(s, r) || (s.st != r.born && r.last != Last(s.st)) ==> r.pending
    case Called => true
    case Snapped(n, st) => Fresh(s, r, n, st)
    case Handled(n, st, read) =>
      && Fresh(s, r, n, st)
      && (if read then st == Complete ==> r.eof || r.count < n
          else r.count >= n && (st == Complete ==> r.last == Last(Complete)))
  }

  /** The reader has bytes to fetch, or has not been told the end of a complete entry. */
  predicate Behind(s: State, r: Reader) { r.count < |s.buf| || (s.st == Complete && !r.eof) }

  /** A snapshot is up to date unless a wake-up says otherwise. */
  predicate Fresh(s: State, r: Reader, n: nat, st: EntryState)
  {
    && n <= |s.buf| && (n < |s.buf| ==> r.pending) && (st != s.st ==> r.pending)
    && (st == Complete ==> s.st == Complete && n == |s.buf|)
  }

  ghost predicate Inv(s: State)
  {
    forall i :: 0 <= i < |s.readers| ==> ReaderInv(s, s.readers[i])
  }

  lemma ReadKeepsInv(s: State, r: Reader, size: nat)
    requires ReaderInv(s, r) && ReadsNow(r) && r.count <= |s.buf|
    ensures ReaderInv(s, ReadInto(s, r, size))
  {
    var r' := ReadInto(s, r, size);
    assert s.buf[..r'.count] == s.buf[..r.count] + s.buf[r.count..r'.count];
  }

  lemma FinishKeepsInv(s: State, r: Reader)
    requires ReaderInv(s, r) && r.pc.Handled?
    ensures ReaderInv(s, Finished(r))
  {
  }

  /** The step of a read handle keeps what holds of that handle. */
  lemma HandleKeepsInv(s: State, step: Step)
    requires Enabled(s, step) && !step.Register? && !step.Write? && !step.MarkComplete? && !step.Abandon?
    requires ReaderInv(s, s.readers[step.r])
    ensures ReaderInv(s, Do(s, step).readers[step.r])
  {
    if step.Read? {
      ReadKeepsInv(s, s.readers[step.r], step.size);
    } else if step.Finish? {
      FinishKeepsInv(s, s.readers[step.r]);
    }
  }

  /** What holds of a handle depends on the buffer and its state, not on the other handles. */
  lemma ReaderFrame(s: State, s': State, r: Reader)
    requires ReaderInv(s, r) && s'.buf == s.buf && s'.st == s.st
    ensures ReaderInv(s', r)
  {
  }

  lemma ReaderStepKeepsInv(s: State, step: Step)
    requires Inv(s) && Enabled(s, step)
    requires !step.Write? && !step.MarkComplete? && !step.Abandon?
    ensures Inv(Do(s, step))
  {
    var s' := Do(s, step);
    if !step.Register? {
      HandleKeepsInv(s, step);
    }
    forall i | 0 <= i < |s'.readers|
      ensures ReaderInv(s', s'.readers[i])
    {
      if i < |s.readers| {
        assert ReaderInv(s, s'.readers[i]);
        ReaderFrame(s, s', s'.readers[i]);
      }
    }
  }

  lemma WriterStepKeepsInv(s: State, step: Step)
    requires Inv(s) && Enabled(s, step)
    requires step.Write? || step.MarkComplete? || step.Abandon?
    ensures Inv(Do(s, step))
  {
    var s' := Do(s, step);
    forall i | 0 <= i < |s'.readers|
      ensures ReaderInv(s', s'.readers[i])
    {
      assert ReaderInv(s, s.readers[i]);
      assert s'.buf[..s.readers[i].count] == s.buf[..s.readers[i].count];
    }
  }

  lemma ReachableHasInv(s: State)
    requires Reachable(s)
    ensures Inv(s)
  {
    forall s, s' | Inv(s) && Next(s, s')
      ensures Inv(s')
    {
      var step :| Enabled(s, step) && s' == Do(s, step);
      if step.Write? || step.MarkComplete? || step.Abandon? {
        WriterStepKeepsInv(s, step);
      } else {
        ReaderStepKeepsInv(s, step);
      }
    }
    Runs.HoldsWhenReachable(Init, Next, Inv, s);
  }

  /** Readers lose nothing: the bytes delivered are a prefix of the buffer; end of file on a complete
      entry means that all of it was delivered; and a handle that is behind, or untold of the end,
      has a wake-up pending or is inside `rd_process`, with one exception told apart by `late`. */
  lemma ReadersLoseNothing(s: State, i: nat)
    requires Reachable(s) && i < |s.readers|
    ensures var r := s.readers[i];
            && r.received <= s.buf
            && (r.eof && s.st == Complete ==> r.received == s.buf)
            && (r.registered && Behind(s, r) && !r.late ==> r.pending || r.pc != Resting)
  {
    ReachableHasInv(s);
    assert ReaderInv(s, s.readers[i]);
  }

  /** A handle at rest on a complete entry has been told the end, unless it was created when the
      entry was already complete and empty: `cache_entry_new_rd_unsync` wakes a new handle only if
      there are bytes to read, so such a handle is never called. Both directions hold. */
  lemma UntoldExactlyWhenLate(s: State, i: nat)
    requires Reachable(s) && i < |s.readers| && s.readers[i].registered
    requires s.st == Complete && s.readers[i].pc == Resting && !s.readers[i].pending
    ensures !s.readers[i].eof <==> s.readers[i].late
    ensures s.readers[i].late ==> s.buf == []
  {
    ReachableHasInv(s);
    assert ReaderInv(s, s.readers[i]);
  }

  /** The exception does occur: complete an empty entry, then open it. */
  lemma LateReaderExists() returns (s: State)
    ensures Reachable(s) && s.readers != [] && s.readers[0].registered
    ensures s.st == Complete && s.readers[0].pc == Resting && !s.readers[0].pending && !s.readers[0].eof
  {
    var s0 := State([], Partial, []);
    var s1 := Do(s0, MarkComplete);
    s := Do(s1, Register);
    Runs.ReachableInit(Init, Next, s0);
    Runs.ReachableStep(Init, Next, s0, s1);
    Runs.ReachableStep(Init, Next, s1, s);
  }

  /** The buffer takes exactly what is written to it, at its end, until the entry is complete; the
      state changes once, from partial to complete or invalid, at the word of the writer. */
  lemma BufferGrows(s: State, step: Step)
    requires Enabled(s, step)
    ensures Do(s, step).buf == s.buf + if step.Write? && s.st != Complete then step.bytes else []
    ensures s.st != Partial ==> Do(s, step).st == s.st
    ensures s.st == Partial ==>
              Do(s, step).st == if step.MarkComplete? then Complete else if step.Abandon? then Invalid else Partial
  {
  }

  /** A change of state since its creation is told to every handle: one that has not heard of it is
      about to be called or is being called. */
  lemma StateChangesAreTold(s: State, i: nat)
    requires Reachable(s) && i < |s.readers| && s.readers[i].registered
    ensures var r := s.readers[i];
            s.st != r.born && r.last != Last(s.st) ==> r.pending || r.pc != Resting
  {
    ReachableHasInv(s);
    assert ReaderInv(s, s.readers[i]);
  }

  /** A handle that is closed is left alone from then on; nobody else closes it. */
  lemma ClosedIsLeftAlone(s: State, step: Step, i: nat)
    requires Enabled(s, step) && i < |s.readers|
    ensures i < |Do(s, step).readers|
    ensures Do(s, step).readers[i].registered <==> s.readers[i].registered && step != Unregister(i)
    ensures !s.readers[i].registered && s.readers[i].pc == Resting ==> Do(s, step).readers[i] == s.readers[i]
  {
  }

  // ---------- what a read delivers, and that all is delivered in the end ----------

  function Min(a: nat, b: nat): (m: nat)
    ensures m <= a && m <= b && (m == a || m == b)
  {
    if a < b then a else b
  }

  /** A read delivers the next unread bytes, as many as there are and fit; it reports the end of
      file exactly when the entry is no longer partial and nothing is left; it touches nothing else. */
  lemma ReadDelivers(s: State, r: nat, size: nat)
    requires Enabled(s, Read(r, size))
    ensures var s' := Do(s, Read(r, size));
            var a, b, n := s.readers[r], s'.readers[r], Min(size, |s.buf| - s.readers[r].count);
            && s' == s.(readers := s.readers[r := b]) && b.count == a.count + n
            && b.received == a.received + s.buf[a.count..a.count + n]
            && (b.eof <==> a.eof || (s.st != Partial && b.count == |s.buf|))
            && b.registered == a.registered && b.pending == a.pending && b.last == a.last && b.late == a.late
  {
  }

  /** What is left to deliver: the unread bytes and the word that there are no more. */
  function Left(s: State, r: Reader): int { |s.buf| - r.count + if r.eof then 0 else 1 }

  /** How far the handle is from the end of its present call; a call that began before the entry
      was complete has to be followed by another one. */
  function Phase(pc: Pc): nat
  {
    match pc
    case Resting => 3
    case Called => 2
    case Snapped(_, st) => if st == Complete then 1 else 6
    case Handled(_, st, _) => if st == Complete then 4 else 5
  }

  /** An upper bound on the handle's own steps until all is delivered. */
  function Work(s: State, r: Reader): int { 6 * Left(s, r) + Phase(r.pc) }

  /** The step belongs to handle `i`, which goes on reading into a buffer that is not empty. */
  predicate Own(step: Step, i: nat)
  {
    match step
    case Dispatch(r) => r == i
    case Snapshot(r) => r == i
    case Read(r, size) => r == i && size > 0
    case Skip(r) => r == i
    case Finish(r) => r == i
    case _ => false
  }

  /** A step that may happen beside the handle's own: it does not close it nor call `on_read` for
      it with an empty buffer. */
  predicate Beside(step: Step, i: nat)
  {
    match step
    case Unregister(r) => r != i
    case Dispatch(r) => r != i
    case Snapshot(r) => r != i
    case Read(r, _) => r != i
    case Skip(r) => r != i
    case Finish(r) => r != i
    case _ => true
  }

  lemma OwnStepWorks(s: State, step: Step, i: nat)
    requires Inv(s) && s.st == Complete && i < |s.readers| && Left(s, s.readers[i]) > 0
    requires Enabled(s, step) && Own(step, i)
    ensures i < |Do(s, step).readers| && Work(Do(s, step), Do(s, step).readers[i]) < Work(s, s.readers[i])
  {
    assert ReaderInv(s, s.readers[i]);
  }

  lemma BesideStepKeeps(s: State, step: Step, i: nat)
    requires s.st == Complete && i < |s.readers| && Enabled(s, step) && Beside(step, i)
    ensures i < |Do(s, step).readers| && Do(s, step).readers[i] == s.readers[i]
    ensures Do(s, step).buf == s.buf && Do(s, step).st == Complete
  {
  }

  lemma OwnStepKeeps(s: State, step: Step, i: nat)
    requires Inv(s) && i < |s.readers| && Enabled(s, step) && Own(step, i)
    ensures i < |Do(s, step).readers| && Do(s, step).buf == s.buf && Do(s, step).st == s.st
    ensures Left(Do(s, step), Do(s, step).readers[i]) <= Left(s, s.readers[i])
    ensures Do(s, step).readers[i].registered == s.readers[i].registered
  {
    assert ReaderInv(s, s.readers[i]);
  }

  /** While something is left to deliver the handle has a step of its own to take. */
  lemma DeliveryGoesOn(s: State, i: nat, size: nat) returns (step: Step)
    requires Reachable(s) && s.st == Complete && i < |s.readers| && s.readers[i].registered && !s.readers[i].late
    requires Left(s, s.readers[i]) > 0 && size > 0
    ensures Enabled(s, step) && Own(step, i)
  {
    ReachableHasInv(s);
    var r := s.readers[i];
    assert ReaderInv(s, r);
    step := match r.pc
            case Resting => Dispatch(i)
            case Called => Snapshot(i)
            case Snapped(_, _) => if ReadsNow(r) then Read(i, size) else Skip(i)
            case Handled(_, _, _) => Finish(i);
  }

  /** `run` is a run of the system by `steps`, in which handle `i` stays open and reads. */
  ghost predicate RunBy(run: seq<State>, steps: seq<Step>, i: nat)
  {
    && |run| == |steps| + 1
    && forall j :: 0 <= j < |steps| ==> TakesStep(run[j], run[j + 1], steps[j], i)
  }

  predicate TakesStep(s: State, s': State, step: Step, i: nat)
  {
    Enabled(s, step) && s' == Do(s, step) && (Own(step, i) || Beside(step, i))
  }

  function OwnSteps(steps: seq<Step>, i: nat): nat
  {
    if steps == [] then 0 else (if Own(steps[0], i) then 1 else 0) + OwnSteps(steps[1..], i)
  }

  lemma {:induction false} WorkIsDone(run: seq<State>, steps: seq<Step>, i: nat)
    requires RunBy(run, steps, i) && Reachable(run[0]) && run[0].st == Complete && i < |run[0].readers|
    ensures var s := run[|steps|];
            && Reachable(s) && s.st == Complete && s.buf == run[0].buf && i < |s.readers|
            && (Left(s, s.readers[i]) <= 0
                || Work(s, s.readers[i]) + OwnSteps(steps, i) <= Work(run[0], run[0].readers[i]))
    decreases |steps|
  {
    if steps != [] {
      var s, s1, step := run[0], run[1], steps[0];
      assert TakesStep(run[0], run[0 + 1], steps[0], i);
      ReachableHasInv(s);
      Runs.ReachableStep(Init, Next, s, s1);
      if Own(step, i) {
        OwnStepKeeps(s, step, i);
      } else {
        BesideStepKeeps(s, step, i);
      }
      forall j | 0 <= j < |steps[1..]|
        ensures TakesStep(run[1..][j], run[1..][j + 1], steps[1..][j], i)
      {
        assert TakesStep(run[j + 1], run[j + 1 + 1], steps[j + 1], i);
      }
      WorkIsDone(run[1..], steps[1..], i);
      if Own(step, i) && Left(s, s.readers[i]) > 0 {
        OwnStepWorks(s, step, i);
      }
    }
  }

  /** Once the entry is complete everything is delivered, whatever happens beside it: a handle that
      has taken a number of steps linear in the size of the buffer has received all of the buffer
      and has been told the end. */
  lemma AllIsDelivered(run: seq<State>, steps: seq<Step>, i: nat)
    requires RunBy(run, steps, i) && Reachable(run[0]) && run[0].st == Complete && i < |run[0].readers|
    requires OwnSteps(steps, i) >= 6 * |run[0].buf| + 12
    ensures var s := run[|steps|];
            s.buf == run[0].buf && i < |s.readers| && s.readers[i].received == s.buf && s.readers[i].eof
  {
    WorkIsDone(run, steps, i);
    var s := run[|steps|];
    ReachableHasInv(s);
    assert ReaderInv(s, s.readers[i]);
  }
}
