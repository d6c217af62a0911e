/** The message queue of a.yanin/26: a ring buffer guarded by a mutex.

    `Monitor` is what the mutex protects, seen abstractly. The section functions say what one
    mutex-held stretch of `quasi_push`, `quasi_pop` and `quasi_drop` does to it, which condition
    variables it notifies, and whether the caller goes to sleep or returns. The class `Quasi`
    is the ring itself; its methods are proved against the section functions. */
module QuasiMonitor {

  type Message = string

  datatype Status = Ok | Dropped

  datatype Monitor = Monitor(queue: seq<Message>, capacity: nat, blocked: nat, state: Status)

  datatype Notify = Nobody | One | All

  /** Notifications sent to `rd_cond`, `wr_cond` and `drop_cond`. */
  datatype Wake = Wake(rd: Notify, wr: Notify, drop: Notify)

  const QUIET := Wake(Nobody, Nobody, Nobody)

  datatype Fate = Sleeps | Returns(status: Status, got: seq<Message>)

  datatype Section = Section(mon: Monitor, wake: Wake, fate: Fate)

  predicate WellFormed(m: Monitor)
  {
    m.capacity >= 1 && |m.queue| <= m.capacity
  }

  /** Leaving the monitor: the last counted thread of a dropped epoch reopens the queue. */
  function Leave(m: Monitor, counted: bool): Monitor
    requires counted ==> m.blocked > 0
  {
    var m' := if counted then m.(blocked := m.blocked - 1) else m;
    if m'.state == Dropped && m'.blocked == 0 then m'.(state := Ok) else m'
  }

  function Reopens(m: Monitor, counted: bool): Notify
    requires counted ==> m.blocked > 0
  {
    if m.state == Dropped && Leave(m, counted).state == Ok then All else Nobody
  }

  /** `quasi_push` from the loop test to the unlock, by a thread that is already counted. */
  function PushSection(m: Monitor, x: Message): Section
    requires m.blocked > 0
  {
    if m.state == Dropped then
      Section(Leave(m, true), Wake(Nobody, Nobody, Reopens(m, true)), Returns(Dropped, []))
    else if |m.queue| >= m.capacity then
      Section(m, QUIET, Sleeps)
    else
      Section(Leave(m.(queue := m.queue + [x]), true),
              Wake(if m.queue == [] then One else Nobody, Nobody, Nobody), Returns(Ok, []))
  }

  /** `quasi_pop` from the loop test to the unlock, by a thread that is already counted. */
  function PopSection(m: Monitor): Section
    requires m.blocked > 0
  {
    if m.state == Dropped then
      Section(Leave(m, true), Wake(Nobody, Nobody, Reopens(m, true)), Returns(Dropped, []))
    else if m.queue == [] then
      Section(m, QUIET, Sleeps)
    else
      Section(Leave(m.(queue := m.queue[1..]), true),
              Wake(Nobody, if |m.queue| >= m.capacity then One else Nobody, Nobody),
              Returns(Ok, [m.queue[0]]))
  }

  /** `quasi_drop` once `quasi_lock_clean` has let it in. */
  function DropSection(m: Monitor): Section
  {
    var dropped := m.(queue := [], state := Dropped);
    Section(Leave(dropped, false), Wake(All, All, Reopens(dropped, false)), Returns(Ok, []))
  }

  /** The messages held by a ring whose cursors are `rd` and `wr`, oldest first. */
  ghost function RingContents(store: seq<Message>, rd: nat, wr: nat, full: bool): (s: seq<Message>)
    requires rd < |store| && wr < |store|
  {
    if !full && rd <= wr then store[rd..wr] else store[rd..] + store[..wr]
  }

  /** The slot after `i` in a ring of `n`. */
  function After(i: nat, n: nat): nat { if i + 1 == n then 0 else i + 1 }

  lemma WrapNext(i: nat, n: nat)
    requires i < n
    ensures (i + 1) % n == After(i, n) < n
  {
  }

  /** Moving the read cursor past the oldest message drops exactly that message. */
  lemma AdvanceRdContents(store: seq<Message>, rd: nat, wr: nat, full: bool)
    requires rd < |store| && wr < |store| && (full ==> rd == wr)
    requires RingContents(store, rd, wr, full) != []
    ensures store[rd] == RingContents(store, rd, wr, full)[0]
    ensures RingContents(store, After(rd, |store|), wr, false) == RingContents(store, rd, wr, full)[1..]
  {
    if !full && rd <= wr {
      assert store[rd..wr][1..] == store[rd + 1..wr];
      return;
    }
    if rd + 1 == |store| {
      assert store[rd..] + store[..wr] == [store[rd]] + store[..wr];
      assert store[..wr] == store[0..wr];
      return;
    }
    assert store[rd..] + store[..wr] == [store[rd]] + (store[rd + 1..] + store[..wr]);
  }

  /** Writing at the write cursor and moving it on appends one message. */
  lemma AdvanceWrContents(store: seq<Message>, rd: nat, wr: nat, x: Message)
    requires rd < |store| && wr < |store|
    ensures var wr' := After(wr, |store|);
            RingContents(store[wr := x], rd, wr', wr' == rd) == RingContents(store, rd, wr, false) + [x]
  {
    var store' := store[wr := x];
    if wr + 1 == |store| {
      assert store'[rd..] == store[rd..wr] + [x];
    } else {
      assert store'[..wr + 1] == store[..wr] + [x];
      if rd <= wr {
        assert store'[rd..wr + 1] == store[rd..wr] + [x];
      } else {
        assert store'[rd..] == store[rd..];
      }
    }
  }

  class Quasi {
    var storage: array<Message>
    var wrIdx: nat
    var rdIdx: nat
    var full: bool
    var blockedCount: nat
    var state: Status

    ghost predicate Valid()
      reads this
    {
      && storage.Length >= 1
      && wrIdx < storage.Length
      && rdIdx < storage.Length
      && (full ==> rdIdx == wrIdx)
    }

    /** The queued messages, oldest first. */
    ghost function Contents(): (s: seq<Message>)
      requires Valid()
      reads this, storage
    {
      RingContents(storage[..], rdIdx, wrIdx, full)
    }

    ghost function View(): Monitor
      requires Valid()
      reads this, storage
    {
      Monitor(Contents(), storage.Length, blockedCount, state)
    }

    constructor (capacity: nat)
      requires capacity >= 1
      ensures Valid() && fresh(storage)
      ensures View() == Monitor([], capacity, 0, Ok)
    {
      storage := new Message[capacity](_ => "");
      wrIdx, rdIdx, full, blockedCount, state := 0, 0, false, 0, Ok;
    }

    method IsEmpty() returns (r: bool)
      requires Valid()
      ensures r <==> Contents() == []
    {
      r := rdIdx == wrIdx && !full;
    }

    method IsFull() returns (r: bool)
      requires Valid()
      ensures r <==> |Contents()| == storage.Length
    {
      r := full;
      assert !r || rdIdx == wrIdx;
    }

    method AdvanceRd() returns (ok: bool)
      requires Valid()
      modifies this`rdIdx, this`full
      ensures Valid()
      ensures ok <==> old(Contents()) != []
      ensures ok ==> Contents() == old(Contents())[1..] && old(storage[rdIdx]) == old(Contents())[0]
      ensures !ok ==> Contents() == old(Contents())
    {
      var empty := IsEmpty();
      if empty { return false; }
      AdvanceRdContents(storage[..], rdIdx, wrIdx, full);
      WrapNext(rdIdx, storage.Length);
      rdIdx := rdIdx + 1;
      rdIdx := rdIdx % storage.Length;
      full := false;
      return true;
    }

    method PopUnsync() returns (ok: bool, result: Message)
      requires Valid()
      modifies this`rdIdx, this`full
      ensures Valid()
      ensures ok <==> old(Contents()) != []
      ensures ok ==> result == old(Contents())[0] && Contents() == old(Contents())[1..]
      ensures !ok ==> Contents() == old(Contents())
    {
      var idx := rdIdx;
      result := "";
      ok := AdvanceRd();
      if ok { result := storage[idx]; }
    }

    /** `quasi_advance_wr` and the copy into the slot it vacates. */
    method PushUnsync(message: Message) returns (ok: bool)
      requires Valid()
      modifies this`wrIdx, this`full, storage
      ensures Valid()
      ensures ok <==> |old(Contents())| < storage.Length
      ensures Contents() == if ok then old(Contents()) + [message] else old(Contents())
    {
      var isFull := IsFull();
      if isFull { return false; }
      AdvanceWrContents(storage[..], rdIdx, wrIdx, message);
      WrapNext(wrIdx, storage.Length);
      var idx := wrIdx;
      wrIdx := wrIdx + 1;
      wrIdx := wrIdx % storage.Length;
      full := wrIdx == rdIdx;
      storage[idx] := message;
      assert storage[..] == old(storage[..])[idx := message];
      return true;
    }

    /** `quasi_unlock`, without the release of the mutex. */
    method Unlock(decBlocked: bool) returns (drop: Notify)
      requires Valid()
      requires decBlocked ==> blockedCount > 0
      modifies this`blockedCount, this`state
      ensures Valid()
      ensures View() == Leave(old(View()), decBlocked)
      ensures drop == old(Reopens(View(), decBlocked))
    {
      drop := Nobody;
      if decBlocked { blockedCount := blockedCount - 1; }
      if state == Dropped && blockedCount == 0 {
        state := Ok;
        drop := All;
      }
    }

    method Push(message: Message) returns (wake: Wake, fate: Fate)
      requires Valid() && blockedCount > 0
      modifies this, storage
      ensures Valid() && storage == old(storage)
      ensures Section(View(), wake, fate) == PushSection(old(View()), message)
    {
      wake := QUIET;
      var isFull := IsFull();
      if state == Ok && isFull { return QUIET, Sleeps; }
      var result := state;
      if state == Ok {
        var wasEmpty := IsEmpty();
        var pushed := PushUnsync(message);
        assert pushed;
        if wasEmpty { wake := wake.(rd := One); }
      }
      var drop := Unlock(true);
      wake, fate := wake.(drop := drop), Returns(result, []);
    }

    method Pop() returns (wake: Wake, fate: Fate)
      requires Valid() && blockedCount > 0
      modifies this
      ensures Valid() && storage == old(storage)
      ensures Section(View(), wake, fate) == PopSection(old(View()))
    {
      wake := QUIET;
      var empty := IsEmpty();
      if state == Ok && empty { return QUIET, Sleeps; }
      var ret := state;
      var got := [];
      if state == Ok {
        var wasFull := IsFull();
        var popped, message := PopUnsync();
        assert popped;
        got := [message];
        if wasFull { wake := wake.(wr := One); }
      }
      var drop := Unlock(true);
      wake, fate := wake.(drop := drop), Returns(ret, got);
    }

    method Drop() returns (wake: Wake, fate: Fate)
      requires Valid() && state == Ok
      modifies this
      ensures Valid() && storage == old(storage)
      ensures Section(View(), wake, fate) == DropSection(old(View()))
    {
      var more := true;
      while more
        invariant Valid() && storage == old(storage) && blockedCount == old(blockedCount)
        invariant !more ==> Contents() == []
        decreases |Contents()|, more
      {
        var ignored;
        more, ignored := PopUnsync();
      }
      state := Dropped;
      wrIdx := 0;
      rdIdx := 0;
      var drop := Unlock(false);
      wake, fate := Wake(All, All, drop), Returns(Ok, []);
    }
  }
}
