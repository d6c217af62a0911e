/** The semaphore work queue of s.pchelintsev/25: fixed slots of text, written and read under a
    binary semaphore, and claimed through the counting semaphores `semFull` and `semFree`. */
module WorkQueueSlots {

  const WQ_QUEUE_CAP := 10
  const WQ_STRING_CAP := 80

  newtype byte = b: int | 0 <= b < 256

  /** Length of the text in a buffer: up to the first zero byte, at most `WQ_STRING_CAP`. */
  function TextLen(b: seq<byte>): (n: nat)
    ensures n <= |b| && n <= WQ_STRING_CAP
    ensures forall k :: 0 <= k < n ==> b[k] != 0
    ensures n < |b| && n < WQ_STRING_CAP ==> b[n] == 0
  {
    TextLenFrom(b, 0)
  }

  function TextLenFrom(b: seq<byte>, i: nat): (n: nat)
    requires i <= |b| && i <= WQ_STRING_CAP
    requires forall k :: 0 <= k < i ==> b[k] != 0
    ensures i <= n <= |b| && n <= WQ_STRING_CAP
    ensures forall k :: 0 <= k < n ==> b[k] != 0
    ensures n < |b| && n < WQ_STRING_CAP ==> b[n] == 0
    decreases |b| - i
  {
    if i == |b| || i == WQ_STRING_CAP || b[i] == 0 then i else TextLenFrom(b, i + 1)
  }

  function Text(b: seq<byte>): seq<byte> { b[..TextLen(b)] }

  /** A buffer a caller may pass to `wqPut`: it has a zero byte or fills a slot. */
  predicate Readable(b: seq<byte>) { TextLen(b) < |b| || |b| >= WQ_STRING_CAP }

  predicate IsSlot(slot: seq<byte>) { |slot| == WQ_STRING_CAP }

  /** The slot after the copy loop of `wqPut`: the text and its terminator, then what was there. */
  function CopyIn(slot: seq<byte>, b: seq<byte>): (slot': seq<byte>)
    requires IsSlot(slot)
    ensures IsSlot(slot')
  {
    var n := TextLen(b);
    if n == WQ_STRING_CAP then b[..n] else b[..n] + [0] + slot[n + 1..]
  }

  /** The text read from a slot is the text that was put there, whatever the slot held before. */
  lemma PutThenRead(slot: seq<byte>, b: seq<byte>)
    requires IsSlot(slot) && Readable(b)
    ensures Text(CopyIn(slot, b)) == Text(b)
  {
    var n := TextLen(b);
    var slot' := CopyIn(slot, b);
    assert forall k :: 0 <= k < n ==> slot'[k] == b[k] && slot'[k] != 0;
    assert n < WQ_STRING_CAP ==> slot'[n] == 0;
    assert TextLen(slot') == n;
  }

  /** Bytes that `wqPop` copies into a buffer of `size` bytes. */
  function CopySize(size: nat): (n: nat)
    ensures n <= size && n <= WQ_STRING_CAP && (n == size || n == WQ_STRING_CAP)
  {
    if size < WQ_STRING_CAP then size else WQ_STRING_CAP
  }

  /** A buffer that is too small gets the beginning of the text, and any other the whole of it. */
  lemma CroppedText(slot: seq<byte>, size: nat)
    requires IsSlot(slot)
    ensures Text(slot[..CopySize(size)]) == if size < TextLen(slot) then Text(slot)[..size] else Text(slot)
  {
    var n := CopySize(size);
    assert TextLen(slot[..n]) == if size < TextLen(slot) then size else TextLen(slot) by {
      assert forall k :: 0 <= k < n ==> slot[..n][k] == slot[k];
    }
  }

  /** The copy loop of `wqPut` over the byte store. */
  method WriteSlot(store: array<byte>, base: nat, buf: seq<byte>) returns (len: nat)
    requires base + WQ_STRING_CAP <= store.Length && Readable(buf)
    modifies store
    ensures store[base..base + WQ_STRING_CAP] == CopyIn(old(store[base..base + WQ_STRING_CAP]), buf)
    ensures store[..base] == old(store[..base])
    ensures store[base + WQ_STRING_CAP..] == old(store[base + WQ_STRING_CAP..])
    ensures len == TextLen(buf)
  {
    len := WQ_STRING_CAP;
    var i := 0;
    while i < WQ_STRING_CAP
      invariant 0 <= i <= WQ_STRING_CAP && i <= TextLen(buf) && len == WQ_STRING_CAP
      invariant forall k :: 0 <= k < i ==> store[base + k] == buf[k]
      invariant forall k :: 0 <= k < store.Length && !(base <= k < base + i) ==> store[k] == old(store[k])
    {
      store[base + i] := buf[i];
      if buf[i] == 0 {
        len := i;
        break;
      }
      i := i + 1;
    }
    ghost var was := old(store[base..base + WQ_STRING_CAP]);
    assert store[base..base + WQ_STRING_CAP] == CopyIn(was, buf);
  }

  function Wrap(n: nat, add: nat): (r: nat)
    ensures r < WQ_QUEUE_CAP
  {
    (n + add) % WQ_QUEUE_CAP
  }
}
