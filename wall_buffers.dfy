/**
 * The wall buffer: a fixed-capacity circular FIFO of walls with a head
 * slot (where the next wall is written) and a tail slot (the oldest wall),
 * modelled with slot indices in place of the pointers of wallBuffer.h.
 */
module WallBuffers {
  import opened Wrappers
  import opened Walls

  /** The capacity the game allocates. */
  const WallBufferSize: nat := 10

  datatype WallBufferError = NoError | Overflow | Underflow | OverStep

  /** The numeric value of each error code. */
  function ErrorCode(e: WallBufferError): (n: nat)
    ensures n <= 3
  {
    match e
    case NoError => 0
    case Overflow => 1
    case Underflow => 2
    case OverStep => 3
  }

  /** Distinct errors have distinct codes, and only success has code 0. */
  lemma ErrorCodesDistinct(e1: WallBufferError, e2: WallBufferError)
    ensures ErrorCode(e1) == ErrorCode(e2) ==> e1 == e2
    ensures ErrorCode(e1) == 0 <==> e1 == NoError
  {
  }

  /** advanceBufferPointer: the next slot, wrapping from the last slot of
      the array back to slot 0. */
  function Advance(i: nat, size: nat): (j: nat)
    requires i < size
    ensures j < size
    ensures i < size - 1 ==> j == i + 1
    ensures i == size - 1 ==> j == 0
    ensures j == (i + 1) % size
  {
    ModWrap(i + 1, size);
    if i + 1 > size - 1 then 0 else i + 1
  }

  /** x mod n for 0 <= x < 2n: at most one wrap. */
  lemma ModWrap(x: int, n: int)
    requires 0 < n && 0 <= x < 2 * n
    ensures x % n == (if x < n then x else x - n)
  {
    if x < n {
      assert x == 0 * n + x;
    } else {
      assert x == 1 * n + (x - n);
    }
  }

  /** The slot k steps after `start`, for at most one trip around. */
  function Slot(start: nat, k: nat, size: nat): (j: nat)
    requires start < size && k <= size
    ensures j < size
    ensures j == (start + k) % size
  {
    ModWrap(start + k, size);
    if start + k < size then start + k else start + k - size
  }

  /** Each application of advanceBufferPointer is one more step. */
  lemma AdvanceSlot(start: nat, k: nat, size: nat)
    requires start < size && k < size
    ensures Advance(Slot(start, k, size), size) == Slot(start, k + 1, size)
    ensures Slot(Advance(start, size), k, size) == Slot(start, k + 1, size)
  {
  }

  /** The slot reached by advancing k times. */
  function AdvanceTimes(i: nat, k: nat, size: nat): (j: nat)
    requires i < size
    ensures j < size
  {
    if k == 0 then i else Advance(AdvanceTimes(i, k - 1, size), size)
  }

  /** Advancing k times, for k up to the size, moves k slots modulo the size. */
  lemma {:induction false} AdvanceTimesIsMod(i: nat, k: nat, size: nat)
    requires i < size && k <= size
    ensures AdvanceTimes(i, k, size) == (i + k) % size
  {
    if k == 0 {
      ModWrap(i, size);
    } else {
      AdvanceTimesIsMod(i, k - 1, size);
      assert AdvanceTimes(i, k - 1, size) == Slot(i, k - 1, size);
      AdvanceSlot(i, k - 1, size);
    }
  }

  /** Advancing once per slot comes back to the starting slot. */
  lemma FullCycle(i: nat, size: nat)
    requires i < size
    ensures AdvanceTimes(i, size, size) == i
  {
    AdvanceTimesIsMod(i, size, size);
    ModWrap(i + size, size);
  }

  /** The n walls stored from slot `start` on, in queue order, following
      the slots the way the tail pointer would be advanced. */
  function Live(s: seq<Wall>, start: nat, n: nat): (q: seq<Wall>)
    requires n <= |s| && (n == 0 || start < |s|)
    ensures |q| == n
    ensures forall k :: 0 <= k < n ==> q[k] == s[Slot(start, k, |s|)]
    decreases n
  {
    if n == 0 then []
    else
      var rest := Live(s, Advance(start, |s|), n - 1);
      assert forall k :: 0 < k < n ==> Slot(Advance(start, |s|), k - 1, |s|) == Slot(start, k, |s|);
      [s[start]] + rest
  }

  /** Storing a wall at the slot after the live ones appends it to the queue. */
  lemma LiveStore(s: seq<Wall>, start: nat, n: nat, w: Wall)
    requires n < |s| && start < |s|
    ensures Live(s[Slot(start, n, |s|) := w], start, n + 1) == Live(s, start, n) + [w]
  {
    var s' := s[Slot(start, n, |s|) := w];
    var a, b := Live(s', start, n + 1), Live(s, start, n) + [w];
    forall k | 0 <= k < n + 1
      ensures a[k] == b[k]
    {
      if k < n {
        assert Slot(start, k, |s|) != Slot(start, n, |s|);
      }
    }
  }

  class WallBuffer {
    var buffer: array<Wall>
    var bufferSize: nat
    var numItems: nat
    /** Slot where the next wall is written. */
    var head: nat
    /** Slot of the oldest wall. */
    var tail: nat

    /** The head slot sits numItems slots after the tail slot. */
    predicate Valid()
      reads this
    {
      && buffer.Length == bufferSize
      && numItems <= bufferSize
      && (if bufferSize == 0 then head == 0 && tail == 0
          else tail < bufferSize && head == (tail + numItems) % bufferSize)
    }

    /** The queued walls, oldest first. */
    function Contents(): seq<Wall>
      requires Valid()
      reads this, buffer
    {
      Live(buffer[..], tail, numItems)
    }

    /** WallBuffer_init: an empty buffer over a fresh array of the given size. */
    constructor(size: nat)
      ensures Valid() && fresh(buffer)
      ensures bufferSize == size && numItems == 0 && head == 0 && tail == 0
      ensures Contents() == []
    {
      buffer := new Wall[size];
      bufferSize := size;
      numItems := 0;
      head := 0;
      tail := 0;
    }

    /** Releases the array: the buffer is left with no slots. */
    method Destroy()
      modifies this
      ensures Valid() && fresh(buffer)
      ensures bufferSize == 0 && numItems == 0 && head == 0 && tail == 0
      ensures buffer.Length == 0 && Contents() == []
    {
      buffer := new Wall[0];
      bufferSize := 0;
      numItems := 0;
      head := 0;
      tail := 0;
    }

    /**
     * Writes a new wall with the given gap at the head slot and advances the
     * head; on a full buffer nothing changes and the result is Overflow.
     */
    method AddWall(startAngle: real, endAngle: real) returns (err: WallBufferError)
      requires Valid()
      modifies this`numItems, this`head, buffer
      ensures Valid()
      ensures old(numItems) < bufferSize ==> (
        && err == NoError
        && buffer[..] == old(buffer[..])[old(head) := Init(startAngle, endAngle)]
        && head == Advance(old(head), bufferSize)
        && numItems == old(numItems) + 1
        && Contents() == old(Contents()) + [Init(startAngle, endAngle)])
      ensures old(numItems) == bufferSize ==> (
        && err == Overflow
        && buffer[..] == old(buffer[..])
        && head == old(head) && numItems == old(numItems))
    {
      if numItems < bufferSize {
        LiveStore(buffer[..], tail, numItems, Init(startAngle, endAngle));
        AdvanceSlot(tail, numItems, bufferSize);
        numItems := numItems + 1;
        buffer[head] := Init(startAngle, endAngle);
        head := Advance(head, bufferSize);
        return NoError;
      }
      return Overflow;
    }

    /**
     * Takes the wall at the tail slot and advances the tail; on an empty
     * buffer nothing changes, the result is Underflow and no wall is
     * returned.  A C caller of WallBuffer_removeWall that passes NULL simply
     * ignores the returned wall.
     */
    method RemoveWall() returns (err: WallBufferError, removed: Option<Wall>)
      requires Valid()
      modifies this`numItems, this`tail
      ensures Valid()
      ensures old(numItems) > 0 ==> (
        && err == NoError
        && removed == Some(old(buffer[tail]))
        && tail == Advance(old(tail), bufferSize)
        && numItems == old(numItems) - 1
        && removed == Some(old(Contents())[0])
        && Contents() == old(Contents())[1..])
      ensures old(numItems) == 0 ==> (
        && err == Underflow && removed == None
        && tail == old(tail) && numItems == old(numItems))
    {
      if numItems > 0 {
        AdvanceSlot(tail, numItems - 1, bufferSize);
        numItems := numItems - 1;
        removed := Some(buffer[tail]);
        tail := Advance(tail, bufferSize);
        return NoError, removed;
      }
      return Underflow, None;
    }

    /** Forgets every wall without touching the array or its size. */
    method EmptyBuffer()
      requires Valid()
      modifies this`numItems, this`head, this`tail
      ensures Valid()
      ensures numItems == 0 && head == 0 && tail == 0
      ensures Contents() == []
    {
      numItems := 0;
      head := 0;
      tail := 0;
    }
  }

  /** Walls leave the buffer in the order they were added, and a third
      removal from a buffer that held two underflows. */
  method FirstInFirstOut(b: WallBuffer, w1: (real, real), w2: (real, real))
    returns (first: Option<Wall>, second: Option<Wall>, third: WallBufferError)
    requires b.Valid() && b.numItems == 0 && b.bufferSize >= 2
    modifies b, b.buffer
    ensures b.Valid() && b.numItems == 0
    ensures first == Some(Init(w1.0, w1.1)) && second == Some(Init(w2.0, w2.1))
    ensures third == Underflow
  {
    var _ := b.AddWall(w1.0, w1.1);
    var _ := b.AddWall(w2.0, w2.1);
    var _, r1 := b.RemoveWall();
    var _, r2 := b.RemoveWall();
    var e3, _ := b.RemoveWall();
    return r1, r2, e3;
  }
}
