/** The fixed-capacity circular queue of blocks (gc_buffer with the indices
    buffer_front and buffer_back). One of the BUFFER_SIZE slots is always
    left free so that "full" and "empty" can be told apart, so at most
    BUFFER_SIZE - 1 blocks are queued. */
module Buffer {
  import opened Gcode

  const BUFFER_SIZE: int := 5

  /** The queued blocks of a slot array: the slots from index f up to, but
      not including, index b, wrapping around the end of the array. */
  function Window(s: seq<Block>, f: int, b: int): (w: seq<Block>)
    requires |s| == BUFFER_SIZE && 0 <= f < BUFFER_SIZE && 0 <= b < BUFFER_SIZE
    ensures |w| == (b - f + BUFFER_SIZE) % BUFFER_SIZE
    ensures forall k :: 0 <= k < |w| ==> w[k] == s[(f + k) % BUFFER_SIZE]
  {
    if f <= b then s[f..b] else s[f..] + s[..b]
  }

  class BlockBuffer {
    /** The slot array; allocated once and never replaced. */
    const slots: array<Block>
    var front: int
    var back: int

    ghost predicate Valid()
      reads this
    {
      slots.Length == BUFFER_SIZE && 0 <= front < BUFFER_SIZE && 0 <= back < BUFFER_SIZE
    }

    /** The queue as a sequence, oldest block first. */
    ghost function Contents(): seq<Block>
      reads this, slots
      requires Valid()
    {
      Window(slots[..], front, back)
    }

    /** All slots hold default blocks and both indices are 0. */
    constructor ()
      ensures Valid() && fresh(slots)
      ensures front == 0 && back == 0
      ensures forall k :: 0 <= k < BUFFER_SIZE ==> slots[k] == DefaultBlock()
      ensures Contents() == []
    {
      slots := new Block[BUFFER_SIZE](_ => DefaultBlock());
      front, back := 0, 0;
    }

    /** The index that follows back (get_next). */
    function Next(): (n: int)
      reads this
      requires Valid()
      ensures 0 <= n < BUFFER_SIZE
      ensures n == (back + 1) % BUFFER_SIZE
    {
      if back >= BUFFER_SIZE - 1 then 0 else back + 1
    }

    /** get_buffer_empty: the indices coincide exactly when nothing is queued. */
    function IsEmpty(): (e: bool)
      reads this, slots
      requires Valid()
      ensures e <==> Contents() == []
    {
      front == back
    }

    /** get_buffer_full: front sits just after back exactly when
        BUFFER_SIZE - 1 blocks are queued. */
    function IsFull(): (f: bool)
      reads this, slots
      requires Valid()
      ensures f <==> |Contents()| == BUFFER_SIZE - 1
    {
      front == Next()
    }

    /** buffer_current: the slot at front, which is the oldest queued block
        when the queue is not empty. */
    function Current(): (b: Block)
      reads this, slots
      requires Valid()
      ensures Contents() != [] ==> b == Contents()[0]
    {
      slots[front]
    }

    /** buffer_last: the slot just before back, which is the newest queued
        block when the queue is not empty. */
    function Last(): (b: Block)
      reads this, slots
      requires Valid()
      ensures Contents() != [] ==> b == Contents()[|Contents()| - 1]
    {
      slots[if back - 1 < 0 then BUFFER_SIZE - 1 else back - 1]
    }

    /** buffer_add: refuses when full; otherwise stores the block at back
        and moves back on by one. */
    method Add(b: Block) returns (ok: bool)
      requires Valid()
      modifies this, slots
      ensures Valid() && front == old(front)
      ensures ok <==> |old(Contents())| < BUFFER_SIZE - 1
      ensures ok <==> !old(IsFull())
      ensures !ok ==> back == old(back) && slots[..] == old(slots[..])
      ensures ok ==> back == old(Next())
      ensures ok ==> slots[..] == old(slots[..])[old(back) := b]
      ensures ok ==> Contents() == old(Contents()) + [b] && Last() == b
      ensures !ok ==> Contents() == old(Contents()) && Last() == old(Last())
    {
      if IsFull() {
        return false;
      }
      ghost var before := Contents();
      var next := back;
      slots[next] := b;
      back := Next();
      assert slots[..] == old(slots[..])[next := b];
      assert Contents() == before + [b] by {
        assert |Contents()| == |before| + 1;
        forall k | 0 <= k < |before| ensures Contents()[k] == before[k] {
          assert (front + k) % BUFFER_SIZE != next;
        }
      }
      return true;
    }

    /** buffer_advance: returns the slot at front and moves front on by one.
        It does not check for emptiness; on an empty queue the indices then
        describe a full one. */
    method Advance() returns (b: Block)
      requires Valid()
      modifies this
      ensures Valid() && back == old(back)
      ensures b == old(slots[front])
      ensures front == (old(front) + 1) % BUFFER_SIZE
      ensures old(Contents()) != [] ==> b == old(Contents())[0] && Contents() == old(Contents())[1..]
      ensures old(Contents()) == [] ==> |Contents()| == BUFFER_SIZE - 1
      ensures Last() == old(Last())
    {
      var current := front;
      front := front + 1;
      if front >= BUFFER_SIZE {
        front := 0;
      }
      b := slots[current];
    }
  }

  /** From an empty queue, four adds succeed and a fifth is refused; after
      one advance, an add succeeds again. */
  method FillAndDrainOne() returns (results: seq<bool>)
    ensures results == [true, true, true, true, false, true]
  {
    var q := new BlockBuffer();
    var b := DefaultBlock();
    var r1 := q.Add(b);
    var r2 := q.Add(b);
    var r3 := q.Add(b);
    var r4 := q.Add(b);
    var r5 := q.Add(b);
    var _ := q.Advance();
    var r6 := q.Add(b);
    results := [r1, r2, r3, r4, r5, r6];
  }
}
