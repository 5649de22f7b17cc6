/** The ring buffer of the pointing-device drivers, as an object over a raw array. */
module RingBuffer {

  /** What is in the ring: the cells from the tail up to the head, around the end. */
  function Between<T>(cells: seq<T>, head: nat, tail: nat): (r: seq<T>)
    requires head < |cells| && tail < |cells|
  {
    if head >= tail then cells[tail..head] else cells[tail..] + cells[..head]
  }

  /** The cells from the tail up to the head, counted on a ring of `n` cells. */
  function CellCount(n: nat, head: nat, tail: nat): (c: int) {
    if head >= tail then head - tail else n - tail + head
  }

  /** The `move` cells from the head on, around the end. */
  function Ahead<T>(cells: seq<T>, head: nat, move: nat): (r: seq<T>)
    requires head < |cells| && move <= |cells|
    ensures |r| == move
  {
    if head + move <= |cells| then cells[head..head + move] else cells[head..] + cells[..head + move - |cells|]
  }

  /** Where the head goes: forward and around, unless the count then says that the ring has become emptier. */
  function HeadAfter(n: nat, head: nat, tail: nat, move: nat): (r: int) {
    var moved := if head + move >= n then head + move - n else head + move;
    if CellCount(n, moved, tail) >= CellCount(n, head, tail) then moved else head
  }

  function TailAfter(n: nat, tail: nat, move: nat): (r: int) {
    if tail + move >= n then tail + move - n else tail + move
  }

  lemma {:induction false} HeadAdvances<T>(cells: seq<T>, head: nat, tail: nat, move: nat)
    requires head < |cells| && tail < |cells| && move <= |cells|
    ensures 0 <= HeadAfter(|cells|, head, tail, move) < |cells|
    ensures var head' := HeadAfter(|cells|, head, tail, move);
            if |Between(cells, head, tail)| + move < |cells|
            then Between(cells, head', tail) == Between(cells, head, tail) + Ahead(cells, head, move)
            else head' == head
  {
    if |Between(cells, head, tail)| + move < |cells| {
      if head + move < |cells| {
        StraightAhead(cells, head, tail, move);
      } else {
        assert head >= tail;
        AroundTheEnd(cells, head, tail, head + move - |cells|);
      }
    }
  }

  lemma {:induction false} AroundTheEnd<T>(cells: seq<T>, head: nat, tail: nat, over: nat)
    requires over < tail <= head < |cells|
    ensures Between(cells, over, tail) == Between(cells, head, tail) + (cells[head..] + cells[..over])
  {
    assert cells[tail..head] + cells[head..] == cells[tail..];
    assert cells[tail..head] + (cells[head..] + cells[..over]) == cells[tail..] + cells[..over];
  }

  lemma {:induction false} StraightAhead<T>(cells: seq<T>, head: nat, tail: nat, move: nat)
    requires head < |cells| && tail < |cells| && head + move < |cells|
    requires |Between(cells, head, tail)| + move < |cells|
    ensures Between(cells, head + move, tail) == Between(cells, head, tail) + cells[head..head + move]
  {
    if head >= tail {
      Rejoin(cells, tail, head, head + move);
    } else {
      Rejoin(cells, 0, head, head + move);
      var a, b, c := cells[tail..], cells[0..head], cells[head..head + move];
      assert a + b + c == a + (b + c);
      assert cells[..head] == b && cells[..head + move] == b + c;
    }
  }

  lemma {:induction false} Rejoin<T>(cells: seq<T>, a: nat, b: nat, c: nat)
    requires a <= b <= c <= |cells|
    ensures cells[a..b] + cells[b..c] == cells[a..c]
  {
  }

  class RingBuffer<T(0)> {
    const buffer: array<T>
    var head: nat
    var tail: nat

    ghost predicate Valid()
      reads this
    {
      head < buffer.Length && tail < buffer.Length
    }

    ghost function Contents(): seq<T>
      requires Valid()
      reads this, buffer
    {
      Between(buffer[..], head, tail)
    }

    constructor (size: nat)
      requires size > 0
      ensures Valid() && fresh(buffer) && buffer.Length == size && Contents() == [] && head == tail == 0
    {
      buffer := new T[size];
      head, tail := 0, 0;
    }

    method Reset()
      requires buffer.Length > 0
      modifies this
      ensures Valid() && Contents() == [] && head == tail == 0
    {
      head, tail := 0, 0;
    }

    method Count() returns (n: nat)
      requires Valid()
      ensures n == |Contents()|
    {
      n := CellCount(buffer.Length, head, tail);
    }

    /** Appends, unless only one cell is free: then nothing happens. */
    method Push(data: T)
      requires Valid()
      modifies this`head, buffer
      ensures Valid()
      ensures Contents() == old(Contents()) + if |old(Contents())| + 1 < buffer.Length then [data] else []
    {
      var newHead := head + 1;
      if newHead >= buffer.Length {
        newHead := 0;
      }
      if newHead != tail {
        buffer[head] := data;
        head := newHead;
      }
    }

    /** No check for underflow: there must be something to fetch. */
    method Fetch() returns (data: T)
      requires Valid() && Contents() != []
      modifies this`tail
      ensures Valid() && [data] + Contents() == old(Contents())
    {
      data := buffer[tail];
      tail := tail + 1;
      if tail >= buffer.Length {
        tail := 0;
      }
    }

    /** A raw write through the head pointer, to a cell that is not in use. */
    method PutAtHead(offset: nat, data: T)
      requires Valid() && head + offset < buffer.Length && |Contents()| + offset < buffer.Length
      modifies buffer
      ensures Contents() == old(Contents())
      ensures buffer[..] == old(buffer[..])[head + offset := data]
    {
      buffer[head + offset] := data;
    }

    /** Takes the cells that were written through the head pointer into the ring; with no room for them, and a
        cell to spare, nothing happens. */
    method AdvanceHead(move: nat)
      requires Valid() && move <= buffer.Length
      modifies this`head
      ensures Valid() && head == HeadAfter(buffer.Length, old(head), tail, move)
      ensures if |old(Contents())| + move < buffer.Length
              then Contents() == old(Contents()) + Ahead(buffer[..], old(head), move)
              else head == old(head)
    {
      HeadAdvances(buffer[..], head, tail, move);
      var newHead := head + move;
      if newHead >= buffer.Length {
        newHead := newHead - buffer.Length;
      }
      if CellCount(buffer.Length, newHead, tail) >= CellCount(buffer.Length, head, tail) {
        head := newHead;
      }
    }

    /** Drops cells from the front.  No check for underflow. */
    method AdvanceTail(move: nat)
      requires Valid() && move <= |Contents()|
      modifies this`tail
      ensures Valid() && Contents() == old(Contents())[move..]
      ensures tail == TailAfter(buffer.Length, old(tail), move)
    {
      tail := tail + move;
      if tail >= buffer.Length {
        tail := tail - buffer.Length;
      }
    }
  }

  // ----- A ring of 32 slots of six cells, as the touchpad drivers use it

  function Chunks<T>(contents: seq<T>): (r: seq<seq<T>>)
    ensures |r| == |contents| / 6
    ensures forall i :: 0 <= i < |r| ==> |r[i]| == 6
  {
    if |contents| < 6 then [] else [contents[..6]] + Chunks(contents[6..])
  }

  lemma {:induction false} ChunksAppend<T>(contents: seq<T>, slot: seq<T>)
    requires |contents| % 6 == 0 && |slot| == 6
    ensures Chunks(contents + slot) == Chunks(contents) + [slot]
  {
    if contents == [] {
      assert contents + slot == slot && slot[..6] == slot && slot[6..] == [];
    } else {
      assert (contents + slot)[..6] == contents[..6];
      assert (contents + slot)[6..] == contents[6..] + slot;
      ChunksAppend(contents[6..], slot);
    }
  }

  /** The oldest slot never goes around the end. */
  lemma {:induction false} FrontSlot<T>(cells: seq<T>, head: nat, tail: nat)
    requires |cells| == 192 && head < 192 && tail < 192 && head % 6 == 0 && tail % 6 == 0
    requires |Between(cells, head, tail)| >= 6
    ensures tail + 6 <= 192 && TailAfter(192, tail, 6) % 6 == 0
    ensures var b := Between(cells, head, tail); Chunks(b) == [cells[tail..tail + 6]] + Chunks(b[6..])
  {
    assert Between(cells, head, tail)[..6] == cells[tail..tail + 6];
  }

  /** Neither does the slot that is being filled. */
  lemma {:induction false} HeadSlot<T>(cells: seq<T>, head: nat, tail: nat)
    requires |cells| == 192 && head < 192 && tail < 192 && head % 6 == 0 && tail % 6 == 0
    ensures head + 6 <= 192 && Ahead(cells, head, 6) == cells[head..head + 6]
    ensures HeadAfter(192, head, tail, 6) % 6 == 0 && |Between(cells, head, tail)| % 6 == 0
  {
  }

  const CAPACITY: nat := 31

  /** A full ring refuses the newest slot and keeps what it has. */
  function Enqueue<T>(queue: seq<T>, x: T): (r: seq<T>)
    ensures queue <= r && (|queue| <= CAPACITY ==> |r| <= CAPACITY)
  {
    if |queue| < CAPACITY then queue + [x] else queue
  }

  class PacketRing<T(0)> {
    const ring: RingBuffer<T>
    ghost var slots: seq<seq<T>>  // what waits, oldest first
    ghost var room: seq<T>        // the six cells of the head slot, free for the writer

    ghost predicate Valid()
      reads this, ring, ring.buffer
    {
      && ring.Valid() && ring.buffer.Length == 192 && ring.head % 6 == 0 && ring.tail % 6 == 0
      && slots == Chunks(ring.Contents())
      && room == ring.buffer[ring.head..ring.head + 6]
    }

    constructor ()
      ensures Valid() && fresh(ring) && fresh(ring.buffer) && slots == []
    {
      ring := new RingBuffer<T>(192);
      new;
      slots, room := [], ring.buffer[0..6];
    }

    /** Writes into the head slot. */
    method Put(offset: nat, data: T)
      requires Valid() && offset < 6
      modifies this`room, ring.buffer
      ensures Valid() && slots == old(slots) && |room| == 6 && room == old(room)[offset := data]
    {
      ring.PutAtHead(offset, data);
      room := room[offset := data];
    }

    method AtHead(offset: nat) returns (data: T)
      requires Valid() && offset < 6
      ensures |room| == 6 && data == room[offset]
    {
      data := ring.buffer[ring.head + offset];
    }

    /** Hands the head slot over, unless 31 slots wait already. */
    method Close()
      requires Valid()
      modifies this, ring
      ensures Valid() && |room| == 6 && slots == Enqueue(old(slots), old(room))
    {
      ghost var before := ring.Contents();
      HeadSlot(ring.buffer[..], ring.head, ring.tail);
      ring.AdvanceHead(6);
      if |before| + 6 < 192 {
        ChunksAppend(before, room);
      }
      slots := Enqueue(slots, room);
      room := ring.buffer[ring.head..ring.head + 6];
    }

    /** Is there a whole slot to read? */
    method HasSlot() returns (b: bool)
      requires Valid()
      ensures b == (slots != [])
    {
      var n := ring.Count();
      b := n >= 6;
    }

    /** Copies the oldest slot out and gives it back to the writer. */
    method Take() returns (cells: seq<T>)
      requires Valid() && slots != []
      modifies this`slots, ring
      ensures Valid() && [cells] + slots == old(slots) && |cells| == 6
    {
      FrontSlot(ring.buffer[..], ring.head, ring.tail);
      cells := ring.buffer[ring.tail..ring.tail + 6];
      assert cells == ring.buffer[..][ring.tail..ring.tail + 6];
      ring.AdvanceTail(6);
      slots := slots[1..];
    }

    /** The reader's loop: empties the ring, oldest slot first. */
    method Drain() returns (packets: seq<seq<T>>)
      requires Valid()
      modifies this`slots, ring
      ensures Valid() && slots == [] && packets == old(slots)
      ensures forall i :: 0 <= i < |packets| ==> |packets[i]| == 6
    {
      packets := [];
      var more := HasSlot();
      while more
        invariant Valid() && more == (slots != [])
        invariant packets + slots == old(slots)
        invariant forall i :: 0 <= i < |packets| ==> |packets[i]| == 6
        decreases |slots|
      {
        var packet := Take();
        packets := packets + [packet];
        more := HasSlot();
      }
    }
  }
}
