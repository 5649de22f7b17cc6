/** The ring buffer under concurrency: a writer at interrupt time fills the head slot and advances the head; a
    reader on the work loop copies packets out and advances the tail.  Every shared-memory access is a step of its
    own, so that a run is any interleaving: the reader may move the tail between the two tail reads
    of `advanceHead`, and the tail may be seen before it is wrapped. */
module ConcurrentRing {

  import opened RingBuffer

  /** A count the writer has computed from one read of the tail; `freed` records how many packets the reader had
      released by then. */
  datatype Seen = NotYet | Seen(count: int, freed: int)

  datatype Writer = Filling | Advancing(newHead: nat, withNew: Seen, withOld: Seen)

  datatype Reader<T> = Idle | Copying(bytes: seq<T>) | Releasing | Wrapping

  /** The shared ring of 32 packets of length `k`, both program counters, and the logs: packets that the writer
      committed, and packets that the reader delivered. */
  datatype State<T> = State(
    k: nat, buffer: seq<T>, head: nat, tail: nat,
    writer: Writer, reader: Reader<T>,
    committed: seq<seq<T>>, delivered: seq<seq<T>>)
  {
    function Size(): nat {
      32 * k
    }

    /** Packets whose slot the reader has given back. */
    function Freed(): int {
      if reader.Releasing? then |delivered| - 1 else |delivered|
    }
  }

  datatype Step<T> =
    | Put(offset: nat, value: T)   // writer: one byte into the head slot
    | Begin                        // writer: enter advanceHead, compute the new head
    | TailForNew                   // writer: count(new_head, m_tail)
    | TailForOld                   // writer: count(m_head, m_tail); may come first
    | Commit                       // writer: compare, and store the head or not
    | Check                        // reader: is a whole packet there?
    | Copy                         // reader: one byte of the tail slot
    | Deliver                      // reader: the packet is complete
    | AddTail                      // reader: m_tail += move
    | Wrap                         // reader: if (m_tail >= N) m_tail -= N

  predicate Enabled<T>(s: State<T>, step: Step<T>) {
    match step
    case Put(offset, _) => s.writer.Filling? && offset < s.k && s.head + offset < |s.buffer|
    case Begin => s.writer.Filling?
    case TailForNew => s.writer.Advancing? && s.writer.withNew.NotYet?
    case TailForOld => s.writer.Advancing? && s.writer.withOld.NotYet?
    case Commit => s.writer.Advancing? && s.writer.withNew.Seen? && s.writer.withOld.Seen? && s.head + s.k <= |s.buffer|
    case Check => s.reader.Idle?
    case Copy => s.reader.Copying? && |s.reader.bytes| < s.k && s.tail + |s.reader.bytes| < |s.buffer|
    case Deliver => s.reader.Copying? && |s.reader.bytes| == s.k
    case AddTail => s.reader.Releasing?
    case Wrap => s.reader.Wrapping?
  }

  function Next<T>(s: State<T>, step: Step<T>): (s': State<T>)
    requires Enabled(s, step)
  {
    var n := s.Size();
    match step
    case Put(offset, value) => s.(buffer := s.buffer[s.head + offset := value])
    case Begin =>
      var raw := s.head + s.k;
      s.(writer := Advancing(if raw >= n then raw - n else raw, NotYet, NotYet))
    case TailForNew =>
      s.(writer := s.writer.(withNew := Seen(CellCount(n, s.writer.newHead, s.tail), s.Freed())))
    case TailForOld =>
      s.(writer := s.writer.(withOld := Seen(CellCount(n, s.head, s.tail), s.Freed())))
    case Commit =>
      if s.writer.withNew.count >= s.writer.withOld.count then
        s.(head := s.writer.newHead, writer := Filling, committed := s.committed + [s.buffer[s.head..s.head + s.k]])
      else s.(writer := Filling)
    case Check => s.(reader := if CellCount(n, s.head, s.tail) >= s.k then Copying([]) else Idle)
    case Copy => s.(reader := Copying(s.reader.bytes + [s.buffer[s.tail + |s.reader.bytes|]]))
    case Deliver => s.(reader := Releasing, delivered := s.delivered + [s.reader.bytes])
    case AddTail => s.(reader := Wrapping, tail := s.tail + s.k)
    case Wrap => s.(reader := Idle, tail := if s.tail >= n then s.tail - n else s.tail)
  }

  predicate Initial<T>(s: State<T>) {
    && s.k >= 1 && |s.buffer| == s.Size()
    && s.head == 0 && s.tail == 0 && s.writer.Filling? && s.reader.Idle?
    && s.committed == [] && s.delivered == []
  }

  // ----- Arithmetic of slots

  /** The offset of the slot that packet number `i` uses. */
  function Slot(k: nat, i: nat): (r: nat) {
    (i % 32) * k
  }

  lemma {:induction false} SlotBounds(k: nat, i: nat)
    ensures Slot(k, i) + k <= 32 * k
    ensures Slot(k, i + 1) == if Slot(k, i) + k >= 32 * k then Slot(k, i) + k - 32 * k else Slot(k, i) + k
    ensures k >= 1 ==> (Slot(k, i) + k == 32 * k <==> (i + 1) % 32 == 0)
  {
    var a := i % 32;
    Distribute(a, 1, k);
    Distribute(31 - a, a + 1, k);
    if a == 31 {
      assert (i + 1) % 32 == 0;
    } else {
      assert (i + 1) % 32 == a + 1;
      if k >= 1 {
        Positive(31 - a, k);
      }
    }
  }

  lemma {:induction false} Distribute(a: nat, b: nat, k: nat)
    ensures (a + b) * k == a * k + b * k && a * k >= 0
  {
  }

  lemma {:induction false} Positive(a: nat, k: nat)
    requires a >= 1 && k >= 1
    ensures a * k >= 1
  {
  }

  /** Different packets fewer than 32 apart use disjoint slots. */
  lemma {:induction false} SlotsDisjoint(k: nat, i: nat, j: nat)
    requires i < j < i + 32
    ensures Slot(k, i) + k <= Slot(k, j) || Slot(k, j) + k <= Slot(k, i)
  {
    var a, b := i % 32, j % 32;
    assert a != b;
    if a < b {
      Distribute(b - a - 1, a + 1, k);
      Distribute(a, 1, k);
    } else {
      Distribute(a - b - 1, b + 1, k);
      Distribute(b, 1, k);
    }
  }

  /** Between 0 and 31 packets apart, the count is the number of cells between them; at 32 it reads as empty.
      A tail that is not wrapped yet makes no difference. */
  lemma {:induction false} CountOfSlots(k: nat, h: nat, t: nat)
    requires k >= 1 && t <= h <= t + 32
    ensures CellCount(32 * k, Slot(k, h), Slot(k, t)) == if h - t == 32 then 0 else (h - t) * k
    ensures t % 32 == 0 ==> CellCount(32 * k, Slot(k, h), 32 * k) == CellCount(32 * k, Slot(k, h), Slot(k, t))
  {
    var a, b := h % 32, t % 32;
    SlotGap(h, t);
    ScaledCount(k, a, b);
    var gap := if a >= b then a - b else 32 - b + a;
    assert CellCount(32 * k, Slot(k, h), Slot(k, t)) == gap * k;
    SlotBounds(k, h);
  }

  lemma {:induction false} SlotGap(h: nat, t: nat)
    requires t <= h <= t + 32
    ensures var a, b := h % 32, t % 32;
            (if a >= b then a - b else 32 - b + a) == if h - t == 32 then 0 else h - t
  {
  }

  lemma {:induction false} ScaledCount(k: nat, a: nat, b: nat)
    requires k >= 1 && a < 32 && b < 32
    ensures CellCount(32 * k, a * k, b * k) == (if a >= b then a - b else 32 - b + a) * k
  {
    if a >= b {
      Distribute(a - b, b, k);
    } else {
      Distribute(b - a, a, k);
      Distribute(32 - (b - a), b - a, k);
      Positive(b - a, k);
    }
  }

  // ----- The invariant

  /** What the writer knows from one read of the tail, possibly a while ago. */
  predicate SeenOk<T>(s: State<T>, seen: Seen, packet: nat) {
    seen.Seen? ==>
      && 0 <= seen.freed <= s.Freed() && |s.committed| - seen.freed < 32
      && seen.count == CellCount(s.Size(), Slot(s.k, packet), Slot(s.k, seen.freed))
  }

  predicate Unread<T>(s: State<T>, i: int) {
    0 <= s.Freed() <= i < |s.committed|
  }

  ghost predicate Inv<T>(s: State<T>) {
    && s.k >= 1 && |s.buffer| == s.Size()
    && 0 <= s.Freed() && |s.delivered| <= |s.committed| && |s.committed| - s.Freed() < 32
    && s.head == Slot(s.k, |s.committed|)
    && (s.tail == Slot(s.k, s.Freed()) || (s.reader.Wrapping? && s.Freed() % 32 == 0 && s.tail == s.Size()))
    && s.delivered == s.committed[..|s.delivered|]
    && (forall i :: 0 <= i < |s.committed| ==> |s.committed[i]| == s.k)
    && (forall i :: Unread(s, i) ==> Intact(s, i))
    && (s.reader.Copying? ==> s.Freed() < |s.committed| && s.reader.bytes <= s.committed[s.Freed()])
    && (s.writer.Advancing? ==>
         && s.writer.newHead == Slot(s.k, |s.committed| + 1)
         && SeenOk(s, s.writer.withNew, |s.committed| + 1)
         && SeenOk(s, s.writer.withOld, |s.committed|))
  }

  /** The slot of committed packet `i` still holds that packet. */
  ghost predicate Intact<T>(s: State<T>, i: nat)
    requires i < |s.committed|
  {
    Slot(s.k, i) + s.k <= |s.buffer| && s.buffer[Slot(s.k, i)..Slot(s.k, i) + s.k] == s.committed[i]
  }

  /** Filling the head slot touches no unread packet. */
  lemma {:induction false} PutKeepsUnread<T>(s: State<T>, step: Step<T>)
    requires Inv(s) && step.Put? && Enabled(s, step)
    ensures forall i :: Unread(s, i) ==> Intact(Next(s, step), i)
  {
    var s' := Next(s, step);
    forall i | Unread(s, i) ensures Intact(s', i) {
      SlotsDisjoint(s.k, i, |s.committed|);
      assert Intact(s, i);
      assert s'.buffer[Slot(s.k, i)..Slot(s.k, i) + s.k] == s.buffer[Slot(s.k, i)..Slot(s.k, i) + s.k];
    }
  }

  /** Whatever the reader did between the writer's two looks at the tail, an accepted packet leaves a slot free. */
  lemma {:induction false} CommitLeavesRoom<T>(s: State<T>)
    requires Inv(s) && s.writer.Advancing? && s.writer.withNew.Seen? && s.writer.withOld.Seen?
    requires s.writer.withNew.count >= s.writer.withOld.count
    ensures |s.committed| + 1 - s.Freed() < 32
  {
    var h := |s.committed|;
    var fNew, fOld := s.writer.withNew.freed, s.writer.withOld.freed;
    CountOfSlots(s.k, h + 1, fNew);
    CountOfSlots(s.k, h, fOld);
    if h + 1 - fNew == 32 && h > fOld {
      Positive(h - fOld, s.k);
    }
  }

  /** When the reader stood still between the two looks, a packet is accepted exactly when fewer than 31 wait. */
  lemma {:induction false} CommitIffRoom<T>(s: State<T>)
    requires Inv(s) && s.writer.Advancing? && s.writer.withNew.Seen? && s.writer.withOld.Seen?
    requires s.writer.withNew.freed == s.writer.withOld.freed
    ensures s.writer.withNew.count >= s.writer.withOld.count <==> |s.committed| - s.writer.withNew.freed < 31
  {
    var h, f := |s.committed|, s.writer.withNew.freed;
    CountOfSlots(s.k, h + 1, f);
    CountOfSlots(s.k, h, f);
    Distribute(h - f, 1, s.k);
    if h - f == 31 {
      Positive(h - f, s.k);
    }
  }

  /** In general the two looks decide as follows.  If 31 packets waited at the look with the new head, the packet is
      accepted only if none waited at the other; if fewer, it is refused only if the reader released at least two
      packets between the look with the old head and the later one with the new head. */
  lemma {:induction false} CommitIff<T>(s: State<T>)
    requires Inv(s) && s.writer.Advancing? && s.writer.withNew.Seen? && s.writer.withOld.Seen?
    ensures var h, new_, old_ := |s.committed|, s.writer.withNew.freed, s.writer.withOld.freed;
            s.writer.withNew.count >= s.writer.withOld.count <==>
            if h - new_ == 31 then old_ == h else new_ <= old_ + 1
  {
    var h, new_, old_ := |s.committed|, s.writer.withNew.freed, s.writer.withOld.freed;
    CountOfSlots(s.k, h + 1, new_);
    CountOfSlots(s.k, h, old_);
    if h - new_ == 31 {
      if old_ < h {
        Positive(h - old_, s.k);
      }
    } else if new_ <= old_ + 1 {
      Distribute(old_ + 1 - new_, h - old_, s.k);
    } else {
      Distribute(new_ - old_ - 1, h + 1 - new_, s.k);
      Positive(new_ - old_ - 1, s.k);
    }
  }

  /** The writer's four steps with nothing in between. */
  function Advanced<T>(s: State<T>): (s': State<T>)
    requires s.writer.Filling? && s.head + s.k <= |s.buffer|
  {
    Next(Next(Next(Next(s, Begin), TailForNew), TailForOld), Commit)
  }

  /** They are `advanceHead`, whichever look comes first. */
  lemma {:induction false} UninterruptedAdvance<T>(s: State<T>)
    requires s.writer.Filling? && s.head + s.k <= |s.buffer|
    ensures var s1 := Next(s, Begin); Next(Next(s1, TailForNew), TailForOld) == Next(Next(s1, TailForOld), TailForNew)
    ensures Advanced(s).head == HeadAfter(s.Size(), s.head, s.tail, s.k)
    ensures Advanced(s) == s.(head := Advanced(s).head, committed := Advanced(s).committed)
  {
  }

  /** They accept the packet exactly when fewer than 31 wait. */
  lemma {:induction false} UninterruptedAccepts<T>(s: State<T>)
    requires Inv(s) && s.writer.Filling?
    ensures s.head + s.k <= |s.buffer|
    ensures Advanced(s).committed == s.committed +
              if |s.committed| - s.Freed() < 31 then [s.buffer[s.head..s.head + s.k]] else []
  {
    SlotBounds(s.k, |s.committed|);
    BothLooks(s);
    var s3 := Next(Next(Next(s, Begin), TailForNew), TailForOld);
    CommitIffRoom(s3);
    assert s.committed + [] == s.committed;
  }

  /** Both looks with nothing in between see the same. */
  lemma {:induction false} BothLooks<T>(s: State<T>)
    requires Inv(s) && s.writer.Filling?
    ensures var s3 := Next(Next(Next(s, Begin), TailForNew), TailForOld);
            && Inv(s3) && s3 == s.(writer := s3.writer)
            && s3.writer.Advancing? && s3.writer.withNew.Seen? && s3.writer.withOld.Seen?
            && s3.writer.withNew.freed == s3.writer.withOld.freed == s.Freed()
  {
    var s1 := Next(s, Begin);
    StepKeeps(s, Begin);
    StepKeeps(s1, TailForNew);
    StepKeeps(Next(s1, TailForNew), TailForOld);
  }

  /** And the reader's two steps are `advanceTail`. */
  lemma {:induction false} UninterruptedRelease<T>(s: State<T>)
    requires Inv(s) && s.reader.Releasing?
    ensures Enabled(Next(s, AddTail), Wrap)
    ensures var s' := Next(Next(s, AddTail), Wrap);
            s' == s.(reader := Idle, tail := s'.tail) && s'.tail == TailAfter(s.Size(), s.tail, s.k)
  {
  }

  /** The reader takes up a packet exactly when one is waiting. */
  lemma {:induction false} CheckIffUnread<T>(s: State<T>)
    requires Inv(s) && Enabled(s, Check)
    ensures Next(s, Check).reader.Copying? <==> s.Freed() < |s.committed|
  {
    var h, f := |s.committed|, s.Freed();
    CountOfSlots(s.k, h, f);
    if f < h {
      Distribute(h - f - 1, 1, s.k);
    }
  }

  lemma {:induction false} CommitKeeps<T>(s: State<T>)
    requires Inv(s) && Enabled(s, Commit)
    ensures Inv(Next(s, Commit))
  {
    var s' := Next(s, Commit);
    var h := |s.committed|;
    if s.writer.withNew.count >= s.writer.withOld.count {
      CommitLeavesRoom(s);
      SlotBounds(s.k, h);
      assert forall i :: 0 <= i < h ==> s'.committed[i] == s.committed[i];
      assert s'.committed[h] == s.buffer[s.head..s.head + s.k];
      assert s'.committed[..|s.delivered|] == s.committed[..|s.delivered|];
      assert Intact(s', h);
    }
    forall i | Unread(s', i) ensures Intact(s', i) {
      if i < h {
        assert Unread(s, i) && Intact(s, i);
      }
    }
  }

  /** A read of the tail, wrapped or not, gives the count of the packets in between. */
  lemma {:induction false} TailReadIsCount<T>(s: State<T>, packet: nat)
    requires Inv(s) && |s.committed| <= packet <= |s.committed| + 1
    ensures CellCount(s.Size(), Slot(s.k, packet), s.tail) ==
            CellCount(s.Size(), Slot(s.k, packet), Slot(s.k, s.Freed()))
  {
    CountOfSlots(s.k, packet, s.Freed());
  }

  lemma {:induction false} WriterKeeps<T>(s: State<T>, step: Step<T>)
    requires Inv(s) && Enabled(s, step)
    requires step.Put? || step.Begin? || step.TailForNew? || step.TailForOld?
    ensures Inv(Next(s, step))
  {
    var s' := Next(s, step);
    SlotBounds(s.k, |s.committed|);
    TailReadIsCount(s, |s.committed|);
    TailReadIsCount(s, |s.committed| + 1);
    if step.Put? {
      PutKeepsUnread(s, step);
    }
    forall i | Unread(s', i) ensures Intact(s', i) {
      assert Unread(s, i) && Intact(s, i);
    }
  }

  lemma {:induction false} CheckKeeps<T>(s: State<T>)
    requires Inv(s) && Enabled(s, Check)
    ensures Inv(Next(s, Check))
  {
    var s' := Next(s, Check);
    CheckIffUnread(s);
    forall i | Unread(s', i) ensures Intact(s', i) {
      assert Unread(s, i) && Intact(s, i);
    }
  }

  lemma {:induction false} CopyKeeps<T>(s: State<T>, step: Step<T>)
    requires Inv(s) && Enabled(s, step) && (step.Copy? || step.Deliver?)
    ensures Inv(Next(s, step))
  {
    var s' := Next(s, step);
    var f := s.Freed();
    assert Unread(s, f) && Intact(s, f);
    if step.Copy? {
      var b := |s.reader.bytes|;
      assert s.buffer[Slot(s.k, f)..Slot(s.k, f) + s.k][b] == s.buffer[s.tail + b];
      assert s'.reader.bytes == s.committed[f][..b + 1];
    } else {
      assert s.reader.bytes == s.committed[f];
    }
    forall i | Unread(s', i) ensures Intact(s', i) {
      assert Unread(s, i) && Intact(s, i);
    }
  }

  lemma {:induction false} ReleaseKeeps<T>(s: State<T>, step: Step<T>)
    requires Inv(s) && Enabled(s, step) && (step.AddTail? || step.Wrap?)
    ensures Inv(Next(s, step))
  {
    var s' := Next(s, step);
    SlotBounds(s.k, s.Freed());
    forall i | Unread(s', i) ensures Intact(s', i) {
      assert Unread(s, i) && Intact(s, i);
    }
  }

  lemma {:induction false} StepKeeps<T>(s: State<T>, step: Step<T>)
    requires Inv(s) && Enabled(s, step)
    ensures Inv(Next(s, step))
  {
    match step
    case Commit => CommitKeeps(s);
    case Check => CheckKeeps(s);
    case Copy => CopyKeeps(s, step);
    case Deliver => CopyKeeps(s, step);
    case AddTail => ReleaseKeeps(s, step);
    case Wrap => ReleaseKeeps(s, step);
    case _ => WriterKeeps(s, step);
  }

  /** No access is ever out of bounds: the steps that touch the buffer are enabled whenever their turn comes. */
  lemma {:induction false} NeverOutOfBounds<T>(s: State<T>, offset: nat, value: T)
    requires Inv(s)
    ensures s.writer.Filling? && offset < s.k ==> Enabled(s, Put(offset, value))
    ensures s.writer.Advancing? && s.writer.withNew.Seen? && s.writer.withOld.Seen? ==> Enabled(s, Commit)
    ensures s.reader.Copying? && |s.reader.bytes| < s.k ==> Enabled(s, Copy)
  {
    SlotBounds(s.k, |s.committed|);
    SlotBounds(s.k, s.Freed());
  }

  // ----- Every run

  predicate IsRun<T>(s: State<T>, steps: seq<Step<T>>)
    decreases |steps|
  {
    steps == [] || (Enabled(s, steps[0]) && IsRun(Next(s, steps[0]), steps[1..]))
  }

  function After<T>(s: State<T>, steps: seq<Step<T>>): (s': State<T>)
    requires IsRun(s, steps)
    decreases |steps|
  {
    if steps == [] then s else After(Next(s, steps[0]), steps[1..])
  }

  lemma {:induction false} RunKeeps<T>(s: State<T>, steps: seq<Step<T>>)
    requires Inv(s) && IsRun(s, steps)
    ensures Inv(After(s, steps))
    decreases |steps|
  {
    if steps != [] {
      StepKeeps(s, steps[0]);
      RunKeeps(Next(s, steps[0]), steps[1..]);
    }
  }

  /** In every interleaving of one writer and one reader, the packets that come out are the packets that were
      committed, unmodified, in order and without gaps; those still waiting are intact in their slots, and there are
      at most 31 of them. */
  lemma {:induction false} RingSafe<T>(s: State<T>, steps: seq<Step<T>>)
    requires Initial(s) && IsRun(s, steps)
    ensures var s' := After(s, steps);
            && s'.delivered <= s'.committed
            && (forall i :: Unread(s', i) ==> Intact(s', i))
            && |s'.committed| - s'.Freed() <= 31
  {
    assert Inv(s);
    RunKeeps(s, steps);
  }

  // ----- A packet that is refused although the ring is empty

  lemma {:induction false} AfterConcat<T>(s: State<T>, a: seq<Step<T>>, b: seq<Step<T>>)
    requires IsRun(s, a) && IsRun(After(s, a), b)
    ensures IsRun(s, a + b) && After(s, a + b) == After(After(s, a), b)
    decreases |a|
  {
    if a == [] {
      assert a + b == b;
    } else {
      assert (a + b)[0] == a[0] && (a + b)[1..] == a[1..] + b;
      AfterConcat(Next(s, a[0]), a[1..], b);
    }
  }

  lemma {:induction false} AfterOne<T>(s: State<T>, step: Step<T>)
    requires Enabled(s, step)
    ensures IsRun(s, [step]) && After(s, [step]) == Next(s, step)
  {
    var s1 := Next(s, step);
    assert [step][1..] == [];
    assert IsRun(s1, []) && After(s1, []) == s1;
  }

  lemma {:induction false} AfterTwo<T>(s: State<T>, a: Step<T>, b: Step<T>)
    requires Enabled(s, a) && Enabled(Next(s, a), b)
    ensures IsRun(s, [a, b]) && After(s, [a, b]) == Next(Next(s, a), b)
  {
    AfterOne(s, a);
    AfterOne(Next(s, a), b);
    AfterConcat(s, [a], [b]);
    assert [a] + [b] == [a, b];
  }

  function AdvanceSteps<T>(): seq<Step<T>> {
    [Begin, TailForNew] + [TailForOld, Commit]
  }

  lemma {:induction false} AdvanceRun<T>(s: State<T>)
    requires s.writer.Filling? && s.head + s.k <= |s.buffer|
    ensures IsRun(s, AdvanceSteps()) && After(s, AdvanceSteps()) == Advanced(s)
  {
    AfterTwo(s, Begin, TailForNew);
    var s2 := Next(Next(s, Begin), TailForNew);
    AfterTwo(s2, TailForOld, Commit);
    AfterConcat(s, [Begin, TailForNew], [TailForOld, Commit]);
  }

  function Copies<T>(n: nat): (r: seq<Step<T>>) {
    if n == 0 then [] else [Copy] + Copies(n - 1)
  }

  lemma {:induction false} CopyRun<T>(s: State<T>, n: nat)
    requires s.reader.Copying? && |s.reader.bytes| + n <= s.k && s.tail + s.k <= |s.buffer|
    ensures IsRun(s, Copies(n))
    ensures var s' := After(s, Copies(n));
            s'.reader.Copying? && |s'.reader.bytes| == |s.reader.bytes| + n && s' == s.(reader := s'.reader)
    decreases n
  {
    if n > 0 {
      var s1 := Next(s, Copy);
      CopyRun(s1, n - 1);
      var steps: seq<Step<T>> := Copies(n);
      assert steps[0] == Copy && steps[1..] == Copies(n - 1);
    }
  }

  /** The reader takes a packet and releases it. */
  function TakeSteps<T>(k: nat): seq<Step<T>> {
    [Check] + Copies(k) + ([Deliver, AddTail] + [Wrap])
  }

  lemma {:induction false} TakeRun<T>(s: State<T>)
    requires s.reader.Idle? && s.tail + s.k < s.Size() == |s.buffer| && CellCount(s.Size(), s.head, s.tail) >= s.k
    ensures IsRun(s, TakeSteps(s.k))
    ensures var s' := After(s, TakeSteps(s.k));
            && s' == s.(tail := s.tail + s.k, delivered := s'.delivered) && |s'.delivered| == |s.delivered| + 1
  {
    AfterOne(s, Check);
    var s1 := Next(s, Check);
    CopyRun(s1, s.k);
    var s2 := After(s1, Copies(s.k));
    AfterConcat(s, [Check], Copies(s.k));
    AfterTwo(s2, Deliver, AddTail);
    var s4 := Next(Next(s2, Deliver), AddTail);
    AfterOne(s4, Wrap);
    AfterConcat(s2, [Deliver, AddTail], [Wrap]);
    AfterConcat(s, [Check] + Copies(s.k), [Deliver, AddTail] + [Wrap]);
  }

  /** Two packets are waiting. */
  lemma {:induction false} TwoWaiting<T>(s: State<T>)
    requires Initial(s)
    ensures IsRun(s, AdvanceSteps() + AdvanceSteps())
    ensures var t := After(s, AdvanceSteps() + AdvanceSteps());
            t == s.(head := 2 * s.k, committed := t.committed) && |t.committed| == 2
  {
    UninterruptedAdvance(s);
    AdvanceRun(s);
    var s1 := Advanced(s);
    assert s1.head == s.k && |s1.committed| == 1;
    UninterruptedAdvance(s1);
    AdvanceRun(s1);
    assert Advanced(s1).head == 2 * s.k;
    AfterConcat(s, AdvanceSteps(), AdvanceSteps());
  }

  lemma {:induction false} BothTaken<T>(s: State<T>)
    requires s.k >= 1 && |s.buffer| == s.Size() && s.head == 2 * s.k && s.tail == 0 && s.reader.Idle?
    ensures IsRun(s, TakeSteps(s.k) + TakeSteps(s.k))
    ensures var t := After(s, TakeSteps(s.k) + TakeSteps(s.k));
            t == s.(tail := 2 * s.k, delivered := t.delivered) && |t.delivered| == |s.delivered| + 2
  {
    TakeRun(s);
    TakeRun(After(s, TakeSteps(s.k)));
    AfterConcat(s, TakeSteps(s.k), TakeSteps(s.k));
  }

  /** From the look with the old head to the end: the reader releases both packets, and the third one is refused. */
  lemma {:induction false} ThirdRefused<T>(s: State<T>)
    requires s.k >= 1 && |s.buffer| == s.Size() && s.head == 2 * s.k && s.tail == 0
    requires s.writer.Filling? && s.reader.Idle? && |s.committed| == 2 && s.delivered == []
    ensures var steps := [Begin, TailForOld] + (TakeSteps(s.k) + TakeSteps(s.k)) + [TailForNew, Commit];
            IsRun(s, steps) && |After(s, steps).committed| == 2 == |After(s, steps).delivered|
  {
    AfterTwo(s, Begin, TailForOld);
    var s2 := Next(Next(s, Begin), TailForOld);
    BothTaken(s2);
    AfterTwo(After(s2, TakeSteps(s.k) + TakeSteps(s.k)), TailForNew, Commit);
    AfterConcat(s, [Begin, TailForOld], TakeSteps(s.k) + TakeSteps(s.k));
    AfterConcat(s, [Begin, TailForOld] + (TakeSteps(s.k) + TakeSteps(s.k)), [TailForNew, Commit]);
  }

  /** For every packet length there is a run that ends with a packet refused although nothing is unread: the reader
      releases two packets between the look with the old head and the look with the new one. */
  lemma {:induction false} RefusedWhenEmpty<T>(s: State<T>)
    requires Initial(s)
    ensures var steps := AdvanceSteps() + AdvanceSteps() +
                         ([Begin, TailForOld] + (TakeSteps(s.k) + TakeSteps(s.k)) + [TailForNew, Commit]);
            IsRun(s, steps) && |After(s, steps).committed| == 2 == |After(s, steps).delivered|
  {
    TwoWaiting(s);
    var s1 := After(s, AdvanceSteps() + AdvanceSteps());
    ThirdRefused(s1);
    AfterConcat(s, AdvanceSteps() + AdvanceSteps(),
                [Begin, TailForOld] + (TakeSteps(s.k) + TakeSteps(s.k)) + [TailForNew, Commit]);
  }
}
