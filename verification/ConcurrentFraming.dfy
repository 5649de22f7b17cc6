/** An interrupt handler on the shared ring, one memory access at a time, against the work loop that reads it: what
    framing and the ring guarantee together, under every interleaving.  The handler is any that fills the head slot byte
    by byte and closes it; the Synaptics and the ALPS handler are two of them. */
module ConcurrentFraming {
  import opened Options
  import opened Port
  import Ring = ConcurrentRing

  /** A handler with framing state `F` and slots `S`: what a byte does to the framing state and the slot it closes, if
      any; the cells of the head slot that the handler stores for it, in order; what the work loop reads a slot as; and
      the bytes of the unfinished packet, which are at the front of the head slot. */
  datatype Handler<!F, !S> = Handler(
    step: (F, Byte) -> (F, Option<S>), stores: (F, Byte) -> seq<(nat, Byte)>, read: seq<Byte> -> S,
    partial: F -> seq<Byte>, valid: F -> bool)

  predicate Inside(stores: seq<(nat, Byte)>) {
    forall i :: 0 <= i < |stores| ==> stores[i].0 < 6
  }

  function StoreAll(room: seq<Byte>, stores: seq<(nat, Byte)>): (r: seq<Byte>)
    requires |room| == 6 && Inside(stores)
    ensures |r| == 6
    decreases |stores|
  {
    if stores == [] then room else StoreAll(room[stores[0].0 := stores[0].1], stores[1..])
  }

  /** The head slot holds the unfinished packet; and if a slot is to be closed, it reads as that slot. */
  ghost predicate Holds<F, S>(h: Handler<F, S>, room: seq<Byte>, f: F, closes: Option<S>) {
    h.valid(f) && h.partial(f) <= room && (closes.Some? ==> h.partial(f) == [] && h.read(room) == closes.value)
  }

  /** The stores for a byte take the head slot from one such state to the next. */
  ghost predicate StepOk<F, S>(h: Handler<F, S>, f: F, data: Byte, room: seq<Byte>) {
    |room| == 6 && Holds(h, room, f, None) ==>
      Inside(h.stores(f, data)) &&
      var (f', out) := h.step(f, data);
      Holds(h, StoreAll(room, h.stores(f, data)), f', out)
  }

  ghost predicate Sound<F(!new), S>(h: Handler<F, S>) {
    forall f: F, data: Byte, room: seq<Byte> :: StepOk(h, f, data, room)
  }

  // ----- Framing, byte by byte

  function FramerAfter<F, S>(h: Handler<F, S>, f: F, stream: seq<Byte>): (f': F)
    decreases |stream|
  {
    if stream == [] then f else FramerAfter(h, h.step(f, stream[0]).0, stream[1..])
  }

  function AsSeq<S>(out: Option<S>): (r: seq<S>) {
    if out.Some? then [out.value] else []
  }

  /** All slots that a byte stream gives rise to. */
  function SlotsOf<F, S>(h: Handler<F, S>, f: F, stream: seq<Byte>): (r: seq<S>)
    decreases |stream|
  {
    if stream == [] then []
    else
      var (f', out) := h.step(f, stream[0]);
      AsSeq(out) + SlotsOf(h, f', stream[1..])
  }

  lemma {:induction false} FrameOneMore<F, S>(h: Handler<F, S>, f: F, stream: seq<Byte>, data: Byte)
    ensures var (f', out) := h.step(FramerAfter(h, f, stream), data);
            && FramerAfter(h, f, stream + [data]) == f'
            && SlotsOf(h, f, stream + [data]) == SlotsOf(h, f, stream) + AsSeq(out)
    decreases |stream|
  {
    var all := stream + [data];
    if stream == [] {
      assert all == [data] && all[1..] == [];
      var (f', out) := h.step(f, data);
      assert FramerAfter(h, f', []) == f' && SlotsOf(h, f', []) == [];
      assert AsSeq(out) + [] == [] + AsSeq(out);
    } else {
      assert all[0] == stream[0] && all[1..] == stream[1..] + [data];
      var (f1, out1) := h.step(f, stream[0]);
      FrameOneMore(h, f1, stream[1..], data);
      var out := h.step(FramerAfter(h, f1, stream[1..]), data).1;
      var rest := SlotsOf(h, f1, stream[1..]);
      assert AsSeq(out1) + (rest + AsSeq(out)) == AsSeq(out1) + rest + AsSeq(out);
    }
  }

  // ----- The machine

  /** The two looks at the tail before a slot is handed over: how many slots waited at the look with the new head and at
      the one with the old head, and whether the former came first. */
  datatype Look = Look(withNew: int, withOld: int, newFirst: bool) {
    predicate Accepts() {
      if withNew == 31 then withOld == 0 else withOld <= withNew + 1
    }
  }

  /** `todo` are the stores that the handler has still to make for the current byte, and `closes` the slot that it then
      hands over, if any.  `input` is every byte so far, `closed` the slots that were to be handed over, `looks` the
      looks at the tail for each. */
  datatype World<F, S> = World(ring: Ring.State<Byte>, framer: F, todo: seq<(nat, Byte)>, closes: Option<S>,
                               newFirst: bool, input: seq<Byte>, closed: seq<S>, looks: seq<Look>)

  datatype Event = Interrupt(data: Byte) | Write(step: Ring.Step<Byte>) | Read(step: Ring.Step<Byte>)

  /** The access that the handler may make next. */
  predicate Does<F, S>(w: World<F, S>, step: Ring.Step<Byte>) {
    if w.todo != [] then step == Ring.Put(w.todo[0].0, w.todo[0].1)
    else w.closes.Some? && (step.Begin? || step.TailForNew? || step.TailForOld? || step.Commit?)
  }

  predicate IsReading(step: Ring.Step<Byte>) {
    step.Check? || step.Copy? || step.Deliver? || step.AddTail? || step.Wrap?
  }

  predicate Enabled<F, S>(w: World<F, S>, e: Event) {
    match e
    case Interrupt(_) => w.todo == [] && w.closes.None?
    case Write(step) => Does(w, step) && Ring.Enabled(w.ring, step)
    case Read(step) => IsReading(step) && Ring.Enabled(w.ring, step)
  }

  function LookOf(ring: Ring.State<Byte>, newFirst: bool): (l: Look)
    requires ring.writer.Advancing? && ring.writer.withNew.Seen? && ring.writer.withOld.Seen?
  {
    Look(|ring.committed| - ring.writer.withNew.freed, |ring.committed| - ring.writer.withOld.freed, newFirst)
  }

  function Next<F, S>(h: Handler<F, S>, w: World<F, S>, e: Event): (w': World<F, S>)
    requires Enabled(w, e)
  {
    match e
    case Interrupt(data) =>
      var (f, out) := h.step(w.framer, data);
      w.(framer := f, todo := h.stores(w.framer, data), closes := out, input := w.input + [data])
    case Read(step) => w.(ring := Ring.Next(w.ring, step))
    case Write(step) =>
      var w1 := w.(ring := Ring.Next(w.ring, step));
      match step
      case Put(_, _) => w1.(todo := w.todo[1..])
      case TailForNew => w1.(newFirst := w.ring.writer.withOld.NotYet?)
      case Commit =>
        w1.(closes := None, closed := w.closed + [w.closes.value], looks := w.looks + [LookOf(w.ring, w.newFirst)])
      case _ => w1
  }

  // ----- The invariant

  /** The slots whose looks accepted them. */
  function Kept<S>(slots: seq<S>, looks: seq<Look>): (r: seq<S>)
    requires |slots| == |looks|
  {
    if slots == [] then []
    else (if looks[0].Accepts() then [slots[0]] else []) + Kept(slots[1..], looks[1..])
  }

  lemma {:induction false} KeptOneMore<S>(slots: seq<S>, looks: seq<Look>, slot: S, look: Look)
    requires |slots| == |looks|
    ensures Kept(slots + [slot], looks + [look]) == Kept(slots, looks) + if look.Accepts() then [slot] else []
  {
    if slots == [] {
      assert slots + [slot] == [slot] && looks + [look] == [look] && [slot][1..] == [] && [look][1..] == [];
      var empty: seq<S> := Kept([], []);
      assert empty == [];
    } else {
      assert (slots + [slot])[1..] == slots[1..] + [slot] && (looks + [look])[1..] == looks[1..] + [look];
      KeptOneMore(slots[1..], looks[1..], slot, look);
    }
  }

  lemma {:induction false} KeptAll<S>(slots: seq<S>, looks: seq<Look>)
    requires |slots| == |looks| && forall i :: 0 <= i < |looks| ==> looks[i].Accepts()
    ensures Kept(slots, looks) == slots
  {
    if slots != [] {
      KeptAll(slots[1..], looks[1..]);
      assert [slots[0]] + slots[1..] == slots;
    }
  }

  lemma {:induction false} KeptFrom<S>(slots: seq<S>, looks: seq<Look>)
    requires |slots| == |looks|
    ensures forall x :: x in Kept(slots, looks) ==> x in slots
  {
    if slots != [] {
      KeptFrom(slots[1..], looks[1..]);
    }
  }

  function ReadAll<F, S>(h: Handler<F, S>, chunks: seq<seq<Byte>>): (r: seq<S>)
    ensures |r| == |chunks| && forall i :: 0 <= i < |chunks| ==> r[i] == h.read(chunks[i])
  {
    seq(|chunks|, i requires 0 <= i < |chunks| => h.read(chunks[i]))
  }

  /** The cells of the head slot. */
  function Room(ring: Ring.State<Byte>): (r: seq<Byte>)
    requires ring.head + 6 <= |ring.buffer|
    ensures |r| == 6
  {
    ring.buffer[ring.head..ring.head + 6]
  }

  /** The ring works, and its head slot lies inside the buffer. */
  ghost predicate RingOk(ring: Ring.State<Byte>) {
    Ring.Inv(ring) && ring.k == 6 && ring.head + 6 <= |ring.buffer|
  }

  /** The handler is in the middle of a byte: what it has still to store makes the head slot what it should be. */
  ghost predicate JobOk<F, S>(h: Handler<F, S>, w: World<F, S>)
    requires RingOk(w.ring)
  {
    && (w.todo != [] || w.closes.None? ==> w.ring.writer.Filling?)
    && Inside(w.todo) && Holds(h, StoreAll(Room(w.ring), w.todo), w.framer, w.closes)
  }

  /** What the looks say: a look that came first saw at least as many slots waiting. */
  ghost predicate LooksOk<F, S>(w: World<F, S>) {
    && (forall i :: 0 <= i < |w.looks| ==> w.looks[i].newFirst ==> w.looks[i].withOld <= w.looks[i].withNew)
    && (w.ring.writer.Advancing? && w.ring.writer.withNew.Seen? ==>
         if w.ring.writer.withOld.NotYet? then w.newFirst
         else w.newFirst ==> w.ring.writer.withNew.freed <= w.ring.writer.withOld.freed)
  }

  /** What has come in, and what has become of it. */
  ghost predicate LogsOk<F, S>(h: Handler<F, S>, w: World<F, S>, start: F) {
    && w.framer == FramerAfter(h, start, w.input)
    && w.closed + AsSeq(w.closes) == SlotsOf(h, start, w.input)
    && |w.closed| == |w.looks| && ReadAll(h, w.ring.committed) == Kept(w.closed, w.looks)
  }

  ghost predicate Inv<F, S>(h: Handler<F, S>, w: World<F, S>, start: F) {
    RingOk(w.ring) && JobOk(h, w) && LooksOk(w) && LogsOk(h, w, start)
  }

  /** A step keeps the ring in order. */
  lemma {:induction false} RingKeeps(ring: Ring.State<Byte>, step: Ring.Step<Byte>)
    requires RingOk(ring) && Ring.Enabled(ring, step)
    ensures RingOk(Ring.Next(ring, step))
  {
    Ring.StepKeeps(ring, step);
    Ring.SlotBounds(6, |Ring.Next(ring, step).committed|);
  }

  /** A step of the work loop changes nothing that the handler depends on. */
  lemma {:induction false} ReadKeeps<F, S>(h: Handler<F, S>, w: World<F, S>, start: F, step: Ring.Step<Byte>)
    requires Inv(h, w, start) && Enabled(w, Read(step))
    ensures Inv(h, Next(h, w, Read(step)), start)
  {
    RingKeeps(w.ring, step);
    ReaderLeaves(w.ring, step);
    var w' := Next(h, w, Read(step));
    assert Room(w'.ring) == Room(w.ring);
  }

  lemma {:induction false} ReaderLeaves(ring: Ring.State<Byte>, step: Ring.Step<Byte>)
    requires IsReading(step) && Ring.Enabled(ring, step)
    ensures var ring' := Ring.Next(ring, step);
            && ring'.buffer == ring.buffer && ring'.head == ring.head && ring'.committed == ring.committed
            && ring'.writer == ring.writer && ring'.k == ring.k
  {
  }

  lemma {:induction false} InterruptKeeps<F(!new), S>(h: Handler<F, S>, w: World<F, S>, start: F, data: Byte)
    requires Sound(h) && Inv(h, w, start) && Enabled(w, Interrupt(data))
    ensures Inv(h, Next(h, w, Interrupt(data)), start)
  {
    assert StepOk(h, w.framer, data, Room(w.ring));
    FrameOneMore(h, start, w.input, data);
    assert w.closed + AsSeq(w.closes) == w.closed;
  }

  /** A byte stored in the head slot. */
  lemma {:induction false} PutInRoom(ring: Ring.State<Byte>, step: Ring.Step<Byte>)
    requires RingOk(ring) && step.Put? && Ring.Enabled(ring, step)
    ensures var ring' := Ring.Next(ring, step);
            && ring'.head == ring.head && |ring'.buffer| == |ring.buffer| && step.offset < 6
            && Room(ring') == Room(ring)[step.offset := step.value]
  {
  }

  lemma {:induction false} PutKeeps<F, S>(h: Handler<F, S>, w: World<F, S>, start: F, step: Ring.Step<Byte>)
    requires Inv(h, w, start) && Enabled(w, Write(step)) && step.Put?
    ensures Inv(h, Next(h, w, Write(step)), start)
  {
    RingKeeps(w.ring, step);
    PutInRoom(w.ring, step);
    var w' := Next(h, w, Write(step));
    assert StoreAll(Room(w'.ring), w'.todo) == StoreAll(Room(w.ring), w.todo);
  }

  lemma {:induction false} LookKeeps<F, S>(h: Handler<F, S>, w: World<F, S>, start: F, step: Ring.Step<Byte>)
    requires Inv(h, w, start) && Enabled(w, Write(step)) && (step.Begin? || step.TailForNew? || step.TailForOld?)
    ensures Inv(h, Next(h, w, Write(step)), start)
  {
    RingKeeps(w.ring, step);
  }

  /** The ring takes the head slot as it is, or refuses it, as the looks say. */
  lemma {:induction false} CommitAppends(ring: Ring.State<Byte>, newFirst: bool)
    requires RingOk(ring) && Ring.Enabled(ring, Ring.Commit)
    ensures Ring.Next(ring, Ring.Commit).committed ==
            ring.committed + if LookOf(ring, newFirst).Accepts() then [Room(ring)] else []
    ensures Ring.Next(ring, Ring.Commit).writer.Filling?
  {
    Ring.CommitIff(ring);
    assert ring.committed + [] == ring.committed;
  }

  lemma {:induction false} ReadOneMore<F, S>(h: Handler<F, S>, chunks: seq<seq<Byte>>, cells: seq<Byte>)
    ensures ReadAll(h, chunks + [cells]) == ReadAll(h, chunks) + [h.read(cells)]
  {
  }

  /** The logs after a slot was handed over. */
  lemma {:induction false} CommitLogs<F, S>(h: Handler<F, S>, w: World<F, S>, start: F)
    requires Inv(h, w, start) && Enabled(w, Write(Ring.Commit))
    ensures LogsOk(h, Next(h, w, Write(Ring.Commit)), start)
  {
    var look := LookOf(w.ring, w.newFirst);
    CommitAppends(w.ring, w.newFirst);
    KeptOneMore(w.closed, w.looks, w.closes.value, look);
    ReadOneMore(h, w.ring.committed, Room(w.ring));
    var w' := Next(h, w, Write(Ring.Commit));
    assert w'.closed + AsSeq(w'.closes) == w.closed + AsSeq(w.closes);
    if !look.Accepts() {
      assert w'.ring.committed == w.ring.committed;
    }
  }

  lemma {:induction false} CommitKeeps<F, S>(h: Handler<F, S>, w: World<F, S>, start: F)
    requires Inv(h, w, start) && Enabled(w, Write(Ring.Commit))
    ensures Inv(h, Next(h, w, Write(Ring.Commit)), start)
  {
    RingKeeps(w.ring, Ring.Commit);
    CommitAppends(w.ring, w.newFirst);
    CommitLogs(h, w, start);
  }

  lemma {:induction false} EventKeeps<F(!new), S>(h: Handler<F, S>, w: World<F, S>, start: F, e: Event)
    requires Sound(h) && Inv(h, w, start) && Enabled(w, e)
    ensures Inv(h, Next(h, w, e), start)
  {
    match e
    case Interrupt(data) => InterruptKeeps(h, w, start, data);
    case Read(step) => ReadKeeps(h, w, start, step);
    case Write(step) =>
      if step.Put? {
        PutKeeps(h, w, start, step);
      } else if step.Commit? {
        CommitKeeps(h, w, start);
      } else {
        LookKeeps(h, w, start, step);
      }
  }

  // ----- Every run

  predicate IsRun<F, S>(h: Handler<F, S>, w: World<F, S>, es: seq<Event>)
    decreases |es|
  {
    es == [] || (Enabled(w, es[0]) && IsRun(h, Next(h, w, es[0]), es[1..]))
  }

  function After<F, S>(h: Handler<F, S>, w: World<F, S>, es: seq<Event>): (w': World<F, S>)
    requires IsRun(h, w, es)
    decreases |es|
  {
    if es == [] then w else After(h, Next(h, w, es[0]), es[1..])
  }

  lemma {:induction false} RunKeeps<F(!new), S>(h: Handler<F, S>, w: World<F, S>, start: F, es: seq<Event>)
    requires Sound(h) && Inv(h, w, start) && IsRun(h, w, es)
    ensures Inv(h, After(h, w, es), start)
    decreases |es|
  {
    if es != [] {
      EventKeeps(h, w, start, es[0]);
      RunKeeps(h, Next(h, w, es[0]), start, es[1..]);
    }
  }

  predicate Initial<F, S>(h: Handler<F, S>, w: World<F, S>) {
    && Ring.Initial(w.ring) && w.ring.k == 6 && h.valid(w.framer) && h.partial(w.framer) == []
    && w.todo == [] && w.closes.None? && w.input == [] && w.closed == [] && w.looks == []
  }

  lemma {:induction false} InitialOk<F, S>(h: Handler<F, S>, w: World<F, S>)
    requires Initial(h, w)
    ensures Inv(h, w, w.framer)
  {
    assert ReadAll(h, w.ring.committed) == [];
  }

  /** End to end, under every interleaving of the handler's and the work loop's memory accesses.  The slots closed, with
      the one still pending, are exactly those of framing the bytes that arrived.  The work loop reads a prefix of those
      that the ring accepted: in order, unmodified, none twice.  The ring accepts a slot as the two looks at the tail
      say; if the look with the new head came first, it refuses a slot only if 31 waited at that look.  If it refused
      none, the work loop reads a prefix of them all. */
  lemma {:induction false} EndToEnd<F(!new), S>(h: Handler<F, S>, w: World<F, S>, es: seq<Event>)
    requires Sound(h) && Initial(h, w) && IsRun(h, w, es)
    ensures var w' := After(h, w, es);
            && w'.closed + AsSeq(w'.closes) == SlotsOf(h, w.framer, w'.input)
            && |w'.closed| == |w'.looks|
            && ReadAll(h, w'.ring.delivered) <= Kept(w'.closed, w'.looks)
            && (forall i :: 0 <= i < |w'.looks| ==>
                 w'.looks[i].newFirst && !w'.looks[i].Accepts() ==> w'.looks[i].withNew == 31)
            && ((forall i :: 0 <= i < |w'.looks| ==> w'.looks[i].Accepts()) ==>
                 ReadAll(h, w'.ring.delivered) <= w'.closed)
  {
    InitialOk(h, w);
    RunKeeps(h, w, w.framer, es);
    var w' := After(h, w, es);
    DeliveredPrefix(h, w'.ring);
    if forall i :: 0 <= i < |w'.looks| ==> w'.looks[i].Accepts() {
      KeptAll(w'.closed, w'.looks);
    }
  }

  lemma {:induction false} DeliveredPrefix<F, S>(h: Handler<F, S>, ring: Ring.State<Byte>)
    requires Ring.Inv(ring)
    ensures ReadAll(h, ring.delivered) <= ReadAll(h, ring.committed)
  {
    var n := |ring.delivered|;
    assert ring.delivered == ring.committed[..n];
    assert ReadAll(h, ring.delivered) == ReadAll(h, ring.committed)[..n];
  }

  /** Whatever the work loop reads is a slot of the stream. */
  lemma {:induction false} DeliveredIsFramed<F(!new), S>(h: Handler<F, S>, w: World<F, S>, es: seq<Event>, k: nat)
    requires Sound(h) && Initial(h, w) && IsRun(h, w, es) && k < |After(h, w, es).ring.delivered|
    ensures ReadAll(h, After(h, w, es).ring.delivered)[k] in SlotsOf(h, w.framer, After(h, w, es).input)
  {
    EndToEnd(h, w, es);
    var w' := After(h, w, es);
    var x := ReadAll(h, w'.ring.delivered)[k];
    assert x == Kept(w'.closed, w'.looks)[k];
    KeptFrom(w'.closed, w'.looks);
    assert x in w'.closed + AsSeq(w'.closes);
  }
}
