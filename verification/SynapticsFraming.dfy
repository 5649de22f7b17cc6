/** Packet framing of the Synaptics driver: bytes at interrupt time become slots in the ring, and the work loop
    dispatches the slots that hold packets. */
module SynapticsFraming {
  import opened Options
  import opened Port
  import opened RingBuffer

  const RESET: Byte := 0xAA

  /** A slot of the ring: six packet bytes, or a marker (first byte zero) with its reason. */
  datatype Slot = Packet(bytes: seq<Byte>) | Marker(reason: Byte)

  /** The bytes of the current packet so far, and the last byte seen. */
  datatype Framer = Framer(partial: seq<Byte>, last: Byte)

  /** `b & 0xc8 == 0x80`: bits 7 and 6 are 1 0, and bit 3 is 0. */
  predicate Header0(b: Byte) {
    b / 64 == 2 && b / 8 % 2 == 0
  }

  /** `b & 0xc8 == 0xc0`: bits 7 and 6 are 1 1, and bit 3 is 0. */
  predicate Header3(b: Byte) {
    b / 64 == 3 && b / 8 % 2 == 0
  }

  predicate WellFormed(p: seq<Byte>) {
    |p| == 6 && Header0(p[0]) && Header3(p[3])
  }

  predicate ValidPartial(p: seq<Byte>) {
    |p| < 6 && (|p| > 0 ==> Header0(p[0])) && (|p| > 3 ==> Header3(p[3]))
  }

  /** One byte at interrupt time.  A reset announcement does not update the last byte. */
  function Step(f: Framer, data: Byte): (r: (Framer, Option<Slot>)) {
    if f.last == RESET && data == 0 then (Framer([], f.last), Some(Marker(RESET)))
    else if |f.partial| == 0 && !Header0(data) then (Framer([], data), Some(Marker(0)))
    else if |f.partial| == 3 && !Header3(data) then (Framer([], data), Some(Marker(3)))
    else
      var p := f.partial + [data];
      if |p| == 6 then (Framer([], data), Some(Packet(p))) else (Framer(p, data), None)
  }

  /** A slot and the stream position behind its last byte. */
  datatype Located = Located(end: nat, slot: Slot)

  /** All slots that a byte stream gives rise to; `pos` is the position of its first byte. */
  function Frame(f: Framer, stream: seq<Byte>, pos: nat): (r: seq<Located>)
    decreases |stream|
  {
    if stream == [] then []
    else
      var (f', out) := Step(f, stream[0]);
      var rest := Frame(f', stream[1..], pos + 1);
      if out.Some? then [Located(pos + 1, out.value)] + rest else rest
  }

  function Slots(xs: seq<Located>): (r: seq<Slot>)
    ensures |r| == |xs| && forall i :: 0 <= i < |xs| ==> r[i] == xs[i].slot
  {
    seq(|xs|, i requires 0 <= i < |xs| => xs[i].slot)
  }

  // ----- Safety for every byte stream

  /** The packet is the six stream bytes in front of position `end`, and both headers pass. */
  ghost predicate IsWindow(x: Located, whole: seq<Byte>) {
    x.slot.Packet? ==>
      6 <= x.end <= |whole| && x.slot.bytes == whole[x.end - 6..x.end] && WellFormed(x.slot.bytes)
  }

  /** Windows come in stream order and do not overlap, and none reaches back before position `from`. */
  ghost predicate Apart(xs: seq<Located>, from: nat) {
    && (forall i :: 0 <= i < |xs| ==> xs[i].end > from && (xs[i].slot.Packet? ==> xs[i].end >= from + 6))
    && (forall i, j :: 0 <= i < j < |xs| ==>
         xs[i].end < xs[j].end && (xs[j].slot.Packet? ==> xs[i].end + 6 <= xs[j].end))
  }

  lemma {:induction false} StepSafe(f: Framer, whole: seq<Byte>, pos: nat)
    requires ValidPartial(f.partial) && |f.partial| <= pos < |whole|
    requires f.partial == whole[pos - |f.partial|..pos]
    ensures var (f', out) := Step(f, whole[pos]);
            && ValidPartial(f'.partial) && |f'.partial| <= |f.partial| + 1
            && f'.partial == whole[pos + 1 - |f'.partial|..pos + 1]
            && (out.None? ==> |f'.partial| == |f.partial| + 1)
            && (out.Some? ==> f'.partial == [] && IsWindow(Located(pos + 1, out.value), whole))
            && (out.Some? && out.value.Packet? ==> |f.partial| == 5)
  {
    var p := f.partial + [whole[pos]];
    Extended(f.partial, whole, pos);
    var (f', out) := Step(f, whole[pos]);
    if out.Some? {
      assert f'.partial == [] == whole[pos + 1..pos + 1];
    } else {
      assert f'.partial == p;
    }
  }

  lemma {:induction false} Extended(partial: seq<Byte>, whole: seq<Byte>, pos: nat)
    requires |partial| <= pos < |whole| && partial == whole[pos - |partial|..pos]
    ensures partial + [whole[pos]] == whole[pos - |partial|..pos + 1]
  {
  }

  lemma {:induction false} ApartCons(x: Located, xs: seq<Located>, from: nat)
    requires Apart(xs, x.end) && x.end > from && (x.slot.Packet? ==> x.end >= from + 6)
    ensures Apart([x] + xs, from)
  {
    var all := [x] + xs;
    assert forall i :: 0 < i < |all| ==> all[i] == xs[i - 1];
  }

  /** Whatever the stream, each packet is six consecutive bytes of it with valid headers, and packets are disjoint
      and in order.  `whole` is the stream with what came before it. */
  lemma {:induction false} FrameSafe(f: Framer, whole: seq<Byte>, pos: nat)
    requires ValidPartial(f.partial) && |f.partial| <= pos <= |whole|
    requires f.partial == whole[pos - |f.partial|..pos]
    ensures var xs := Frame(f, whole[pos..], pos);
            Apart(xs, pos - |f.partial|) && forall i :: 0 <= i < |xs| ==> IsWindow(xs[i], whole)
    decreases |whole| - pos
  {
    if pos < |whole| {
      var (f', out) := Step(f, whole[pos]);
      assert whole[pos..][0] == whole[pos] && whole[pos..][1..] == whole[pos + 1..];
      StepSafe(f, whole, pos);
      FrameSafe(f', whole, pos + 1);
      if out.Some? {
        ApartCons(Located(pos + 1, out.value), Frame(f', whole[pos + 1..], pos + 1), pos - |f.partial|);
      }
    }
  }

  /** Markers and packets cannot be taken for each other: the first byte tells. */
  lemma {:induction false} HeaderIsNotZero(p: seq<Byte>)
    requires WellFormed(p)
    ensures p[0] != 0
  {
    assert Header0(p[0]);
  }

  // ----- Round trip

  /** No pair AA 00, which reads as a spontaneous reset, among the first `n` bytes. */
  predicate NoResetPair(p: seq<Byte>, n: nat) {
    forall i :: 0 <= i < n - 1 && i + 1 < |p| ==> !(p[i] == RESET && p[i + 1] == 0)
  }

  predicate HasResetPair(p: seq<Byte>) {
    !NoResetPair(p, |p|)
  }

  function Concat(ps: seq<seq<Byte>>): (r: seq<Byte>) {
    if ps == [] then [] else ps[0] + Concat(ps[1..])
  }

  function AsSlots(ps: seq<seq<Byte>>): (r: seq<Slot>)
    ensures |r| == |ps| && forall i :: 0 <= i < |ps| ==> r[i] == Packet(ps[i])
  {
    seq(|ps|, i requires 0 <= i < |ps| => Packet(ps[i]))
  }

  /** The framer is `n` bytes into packet `p`. */
  ghost predicate Inside(f: Framer, p: seq<Byte>, n: nat) {
    && WellFormed(p) && n < 6 && f.partial == p[..n]
    && (n > 0 ==> f.last == p[n - 1])
    && NoResetPair(p, n)
  }

  /** The next byte of the packet: a reset pair ends it with a marker, the sixth byte completes it, and any
      other moves on. */
  lemma {:induction false} StepInside(f: Framer, p: seq<Byte>, n: nat)
    requires Inside(f, p, n)
    ensures var (f', out) := Step(f, p[n]);
            if !NoResetPair(p, n + 1) then out == Some(Marker(RESET))
            else if n == 5 then f' == Framer([], p[5]) && out == Some(Packet(p))
            else Inside(f', p, n + 1) && out.None?
  {
    assert Header0(p[0]);
    assert p[0] != 0;
    assert p[..n] + [p[n]] == p[..n + 1];
    assert p[..6] == p;
  }

  /** From inside a packet: without a reset pair the packet comes out whole; with one, a marker comes first. */
  lemma {:induction false} FramePacket(f: Framer, p: seq<Byte>, n: nat, rest: seq<Byte>, pos: nat)
    requires Inside(f, p, n)
    ensures var xs := Frame(f, p[n..] + rest, pos);
            if HasResetPair(p) then xs != [] && xs[0].slot == Marker(RESET)
            else xs == [Located(pos + 6 - n, Packet(p))] + Frame(Framer([], p[5]), rest, pos + 6 - n)
    decreases 6 - n
  {
    var stream := p[n..] + rest;
    assert stream[0] == p[n] && stream[1..] == p[n + 1..] + rest;
    StepInside(f, p, n);
    if NoResetPair(p, n + 1) {
      if n == 5 {
        assert p[6..] + rest == rest;
      } else {
        FramePacket(Step(f, p[n]).0, p, n + 1, rest, pos + 1);
      }
    }
  }

  /** The concatenation of well-formed packets frames into exactly those packets if and only if none of them
      contains the reset pair. */
  lemma {:induction false} RoundTripIff(ps: seq<seq<Byte>>, last: Byte, pos: nat)
    requires forall i :: 0 <= i < |ps| ==> WellFormed(ps[i])
    ensures Slots(Frame(Framer([], last), Concat(ps), pos)) == AsSlots(ps) <==>
            forall i :: 0 <= i < |ps| ==> !HasResetPair(ps[i])
    decreases |ps|
  {
    if ps != [] {
      var p := ps[0];
      var xs := Frame(Framer([], last), Concat(ps), pos);
      assert p[0..] == p;
      FramePacket(Framer([], last), p, 0, Concat(ps[1..]), pos);
      assert AsSlots(ps) == [Packet(p)] + AsSlots(ps[1..]);
      if HasResetPair(p) {
        assert Slots(xs)[0] == Marker(RESET);
      } else {
        var tail := Frame(Framer([], p[5]), Concat(ps[1..]), pos + 6);
        assert Slots(xs) == [Packet(p)] + Slots(tail);
        assert Slots(xs)[1..] == Slots(tail) && AsSlots(ps)[1..] == AsSlots(ps[1..]);
        RoundTripIff(ps[1..], p[5], pos + 6);
        assert forall i :: 0 < i < |ps| ==> ps[i] == ps[1..][i - 1];
      }
    }
  }

  /** A legitimate packet that does not get through: its second and third byte read as a reset. */
  lemma {:induction false} ResetPairAborts(last: Byte, pos: nat)
    ensures var p := [0x80, RESET, 0, 0xC0, 0, 0];
            && WellFormed(p) && HasResetPair(p)
            && Frame(Framer([], last), p, pos) != [] && Frame(Framer([], last), p, pos)[0].slot == Marker(RESET)
  {
    var p := [0x80, RESET, 0, 0xC0, 0, 0];
    assert p[1] == RESET && p[2] == 0;
    assert p[0..] + [] == p;
    FramePacket(Framer([], last), p, 0, [], pos);
  }

  /** A byte that does not fit drops the unfinished packet, leaves one marker that says where it was, and framing goes
      on from a boundary; so does the reset pair, which is looked for first, anywhere. */
  lemma {:induction false} BadByteMarked(f: Framer, data: Byte, rest: seq<Byte>, pos: nat)
    requires || (f.last == RESET && data == 0)
             || (|f.partial| == 0 && (data / 64 != 2 || data / 8 % 2 == 1))
             || (|f.partial| == 3 && (data / 64 != 3 || data / 8 % 2 == 1))
    ensures var reason := if f.last == RESET && data == 0 then RESET else |f.partial|;
            var f' := Framer([], if f.last == RESET && data == 0 then f.last else data);
            Frame(f, [data] + rest, pos) == [Located(pos + 1, Marker(reason))] + Frame(f', rest, pos + 1)
  {
    var stream := [data] + rest;
    assert stream[0] == data && stream[1..] == rest;
  }

  // ----- The bounded queue between the interrupt and the work loop

  /** What a byte's slot, if any, does to the queue. */
  function Accept(queue: seq<Slot>, out: Option<Slot>): (r: seq<Slot>) {
    if out.Some? then Enqueue(queue, out.value) else queue
  }

  /** An interrupt delivers a byte, or the work loop drains the ring. */
  datatype Event = Interrupt(data: Byte) | Drain

  datatype Link = Link(framer: Framer, queue: seq<Slot>, delivered: seq<Slot>)

  function Happen(s: Link, e: Event): (s': Link) {
    match e
    case Interrupt(data) =>
      var (f, out) := Step(s.framer, data);
      Link(f, Accept(s.queue, out), s.delivered)
    case Drain => Link(s.framer, [], s.delivered + s.queue)
  }

  function HappenAll(s: Link, es: seq<Event>): (s': Link)
    decreases |es|
  {
    if es == [] then s else HappenAll(Happen(s, es[0]), es[1..])
  }

  function Bytes(es: seq<Event>): (r: seq<Byte>) {
    if es == [] then []
    else if es[0].Interrupt? then [es[0].data] + Bytes(es[1..])
    else Bytes(es[1..])
  }

  /** No slot arrives while 31 are waiting. */
  predicate NoOverflow(s: Link, es: seq<Event>)
    decreases |es|
  {
    es == [] ||
    ((es[0].Interrupt? && Step(s.framer, es[0].data).1.Some? ==> |s.queue| < CAPACITY)
     && NoOverflow(Happen(s, es[0]), es[1..]))
  }

  ghost predicate Subsequence(xs: seq<Slot>, ys: seq<Slot>) {
    if xs == [] then true
    else ys != [] && ((xs[0] == ys[0] && Subsequence(xs[1..], ys[1..])) || Subsequence(xs, ys[1..]))
  }

  /** `fin` extends `base` by a subsequence of `slots`. */
  ghost predicate Extends(base: seq<Slot>, fin: seq<Slot>, slots: seq<Slot>) {
    base <= fin && Subsequence(fin[|base|..], slots)
  }

  /** One more slot in front: kept or, when the queue is full, dropped. */
  lemma {:induction false} ExtendsCons(base: seq<Slot>, mid: seq<Slot>, fin: seq<Slot>, x: Slot, slots: seq<Slot>)
    requires mid == base || mid == base + [x]
    requires Extends(mid, fin, slots)
    ensures Extends(base, fin, [x] + slots)
    ensures mid == base + [x] && fin == mid + slots ==> fin == base + ([x] + slots)
  {
    assert ([x] + slots)[1..] == slots;
    if mid == base + [x] {
      assert fin[|base|..][0] == x && fin[|base|..][1..] == fin[|mid|..];
      assert mid + slots == base + ([x] + slots);
    }
  }

  function Seen(s: Link): seq<Slot> {
    s.delivered + s.queue
  }

  lemma {:induction false} SeenGrows(s: Link, out: Option<Slot>)
    ensures s.delivered + Accept(s.queue, out) ==
            if out.Some? && |s.queue| < CAPACITY then Seen(s) + [out.value] else Seen(s)
  {
  }

  /** Whatever the schedule, the work loop sees the slots of the byte stream in order, each at most once; and it
      sees every one of them if the queue never overflows. */
  lemma {:induction false} LinkDelivers(s: Link, es: seq<Event>, pos: nat)
    requires |s.queue| <= CAPACITY
    ensures var s' := HappenAll(s, es);
            var slots := Slots(Frame(s.framer, Bytes(es), pos));
            && |s'.queue| <= CAPACITY
            && Extends(Seen(s), Seen(s'), slots)
            && (NoOverflow(s, es) ==> Seen(s') == Seen(s) + slots)
    decreases |es|
  {
    if es != [] {
      var s1 := Happen(s, es[0]);
      if es[0].Drain? {
        LinkDelivers(s1, es[1..], pos);
        assert Seen(s1) == Seen(s);
      } else {
        LinkDelivers(s1, es[1..], pos + 1);
        var out := Step(s.framer, es[0].data).1;
        SeenGrows(s, out);
        FrameStep(s.framer, es[0].data, Bytes(es[1..]), pos);
        if out.Some? {
          ExtendsCons(Seen(s), Seen(s1), Seen(HappenAll(s1, es[1..])), out.value,
                      Slots(Frame(s1.framer, Bytes(es[1..]), pos + 1)));
        }
      }
    }
  }

  lemma {:induction false} FrameStep(f: Framer, data: Byte, more: seq<Byte>, pos: nat)
    ensures var (f', out) := Step(f, data);
            var rest := Slots(Frame(f', more, pos + 1));
            Slots(Frame(f, [data] + more, pos)) == if out.Some? then [out.value] + rest else rest
  {
    var stream := [data] + more;
    assert stream[0] == data && stream[1..] == more;
  }

  /** End to end: well-formed packets without a reset pair, sent from a packet boundary under any schedule that
      never lets 31 slots pile up, are delivered as they are; nothing else is. */
  lemma {:induction false} PacketsGetThrough(ps: seq<seq<Byte>>, last: Byte, es: seq<Event>)
    requires forall i :: 0 <= i < |ps| ==> WellFormed(ps[i]) && !HasResetPair(ps[i])
    requires Bytes(es) == Concat(ps)
    requires NoOverflow(Link(Framer([], last), [], []), es)
    ensures HappenAll(Link(Framer([], last), [], []), es + [Drain]).delivered == AsSlots(ps)
  {
    var s := Link(Framer([], last), [], []);
    LinkDelivers(s, es, 0);
    RoundTripIff(ps, last, 0);
    HappenAppend(s, es, Drain);
    assert s.delivered + s.queue + AsSlots(ps) == AsSlots(ps);
  }

  lemma {:induction false} HappenAppend(s: Link, es: seq<Event>, e: Event)
    ensures HappenAll(s, es + [e]) == Happen(HappenAll(s, es), e)
    decreases |es|
  {
    if es == [] {
      assert es + [e] == [e] && [e][1..] == [];
      assert HappenAll(Happen(s, e), []) == Happen(s, e);
    } else {
      assert (es + [e])[1..] == es[1..] + [e];
      HappenAppend(Happen(s, es[0]), es[1..], e);
    }
  }

  // ----- The driver object

  /** What a ring slot says. */
  function Decode(cells: seq<Byte>): (slot: Slot)
    requires |cells| == 6
  {
    if cells[0] == 0 then Marker(cells[1]) else Packet(cells)
  }

  function DecodeAll(chunks: seq<seq<Byte>>): (r: seq<Slot>)
    requires forall i :: 0 <= i < |chunks| ==> |chunks[i]| == 6
    ensures |r| == |chunks| && forall i :: 0 <= i < |chunks| ==> r[i] == Decode(chunks[i])
  {
    seq(|chunks|, i requires 0 <= i < |chunks| => Decode(chunks[i]))
  }

  lemma {:induction false} DecodeEnqueue(chunks: seq<seq<Byte>>, cells: seq<Byte>)
    requires |cells| == 6 && forall i :: 0 <= i < |chunks| ==> |chunks[i]| == 6
    ensures DecodeAll(Enqueue(chunks, cells)) == Enqueue(DecodeAll(chunks), Decode(cells))
  {
  }

  /** The packets among the slots. */
  function PacketsOf(slots: seq<Slot>): (r: seq<seq<Byte>>) {
    if slots == [] then []
    else if slots[0].Packet? then [slots[0].bytes] + PacketsOf(slots[1..])
    else PacketsOf(slots[1..])
  }

  class TouchPad {
    const ring: PacketRing<Byte>
    var packetByteCount: nat
    var lastdata: Byte

    ghost predicate Valid()
      reads this`packetByteCount, ring, ring.ring, ring.ring.buffer
    {
      ring.Valid() && |ring.room| == 6 && packetByteCount < 6 && ValidPartial(Partial())
    }

    /** The bytes of the unfinished packet, in the head slot. */
    ghost function Partial(): seq<Byte>
      requires packetByteCount <= |ring.room|
      reads this`packetByteCount, ring
    {
      ring.room[..packetByteCount]
    }

    ghost function Queue(): seq<Slot>
      requires ring.Valid()
      reads ring, ring.ring, ring.ring.buffer
    {
      DecodeAll(ring.slots)
    }

    constructor ()
      ensures Valid() && Queue() == [] && Partial() == [] && lastdata == 0
    {
      ring := new PacketRing<Byte>();
      packetByteCount, lastdata := 0, 0;
    }

    /** Puts a marker into the head slot. */
    method PutMarker(reason: Byte)
      requires Valid()
      modifies ring, ring.ring, ring.ring.buffer, this`packetByteCount
      ensures Valid() && Partial() == [] && Queue() == Enqueue(old(Queue()), Marker(reason))
    {
      ring.Put(0, 0);
      ring.Put(1, reason);
      DecodeEnqueue(ring.slots, ring.room);
      ring.Close();
      packetByteCount := 0;
    }

    /** Adds a byte that fits to the current packet. */
    method AddByte(data: Byte) returns (packetReady: bool)
      requires Valid()
      requires packetByteCount == 0 ==> Header0(data)
      requires packetByteCount == 3 ==> Header3(data)
      modifies ring, ring.ring, ring.ring.buffer, this`packetByteCount
      ensures Valid() && packetReady == (|old(Partial())| == 5)
      ensures var p := old(Partial()) + [data];
              if packetReady then Partial() == [] && Queue() == Enqueue(old(Queue()), Packet(p))
              else Partial() == p && Queue() == old(Queue())
    {
      ghost var p := Partial() + [data];
      ring.Put(packetByteCount, data);
      packetByteCount := packetByteCount + 1;
      assert ring.room[..packetByteCount] == p;
      packetReady := packetByteCount == 6;
      if packetReady {
        assert ring.room == p;
        HeaderIsNotZero(p);
        DecodeEnqueue(ring.slots, p);
        ring.Close();
        packetByteCount := 0;
      }
    }

    /** The interrupt handler: says whether a slot is ready for the work loop. */
    method InterruptOccurred(data: Byte) returns (packetReady: bool)
      requires Valid()
      modifies this, ring, ring.ring, ring.ring.buffer
      ensures Valid()
      ensures var (f, out) := Step(Framer(old(Partial()), old(lastdata)), data);
              Framer(Partial(), lastdata) == f && Queue() == Accept(old(Queue()), out) && packetReady == out.Some?
    {
      if lastdata == RESET && data == 0 {
        PutMarker(RESET);
        return true;
      }
      lastdata := data;
      if packetByteCount == 0 && !Header0(data) {
        PutMarker(0);
        return true;
      }
      if packetByteCount == 3 && !Header3(data) {
        PutMarker(3);
        return true;
      }
      packetReady := AddByte(data);
    }

    /** The work loop: hands on the packets, skips the markers, and leaves the ring empty. */
    method PacketReady() returns (dispatched: seq<seq<Byte>>)
      requires Valid()
      modifies ring, ring.ring
      ensures Valid() && Partial() == old(Partial())
      ensures Queue() == [] && dispatched == PacketsOf(old(Queue()))
    {
      var packets := ring.Drain();
      dispatched := DispatchAll(packets);
    }
  }

  /** Skips the markers, which are the slots whose first byte is zero. */
  method DispatchAll(packets: seq<seq<Byte>>) returns (dispatched: seq<seq<Byte>>)
    requires forall i :: 0 <= i < |packets| ==> |packets[i]| == 6
    ensures dispatched == PacketsOf(DecodeAll(packets))
  {
    dispatched := [];
    ghost var slots := DecodeAll(packets);
    for i := 0 to |packets|
      invariant dispatched + PacketsOf(slots[i..]) == PacketsOf(slots)
    {
      assert slots[i..][1..] == slots[i + 1..];
      if packets[i][0] != 0 {
        dispatched := dispatched + [packets[i]];
      }
    }
  }
}
