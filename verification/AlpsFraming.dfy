/** Packet framing of the ALPS driver: packets of three or six bytes share slots of six.  The writer decides the
    length when it closes a packet; the reader decides again, from the first byte, when it dispatches. */
module AlpsFraming {
  import opened Options
  import opened Port
  import opened RingBuffer

  /** `b & 0xc8 == 0x08`: bits 7 and 6 are 0, and bit 3 is 1. */
  predicate RelativeHeader(b: Byte) {
    b / 64 == 0 && b / 8 % 2 == 1
  }

  /** `b & 0xf8 == 0xf8`: the five upper bits are 1. */
  predicate AbsoluteHeader(b: Byte) {
    b / 8 == 31
  }

  datatype Report = Absolute(bytes: seq<Byte>) | Relative(bytes: seq<Byte>)

  predicate ValidPartial(p: seq<Byte>) {
    |p| < 6 && (p != [] ==> RelativeHeader(p[0]) || AbsoluteHeader(p[0])) && (|p| >= 3 ==> AbsoluteHeader(p[0]))
  }

  /** One byte at interrupt time: the packet so far, and the packet if the byte completes one. */
  function Step(partial: seq<Byte>, data: Byte): (r: (seq<Byte>, Option<seq<Byte>>)) {
    if partial == [] && !RelativeHeader(data) && !AbsoluteHeader(data) then ([], None)
    else if partial != [] && data == 0x80 then ([], None)
    else
      var p := partial + [data];
      if |p| == 6 || (|p| == 3 && RelativeHeader(p[0])) then ([], Some(p)) else (p, None)
  }

  /** What the reader makes of a slot, whose cells behind the packet are stale. */
  function Read(cells: seq<Byte>): (r: Report)
    requires |cells| == 6
  {
    if AbsoluteHeader(cells[0]) then Absolute(cells) else Relative(cells[..3])
  }

  /** What the writer put there. */
  function Closed(p: seq<Byte>): (r: Report) {
    if |p| == 6 then Absolute(p) else Relative(p)
  }

  /** The reader's choice always agrees with the length at which the writer closed the packet, whatever is in the
      cells behind it. */
  lemma {:induction false} LengthsAgree(partial: seq<Byte>, data: Byte, cells: seq<Byte>)
    requires ValidPartial(partial) && Step(partial, data).1.Some?
    requires |cells| == 6 && Step(partial, data).1.value <= cells
    ensures Read(cells) == Closed(Step(partial, data).1.value)
    ensures |Step(partial, data).1.value| in {3, 6}
  {
    var p := Step(partial, data).1.value;
    assert cells[..|p|] == p;
    assert p[0] == if partial == [] then data else partial[0];
  }

  datatype Located = Located(end: nat, bytes: seq<Byte>)

  /** The packets of a byte stream, with the stream position behind each. */
  function Frame(partial: seq<Byte>, stream: seq<Byte>, pos: nat): (r: seq<Located>)
    decreases |stream|
  {
    if stream == [] then []
    else
      var (partial', out) := Step(partial, stream[0]);
      var rest := Frame(partial', stream[1..], pos + 1);
      if out.Some? then [Located(pos + 1, out.value)] + rest else rest
  }

  /** The packet is the stream in front of its position, complete, and has a valid first byte for its length. */
  ghost predicate IsWindow(x: Located, whole: seq<Byte>) {
    && |x.bytes| <= x.end <= |whole| && x.bytes == whole[x.end - |x.bytes|..x.end]
    && ((|x.bytes| == 3 && RelativeHeader(x.bytes[0])) || (|x.bytes| == 6 && AbsoluteHeader(x.bytes[0])))
  }

  ghost predicate Apart(xs: seq<Located>, from: nat) {
    && (forall i :: 0 <= i < |xs| ==> xs[i].end >= from + |xs[i].bytes|)
    && (forall i, j :: 0 <= i < j < |xs| ==> xs[i].end + |xs[j].bytes| <= xs[j].end)
  }

  lemma {:induction false} StepSafe(partial: seq<Byte>, whole: seq<Byte>, pos: nat)
    requires ValidPartial(partial) && |partial| <= pos < |whole|
    requires partial == whole[pos - |partial|..pos]
    ensures var (partial', out) := Step(partial, whole[pos]);
            && ValidPartial(partial') && |partial'| <= |partial| + 1
            && partial' == whole[pos + 1 - |partial'|..pos + 1]
            && (out.Some? ==>
                 && partial' == [] && |out.value| == |partial| + 1
                 && IsWindow(Located(pos + 1, out.value), whole))
  {
    assert partial + [whole[pos]] == whole[pos - |partial|..pos + 1];
  }

  lemma {:induction false} ApartCons(x: Located, xs: seq<Located>, from: nat)
    requires Apart(xs, x.end) && x.end >= from + |x.bytes|
    ensures Apart([x] + xs, from)
  {
    var all := [x] + xs;
    assert forall i :: 0 < i < |all| ==> all[i] == xs[i - 1];
  }

  /** Whatever the stream, every packet is consecutive stream bytes of its own length with a matching header, and
      packets are disjoint and in order. */
  lemma {:induction false} FrameSafe(partial: seq<Byte>, whole: seq<Byte>, pos: nat)
    requires ValidPartial(partial) && |partial| <= pos <= |whole|
    requires partial == whole[pos - |partial|..pos]
    ensures var xs := Frame(partial, whole[pos..], pos);
            Apart(xs, pos - |partial|) && forall i :: 0 <= i < |xs| ==> IsWindow(xs[i], whole)
    decreases |whole| - pos
  {
    if pos < |whole| {
      var (partial', out) := Step(partial, whole[pos]);
      assert whole[pos..][0] == whole[pos] && whole[pos..][1..] == whole[pos + 1..];
      StepSafe(partial, whole, pos);
      FrameSafe(partial', whole, pos + 1);
      if out.Some? {
        ApartCons(Located(pos + 1, out.value), Frame(partial', whole[pos + 1..], pos + 1), pos - |partial|);
      }
    }
  }

  // ----- Round trip

  /** Three bytes with a relative header, or six with an absolute one. */
  predicate WellFormed(p: seq<Byte>) {
    (|p| == 3 && RelativeHeader(p[0])) || (|p| == 6 && AbsoluteHeader(p[0]))
  }

  /** The byte 0x80 does not occur behind the first byte. */
  predicate Unbroken(p: seq<Byte>) {
    forall i :: 0 < i < |p| ==> p[i] != 0x80
  }

  function Concat(ps: seq<seq<Byte>>): (r: seq<Byte>) {
    if ps == [] then [] else ps[0] + Concat(ps[1..])
  }

  function Packets(xs: seq<Located>): (r: seq<seq<Byte>>)
    ensures |r| == |xs| && forall i :: 0 <= i < |xs| ==> r[i] == xs[i].bytes
  {
    seq(|xs|, i requires 0 <= i < |xs| => xs[i].bytes)
  }

  lemma {:induction false} FrameStep(partial: seq<Byte>, data: Byte, rest: seq<Byte>, pos: nat)
    ensures var (partial', out) := Step(partial, data);
            var more := Frame(partial', rest, pos + 1);
            Frame(partial, [data] + rest, pos) == if out.Some? then [Located(pos + 1, out.value)] + more else more
  {
    var stream := [data] + rest;
    assert stream[0] == data && stream[1..] == rest;
  }

  /** A byte 0x80 inside a packet drops what there is of it, and nothing else: framing goes on from a boundary. */
  lemma {:induction false} BreakDrops(partial: seq<Byte>, rest: seq<Byte>, pos: nat)
    requires partial != []
    ensures Frame(partial, [0x80] + rest, pos) == Frame([], rest, pos + 1)
  {
    FrameStep(partial, 0x80, rest, pos);
  }

  /** A byte at a boundary that starts no packet is passed over. */
  lemma {:induction false} GarbagePassedOver(data: Byte, rest: seq<Byte>, pos: nat)
    requires !RelativeHeader(data) && !AbsoluteHeader(data)
    ensures Frame([], [data] + rest, pos) == Frame([], rest, pos + 1)
  {
    FrameStep([], data, rest, pos);
  }

  /** From inside an unbroken packet, the packet comes out whole, and the rest is framed from a boundary. */
  lemma {:induction false} FramePacket(p: seq<Byte>, n: nat, rest: seq<Byte>, pos: nat)
    requires WellFormed(p) && Unbroken(p) && n < |p|
    ensures Frame(p[..n], p[n..] + rest, pos) ==
            [Located(pos + |p| - n, p)] + Frame([], rest, pos + |p| - n)
    decreases |p| - n
  {
    assert p[n..] + rest == [p[n]] + (p[n + 1..] + rest);
    assert p[..n] + [p[n]] == p[..n + 1];
    FrameStep(p[..n], p[n], p[n + 1..] + rest, pos);
    HeadersDiffer(p[0]);
    if n + 1 == |p| {
      assert p[..n + 1] == p && p[n + 1..] + rest == rest;
    } else {
      FramePacket(p, n + 1, rest, pos + 1);
    }
  }

  lemma {:induction false} HeadersDiffer(b: Byte)
    ensures !(RelativeHeader(b) && AbsoluteHeader(b))
  {
  }

  function Total(xs: seq<Located>): (n: nat) {
    if xs == [] then 0 else |xs[0].bytes| + Total(xs[1..])
  }

  /** Framing makes no bytes up. */
  lemma {:induction false} TotalAtMost(partial: seq<Byte>, stream: seq<Byte>, pos: nat)
    ensures Total(Frame(partial, stream, pos)) <= |partial| + |stream|
    decreases |stream|
  {
    if stream != [] {
      var (partial', out) := Step(partial, stream[0]);
      TotalAtMost(partial', stream[1..], pos + 1);
      if out.Some? {
        var more := Frame(partial', stream[1..], pos + 1);
        assert ([Located(pos + 1, out.value)] + more)[1..] == more;
      }
    }
  }

  /** From inside a packet that is broken further on, bytes are lost. */
  lemma {:induction false} BreakLoses(p: seq<Byte>, n: nat, k: nat, rest: seq<Byte>, pos: nat)
    requires WellFormed(p) && n <= k < |p| && 0 < k && p[k] == 0x80
    requires forall i :: 0 < i < k ==> p[i] != 0x80
    ensures Total(Frame(p[..n], p[n..] + rest, pos)) < |p| + |rest|
    decreases k - n
  {
    assert p[n..] + rest == [p[n]] + (p[n + 1..] + rest);
    assert p[..n] + [p[n]] == p[..n + 1];
    FrameStep(p[..n], p[n], p[n + 1..] + rest, pos);
    if n == k {
      TotalAtMost([], p[n + 1..] + rest, pos + 1);
    } else {
      HeadersDiffer(p[0]);
      BreakLoses(p, n + 1, k, rest, pos + 1);
    }
  }

  function Lengths(ps: seq<seq<Byte>>): (n: nat) {
    if ps == [] then 0 else |ps[0]| + Lengths(ps[1..])
  }

  lemma {:induction false} LengthsOfConcat(ps: seq<seq<Byte>>)
    ensures Lengths(ps) == |Concat(ps)|
  {
    if ps != [] {
      LengthsOfConcat(ps[1..]);
    }
  }

  lemma {:induction false} LengthsOfPackets(xs: seq<Located>)
    ensures Lengths(Packets(xs)) == Total(xs)
  {
    if xs != [] {
      LengthsOfPackets(xs[1..]);
      assert Packets(xs)[1..] == Packets(xs[1..]);
    }
  }

  lemma {:induction false} FirstBreak(p: seq<Byte>) returns (k: nat)
    requires !Unbroken(p)
    ensures 0 < k < |p| && p[k] == 0x80 && forall i :: 0 < i < k ==> p[i] != 0x80
  {
    k := 1;
    while p[k] != 0x80
      invariant 0 < k < |p| && forall i :: 0 < i < k ==> p[i] != 0x80
      decreases |p| - k
    {
      k := k + 1;
    }
  }

  /** The concatenation of well-formed packets, relative and absolute ones in any mixture, frames into exactly those
      packets if and only if none of them has the byte 0x80 behind its first. */
  lemma {:induction false} RoundTripIff(ps: seq<seq<Byte>>, pos: nat)
    requires forall i :: 0 <= i < |ps| ==> WellFormed(ps[i])
    ensures Packets(Frame([], Concat(ps), pos)) == ps <==> forall i :: 0 <= i < |ps| ==> Unbroken(ps[i])
    decreases |ps|
  {
    if ps != [] {
      var p, rest := ps[0], Concat(ps[1..]);
      assert p[..0] == [] && p[0..] == p;
      if Unbroken(p) {
        FramePacket(p, 0, rest, pos);
        RoundTripIff(ps[1..], pos + |p|);
        FirstApart(p, Frame([], rest, pos + |p|), ps, pos);
      } else {
        var k := FirstBreak(p);
        BreakLoses(p, 0, k, rest, pos);
        LengthsOfConcat(ps);
        LengthsOfPackets(Frame([], Concat(ps), pos));
      }
    }
  }

  lemma {:induction false} FirstApart(p: seq<Byte>, more: seq<Located>, ps: seq<seq<Byte>>, pos: nat)
    requires ps != [] && ps[0] == p
    ensures Packets([Located(pos + |p|, p)] + more) == ps <==> Packets(more) == ps[1..]
    ensures (forall i :: 0 <= i < |ps| ==> Unbroken(ps[i])) <==>
            Unbroken(p) && forall i :: 0 <= i < |ps[1..]| ==> Unbroken(ps[1..][i])
  {
    var all := [Located(pos + |p|, p)] + more;
    assert Packets(all) == [p] + Packets(more);
    assert Packets(all)[1..] == Packets(more) && [ps[0]] + ps[1..] == ps;
    assert forall i :: 0 < i < |ps| ==> ps[i] == ps[1..][i - 1];
  }

  // ----- The driver object

  function ReadAll(chunks: seq<seq<Byte>>): (r: seq<Report>)
    requires forall i :: 0 <= i < |chunks| ==> |chunks[i]| == 6
    ensures |r| == |chunks| && forall i :: 0 <= i < |chunks| ==> r[i] == Read(chunks[i])
  {
    seq(|chunks|, i requires 0 <= i < |chunks| => Read(chunks[i]))
  }

  lemma {:induction false} ReadEnqueue(chunks: seq<seq<Byte>>, cells: seq<Byte>)
    requires |cells| == 6 && forall i :: 0 <= i < |chunks| ==> |chunks[i]| == 6
    ensures ReadAll(Enqueue(chunks, cells)) == Enqueue(ReadAll(chunks), Read(cells))
  {
  }

  class GlidePoint {
    const ring: PacketRing<Byte>
    var packetByteCount: nat

    ghost predicate Valid()
      reads this, ring, ring.ring, ring.ring.buffer
    {
      ring.Valid() && |ring.room| == 6 && packetByteCount < 6 && ValidPartial(Partial())
    }

    ghost function Partial(): seq<Byte>
      requires packetByteCount <= |ring.room|
      reads this, ring
    {
      ring.room[..packetByteCount]
    }

    /** The reports that the reader would make of what waits. */
    ghost function Queue(): seq<Report>
      requires ring.Valid()
      reads ring, ring.ring, ring.ring.buffer
    {
      ReadAll(ring.slots)
    }

    constructor ()
      ensures Valid() && Queue() == [] && Partial() == []
    {
      ring := new PacketRing<Byte>();
      packetByteCount := 0;
    }

    method InterruptOccurred(data: Byte) returns (packetReady: bool)
      requires Valid()
      modifies this, ring, ring.ring, ring.ring.buffer
      ensures Valid()
      ensures var (partial, out) := Step(old(Partial()), data);
              && Partial() == partial && packetReady == out.Some?
              && Queue() == if out.Some? then Enqueue(old(Queue()), Closed(out.value)) else old(Queue())
    {
      if packetByteCount == 0 && !RelativeHeader(data) && !AbsoluteHeader(data) {
        return false;
      }
      if packetByteCount >= 1 && data == 0x80 {
        packetByteCount := 0;
        return false;
      }
      packetReady := AddByte(data);
    }

    /** Adds a byte that fits to the current packet. */
    method AddByte(data: Byte) returns (packetReady: bool)
      requires Valid()
      requires packetByteCount == 0 ==> RelativeHeader(data) || AbsoluteHeader(data)
      requires packetByteCount >= 1 ==> data != 0x80
      modifies this, ring, ring.ring, ring.ring.buffer
      ensures Valid()
      ensures var (partial, out) := Step(old(Partial()), data);
              && Partial() == partial && packetReady == out.Some?
              && Queue() == if out.Some? then Enqueue(old(Queue()), Closed(out.value)) else old(Queue())
    {
      ghost var before := Partial();
      ring.Put(packetByteCount, data);
      packetByteCount := packetByteCount + 1;
      assert ring.room[..packetByteCount] == before + [data];
      var first := ring.AtHead(0);
      packetReady := packetByteCount == 6 || (packetByteCount == 3 && RelativeHeader(first));
      if packetReady {
        LengthsAgree(before, data, ring.room);
        ReadEnqueue(ring.slots, ring.room);
        ring.Close();
        packetByteCount := 0;
      }
    }

    /** The work loop: every waiting packet is dispatched as what it was closed as. */
    method PacketReady() returns (dispatched: seq<Report>)
      requires Valid()
      modifies ring, ring.ring
      ensures Valid() && Partial() == old(Partial())
      ensures Queue() == [] && dispatched == old(Queue())
    {
      var packets := ring.Drain();
      dispatched := DispatchAll(packets);
    }
  }

  /** The reader's choice, packet by packet. */
  method DispatchAll(packets: seq<seq<Byte>>) returns (dispatched: seq<Report>)
    requires forall i :: 0 <= i < |packets| ==> |packets[i]| == 6
    ensures dispatched == ReadAll(packets)
  {
    dispatched := [];
    for i := 0 to |packets|
      invariant |dispatched| == i && forall j :: 0 <= j < i ==> dispatched[j] == Read(packets[j])
    {
      if AbsoluteHeader(packets[i][0]) {
        dispatched := dispatched + [Absolute(packets[i])];
      } else {
        dispatched := dispatched + [Relative(packets[i][..3])];
      }
    }
  }
}
