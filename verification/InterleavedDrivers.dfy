/** The Synaptics and the ALPS interrupt handler under every interleaving with their work loops. */
module InterleavedDrivers {
  import opened Options
  import opened Port
  import opened ConcurrentFraming
  import SynapticsFraming
  import AlpsFraming

  // ----- Synaptics

  /** A marker clears the first cell and stores its reason in the second; another byte goes behind the packet so far. */
  function SynapticsStores(f: SynapticsFraming.Framer, data: Byte): (r: seq<(nat, Byte)>) {
    var out := SynapticsFraming.Step(f, data).1;
    if out.Some? && out.value.Marker? then [(0, 0), (1, out.value.reason)] else [(|f.partial|, data)]
  }

  function Synaptics(): Handler<SynapticsFraming.Framer, SynapticsFraming.Slot> {
    Handler(SynapticsFraming.Step, SynapticsStores,
            (cells: seq<Byte>) => if |cells| == 6 then SynapticsFraming.Decode(cells) else SynapticsFraming.Marker(0),
            (f: SynapticsFraming.Framer) => f.partial,
            (f: SynapticsFraming.Framer) => SynapticsFraming.ValidPartial(f.partial))
  }

  lemma {:induction false} StoreOne(room: seq<Byte>, a: (nat, Byte))
    requires |room| == 6 && a.0 < 6
    ensures Inside([a]) && StoreAll(room, [a]) == room[a.0 := a.1]
  {
    assert [a][1..] == [];
  }

  lemma {:induction false} StoreTwo(room: seq<Byte>, a: (nat, Byte), b: (nat, Byte))
    requires |room| == 6 && a.0 < 6 && b.0 < 6
    ensures Inside([a, b]) && StoreAll(room, [a, b]) == room[a.0 := a.1][b.0 := b.1]
  {
    assert [a, b][1..] == [b];
    StoreOne(room[a.0 := a.1], b);
  }

  /** A byte behind the packet so far extends it. */
  lemma {:induction false} Extends(room: seq<Byte>, partial: seq<Byte>, data: Byte)
    requires |room| == 6 && partial <= room && |partial| < 6
    ensures partial + [data] <= room[|partial| := data]
  {
    var room' := room[|partial| := data];
    assert room'[..|partial| + 1] == partial + [data];
  }

  lemma {:induction false} SynapticsStepOk(f: SynapticsFraming.Framer, data: Byte, room: seq<Byte>)
    ensures StepOk(Synaptics(), f, data, room)
  {
    var h := Synaptics();
    if |room| == 6 && Holds(h, room, f, None) {
      var (f', out) := SynapticsFraming.Step(f, data);
      if out.Some? && out.value.Marker? {
        StoreTwo(room, (0, 0), (1, out.value.reason));
      } else {
        StoreOne(room, (|f.partial|, data));
        Extends(room, f.partial, data);
        if out.Some? {
          var room' := room[|f.partial| := data];
          assert room' == f.partial + [data];
          SynapticsFraming.HeaderIsNotZero(room');
        }
      }
    }
  }

  lemma {:induction false} SynapticsIsSound()
    ensures Sound(Synaptics())
  {
    forall f: SynapticsFraming.Framer, data: Byte, room: seq<Byte> ensures StepOk(Synaptics(), f, data, room) {
      SynapticsStepOk(f, data, room);
    }
  }

  lemma {:induction false} SynapticsSlots(f: SynapticsFraming.Framer, stream: seq<Byte>, pos: nat)
    ensures SlotsOf(Synaptics(), f, stream) == SynapticsFraming.Slots(SynapticsFraming.Frame(f, stream, pos))
    decreases |stream|
  {
    if stream != [] {
      SynapticsSlots(SynapticsFraming.Step(f, stream[0]).0, stream[1..], pos + 1);
      SynapticsFraming.FrameStep(f, stream[0], stream[1..], pos);
      assert [stream[0]] + stream[1..] == stream;
    }
  }

  /** Every packet that the work loop reads is six consecutive bytes of the stream, and both headers pass. */
  lemma {:induction false} SynapticsWindows(w: World<SynapticsFraming.Framer, SynapticsFraming.Slot>, es: seq<Event>,
                                            k: nat)
    requires Initial(Synaptics(), w) && IsRun(Synaptics(), w, es)
    requires k < |After(Synaptics(), w, es).ring.delivered|
    ensures var w' := After(Synaptics(), w, es);
            var x := ReadAll(Synaptics(), w'.ring.delivered)[k];
            x.Packet? ==> exists end :: SynapticsFraming.IsWindow(SynapticsFraming.Located(end, x), w'.input)
  {
    SynapticsIsSound();
    DeliveredIsFramed(Synaptics(), w, es, k);
    var w' := After(Synaptics(), w, es);
    var x := ReadAll(Synaptics(), w'.ring.delivered)[k];
    SynapticsSlots(w.framer, w'.input, 0);
    var frame := SynapticsFraming.Frame(w.framer, w'.input, 0);
    var i :| 0 <= i < |frame| && frame[i].slot == x;
    assert w'.input[0..] == w'.input;
    SynapticsFraming.FrameSafe(w.framer, w'.input, 0);
    assert SynapticsFraming.IsWindow(frame[i], w'.input) && frame[i] == SynapticsFraming.Located(frame[i].end, x);
  }

  // ----- ALPS

  function AlpsStep(partial: seq<Byte>, data: Byte): (r: (seq<Byte>, Option<AlpsFraming.Report>)) {
    var (partial', out) := AlpsFraming.Step(partial, data);
    (partial', if out.Some? then Some(AlpsFraming.Closed(out.value)) else None)
  }

  /** A byte that is ignored, or ends the packet, is not stored. */
  function AlpsStores(partial: seq<Byte>, data: Byte): (r: seq<(nat, Byte)>) {
    if partial == [] && !AlpsFraming.RelativeHeader(data) && !AlpsFraming.AbsoluteHeader(data) then []
    else if partial != [] && data == 0x80 then []
    else [(|partial|, data)]
  }

  function Alps(): Handler<seq<Byte>, AlpsFraming.Report> {
    Handler(AlpsStep, AlpsStores,
            (cells: seq<Byte>) => if |cells| == 6 then AlpsFraming.Read(cells) else AlpsFraming.Relative([]),
            (partial: seq<Byte>) => partial,
            (partial: seq<Byte>) => AlpsFraming.ValidPartial(partial))
  }

  /** Whatever is stale in the cells behind a packet of three bytes, the work loop will read what was closed. */
  lemma {:induction false} AlpsStepOk(partial: seq<Byte>, data: Byte, room: seq<Byte>)
    ensures StepOk(Alps(), partial, data, room)
  {
    if |room| == 6 && Holds(Alps(), room, partial, None) && AlpsStores(partial, data) != [] {
      StoreOne(room, (|partial|, data));
      Extends(room, partial, data);
      var room' := room[|partial| := data];
      if AlpsFraming.Step(partial, data).1.Some? {
        AlpsFraming.LengthsAgree(partial, data, room');
      }
    }
  }

  lemma {:induction false} AlpsIsSound()
    ensures Sound(Alps())
  {
    forall partial: seq<Byte>, data: Byte, room: seq<Byte> ensures StepOk(Alps(), partial, data, room) {
      AlpsStepOk(partial, data, room);
    }
  }

  function Reports(frame: seq<AlpsFraming.Located>): (r: seq<AlpsFraming.Report>)
    ensures |r| == |frame| && forall i :: 0 <= i < |frame| ==> r[i] == AlpsFraming.Closed(frame[i].bytes)
  {
    seq(|frame|, i requires 0 <= i < |frame| => AlpsFraming.Closed(frame[i].bytes))
  }

  lemma {:induction false} AlpsSlots(partial: seq<Byte>, stream: seq<Byte>, pos: nat)
    ensures SlotsOf(Alps(), partial, stream) == Reports(AlpsFraming.Frame(partial, stream, pos))
    decreases |stream|
  {
    if stream != [] {
      var (partial', out) := AlpsFraming.Step(partial, stream[0]);
      AlpsSlots(partial', stream[1..], pos + 1);
      var rest := AlpsFraming.Frame(partial', stream[1..], pos + 1);
      var here := if out.Some? then [AlpsFraming.Located(pos + 1, out.value)] else [];
      assert AlpsFraming.Frame(partial, stream, pos) == here + rest;
      assert Reports(here + rest) == Reports(here) + Reports(rest);
      assert Reports(here) == AsSeq(AlpsStep(partial, stream[0]).1);
    }
  }

  /** Every report that the work loop makes is three or six consecutive bytes of the stream with the header of that
      length, read as what the handler closed it as. */
  lemma {:induction false} AlpsWindows(w: World<seq<Byte>, AlpsFraming.Report>, es: seq<Event>, k: nat)
    requires Initial(Alps(), w) && IsRun(Alps(), w, es) && k < |After(Alps(), w, es).ring.delivered|
    ensures var w' := After(Alps(), w, es);
            exists x :: AlpsFraming.IsWindow(x, w'.input) &&
                        AlpsFraming.Closed(x.bytes) == ReadAll(Alps(), w'.ring.delivered)[k]
  {
    AlpsIsSound();
    DeliveredIsFramed(Alps(), w, es, k);
    var w' := After(Alps(), w, es);
    var report := ReadAll(Alps(), w'.ring.delivered)[k];
    AlpsSlots(w.framer, w'.input, 0);
    var frame := AlpsFraming.Frame(w.framer, w'.input, 0);
    var i :| 0 <= i < |Reports(frame)| && Reports(frame)[i] == report;
    assert w'.input[0..] == w'.input;
    AlpsFraming.FrameSafe(w.framer, w'.input, 0);
    assert AlpsFraming.IsWindow(frame[i], w'.input);
  }
}
