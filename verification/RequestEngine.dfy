/** What running a command list does to the port: the specification of the request processor. */
module RequestEngine {
  import opened Options
  import opened Port
  import opened Ledger

  const GET_COMMAND_BYTE: Byte := 0x20
  const SET_COMMAND_BYTE: Byte := 0x60
  const TRANSMIT_TO_MOUSE: Byte := 0xD4
  const ACKNOWLEDGE: Byte := 0xFA

  /** A command with the union field that it reads or fills in. */
  datatype Command =
    | ReadDataPort(inOrOut: Byte)
    | ReadDataPortAndCompare(inOrOut: Byte)
    | WriteDataPort(inOrOut: Byte)
    | WriteCommandPort(inOrOut: Byte)
    | SendMouseCommandAndCompareAck(inOrOut: Byte)
    | ReadMouseDataPort(inOrOut: Byte)
    | ReadMouseDataPortAndCompare(inOrOut: Byte)
    | FlushDataPort(inOrOut32: nat)
    | SleepMS(inOrOut32: nat)
    | ModifyCommandByte(setBits: Byte, clearBits: Byte, oldBits: Byte)

  datatype Write = ToDataPort(data: Byte) | ToCommandPort(data: Byte)

  /** The processor's locals (`mode` is the stream that plain reads use), the port, and logs of what
      was written and of where each byte went.  `startup` is the mode without interrupts. */
  datatype Engine = Engine(
    mode: Stream, transmitToMouse: bool, startup: bool,
    port: seq<Poll>, writes: seq<Write>,
    consumed: seq<Arrival>, dispatched: seq<Delivery>, flushed: seq<Arrival>)
  {
    function Wrote(w: seq<Write>): Engine {
      this.(writes := writes + w)
    }

    function After(r: Outcome): Engine {
      this.(port := r.rest, consumed := consumed + r.taken, dispatched := dispatched + r.dispatched)
    }

    function Books(): Books {
      Ledger.Books(port, consumed, dispatched, flushed)
    }

    function Plain(dev: Stream): Outcome {
      Port.ReadPlain(dev, startup, BUDGET, port)
    }

    function Expecting(dev: Stream, expected: Byte): Outcome {
      Port.ReadExpecting(dev, expected, None, BUDGET, port)
    }
  }

  /** Bit `i` of a byte. */
  predicate Bit(b: Byte, i: nat)
    decreases i
  {
    if i == 0 then b % 2 == 1 else Bit(b / 2, i - 1)
  }

  /** The lowest `n` bits of `(oldBits | setBits) & ~clearBits`, bit by bit. */
  function SetAndClear(oldBits: Byte, setBits: Byte, clearBits: Byte, n: nat): (r: Byte)
    decreases n
  {
    if n == 0 then 0
    else
      var low := clearBits % 2 == 0 && (setBits % 2 == 1 || oldBits % 2 == 1);
      (if low then 1 else 0) + 2 * SetAndClear(oldBits / 2, setBits / 2, clearBits / 2, n - 1)
  }

  function NewCommandByte(oldBits: Byte, setBits: Byte, clearBits: Byte): (r: Byte) {
    SetAndClear(oldBits, setBits, clearBits, 8)
  }

  datatype Step = Step(command: Command, engine: Engine, failed: bool)

  /** One command: the command with its output filled in, the engine after it, and whether it failed. */
  function Execute(c: Command, e: Engine): (s: Step) {
    match c
    case ReadDataPort(_) =>
      var r := e.Plain(e.mode);
      Step(ReadDataPort(r.data), e.After(r), false)
    case ReadDataPortAndCompare(expected) =>
      var r := e.Expecting(e.mode, expected);
      Step(ReadDataPortAndCompare(r.data), e.After(r), r.data != expected)
    case WriteDataPort(b) =>
      var e' := e.Wrote([ToDataPort(b)]);
      Step(c, e'.(mode := if e.transmitToMouse then Mouse else Keyboard, transmitToMouse := false), false)
    case WriteCommandPort(b) =>
      Step(c, e.Wrote([ToCommandPort(b)]).(transmitToMouse := e.transmitToMouse || b == TRANSMIT_TO_MOUSE), false)
    case SendMouseCommandAndCompareAck(b) =>
      var r := e.Expecting(Mouse, ACKNOWLEDGE);
      var e' := e.Wrote([ToCommandPort(TRANSMIT_TO_MOUSE), ToDataPort(b)]);
      Step(c, e'.(mode := Mouse).After(r), r.data != ACKNOWLEDGE)
    case ReadMouseDataPort(_) =>
      var r := e.Plain(Mouse);
      Step(ReadMouseDataPort(r.data), e.(mode := Mouse).After(r), false)
    case ReadMouseDataPortAndCompare(expected) =>
      var r := e.Expecting(Mouse, expected);
      Step(c, e.(mode := Mouse).After(r), r.data != expected)
    case FlushDataPort(_) =>
      var n := ReadyPrefix(e.port);
      Step(FlushDataPort(n), e.(port := AfterFlush(e.port), flushed := e.flushed + ReadyBytes(e.port)), false)
    case SleepMS(_) =>
      Step(c, e, false)
    case ModifyCommandByte(setBits, clearBits, _) =>
      var r := e.Plain(Keyboard);
      Step(ModifyCommandByte(setBits, clearBits, r.data),
           e.After(r).Wrote([ToCommandPort(GET_COMMAND_BYTE), ToCommandPort(SET_COMMAND_BYTE),
                             ToDataPort(NewCommandByte(r.data, setBits, clearBits))]),
           false)
  }

  /** A whole list: processing stops behind the first failing command, and `count` is its index. */
  datatype Run = Run(commands: seq<Command>, count: nat, engine: Engine, failed: bool) {
    /** This run, seen as the end of a longer one that has already got through `done`. */
    function Behind(done: seq<Command>): Run {
      Run(done + commands, |done| + count, engine, failed)
    }
  }

  function Process(commands: seq<Command>, e: Engine): (r: Run)
    ensures |r.commands| == |commands| && r.count <= |commands|
    ensures r.failed <==> r.count < |commands|
  {
    if commands == [] then Run([], 0, e, false)
    else
      var s := Execute(commands[0], e);
      if s.failed then Run([s.command] + commands[1..], 0, s.engine, true)
      else
        var r := Process(commands[1..], s.engine);
        Run([s.command] + r.commands, r.count + 1, r.engine, r.failed)
  }

  // ----- What a command brings back

  /** All bits of `mask` are 1 in `b`. */
  predicate HasAll(b: Byte, mask: Byte) {
    forall i :: 0 <= i < 8 && Bit(mask, i) ==> Bit(b, i)
  }

  /** All bits of `mask` are 0 in `b`. */
  predicate HasNone(b: Byte, mask: Byte) {
    forall i :: 0 <= i < 8 && Bit(mask, i) ==> !Bit(b, i)
  }

  lemma {:induction false} BitOfNew(oldBits: Byte, setBits: Byte, clearBits: Byte, n: nat, i: nat)
    requires i < n
    ensures Bit(SetAndClear(oldBits, setBits, clearBits, n), i) <==>
            !Bit(clearBits, i) && (Bit(setBits, i) || Bit(oldBits, i))
    decreases n
  {
    var rest := SetAndClear(oldBits / 2, setBits / 2, clearBits / 2, n - 1);
    var r := SetAndClear(oldBits, setBits, clearBits, n);
    assert r / 2 == rest;
    if i > 0 {
      BitOfNew(oldBits / 2, setBits / 2, clearBits / 2, n - 1, i - 1);
    }
  }

  /** The new command byte has the bits to set, lacks the bits to clear, which win over the former, and agrees with the
      old one elsewhere. */
  lemma {:induction false} NewCommandByteBits(oldBits: Byte, setBits: Byte, clearBits: Byte)
    ensures var newBits := NewCommandByte(oldBits, setBits, clearBits);
            && HasNone(newBits, clearBits)
            && (HasNone(setBits, clearBits) ==> HasAll(newBits, setBits))
            && (forall i :: 0 <= i < 8 && !Bit(setBits, i) && !Bit(clearBits, i) ==>
                 (Bit(newBits, i) <==> Bit(oldBits, i)))
  {
    var newBits := NewCommandByte(oldBits, setBits, clearBits);
    forall i | 0 <= i < 8
      ensures Bit(newBits, i) <==> !Bit(clearBits, i) && (Bit(setBits, i) || Bit(oldBits, i))
    {
      BitOfNew(oldBits, setBits, clearBits, 8, i);
    }
  }

  /** The commands that read bring back the first byte in sight of the stream they read, or 0: the stream of the last
      write for a plain read, and the mouse for a mouse read, which later plain reads then use too. */
  lemma {:induction false} ReadsBringBack(c: Command, e: Engine)
    requires !e.startup && (c.ReadDataPort? || c.ReadMouseDataPort?)
    ensures var s := Execute(c, e);
            var dev := if c.ReadMouseDataPort? then Mouse else e.mode;
            && !s.failed && s.command.inOrOut == FirstOrZero(InSight(dev, BUDGET, e.port))
            && s.engine.mode == dev && s.engine.writes == e.writes
            && s.engine.transmitToMouse == e.transmitToMouse
  {
    PlainReturns(if c.ReadMouseDataPort? then Mouse else e.mode, false, BUDGET, e.port);
  }

  /** Modifying the command byte reads it from the keyboard stream, and writes it back with the bits changed. */
  lemma {:induction false} ModifyBringsBack(c: Command, e: Engine)
    requires !e.startup && c.ModifyCommandByte?
    ensures var s := Execute(c, e);
            var found := FirstOrZero(InSight(Keyboard, BUDGET, e.port));
            && !s.failed && s.command.oldBits == found && s.engine.mode == e.mode
            && |s.engine.writes| == |e.writes| + 3 && e.writes <= s.engine.writes
            && s.engine.writes[|e.writes|] == ToCommandPort(GET_COMMAND_BYTE)
            && s.engine.writes[|e.writes| + 1] == ToCommandPort(SET_COMMAND_BYTE)
            && s.engine.writes[|e.writes| + 2].ToDataPort?
            && var written := s.engine.writes[|e.writes| + 2].data;
            HasNone(written, c.clearBits) && (HasNone(c.setBits, c.clearBits) ==> HasAll(written, c.setBits))
  {
    PlainReturns(Keyboard, false, BUDGET, e.port);
    NewCommandByteBits(FirstOrZero(InSight(Keyboard, BUDGET, e.port)), c.setBits, c.clearBits);
  }

  /** The bytes of a stream in sight, and the answer expected: a comparing command gets it. */
  predicate Answered(dev: Stream, expected: Byte, port: seq<Poll>) {
    var own := InSight(dev, BUDGET, port);
    || (|own| >= 1 && own[0] == expected) || (|own| >= 2 && own[1] == expected)
    || (own == [] && expected == 0)
  }

  /** A comparing command fails if and only if the answer it expects, on the stream it reads, is neither the first nor
      the second byte in sight; the plain one brings back what it got. */
  lemma {:induction false} ComparesFailIff(c: Command, e: Engine)
    requires c.ReadDataPortAndCompare? || c.ReadMouseDataPortAndCompare? || c.SendMouseCommandAndCompareAck?
    ensures var s := Execute(c, e);
            var dev := if c.ReadDataPortAndCompare? then e.mode else Mouse;
            var expected := if c.SendMouseCommandAndCompareAck? then ACKNOWLEDGE else c.inOrOut;
            && (s.failed <==> !Answered(dev, expected, e.port))
            && s.engine.mode == dev && s.engine.writes == e.writes + WritesOf(c)
            && (c.ReadDataPortAndCompare? && !s.failed ==> s.command == c)
            && (c.ReadDataPortAndCompare? && s.failed ==>
                 s.command.inOrOut == FirstOrZero(InSight(dev, BUDGET, e.port)))
            && (!c.ReadDataPortAndCompare? ==> s.command == c)
  {
    var dev := if c.ReadDataPortAndCompare? then e.mode else Mouse;
    var expected := if c.SendMouseCommandAndCompareAck? then ACKNOWLEDGE else c.inOrOut;
    CompareSucceedsIff(dev, expected, BUDGET, e.port);
    ExpectingReturns(dev, expected, BUDGET, e.port);
    assert e.writes + [] == e.writes;
  }

  /** Processing stops at the first command that fails, whose index is the count: those before it succeeded, and those
      behind it are untouched and have done nothing. */
  lemma {:induction false} StopsAtFailure(commands: seq<Command>, e: Engine)
    ensures var r := Process(commands, e);
            if r.failed then
              var before := Process(commands[..r.count], e);
              var s := Execute(commands[r.count], before.engine);
              && !before.failed && s.failed && r.engine == s.engine
              && r.commands == before.commands + [s.command] + commands[r.count + 1..]
            else r.count == |commands|
  {
    if commands != [] {
      var s := Execute(commands[0], e);
      if s.failed {
        assert commands[..0] == [];
        assert Process([], e) == Run([], 0, e, false);
        assert [] + [s.command] + commands[1..] == [s.command] + commands[1..];
      } else {
        StopsAtFailure(commands[1..], s.engine);
        var r := Process(commands[1..], s.engine);
        if r.failed {
          StopsLater(commands, e, r.count + 1);
          var before := Process(commands[1..][..r.count], s.engine);
          Associate(s.command, before.commands, Execute(commands[1..][r.count], before.engine).command,
                    commands[1..][r.count + 1..]);
        }
      }
    }
  }

  lemma {:induction false} Associate(first: Command, a: seq<Command>, b: Command, c: seq<Command>)
    ensures [first] + (a + [b] + c) == [first] + a + [b] + c
  {
  }

  lemma {:induction false} StopsLater(commands: seq<Command>, e: Engine, n: nat)
    requires 0 < n < |commands| && !Execute(commands[0], e).failed
    ensures var s := Execute(commands[0], e);
            var all, tail := Process(commands[..n], e), Process(commands[1..][..n - 1], s.engine);
            && all.engine == tail.engine && all.failed == tail.failed && all.commands == [s.command] + tail.commands
            && commands[n] == commands[1..][n - 1] && commands[n + 1..] == commands[1..][n..]
  {
    assert commands[..n][0] == commands[0] && commands[..n][1..] == commands[1..][..n - 1];
  }

  /** A flush brings back how many bytes it threw away; sleeping changes nothing. */
  lemma {:induction false} FlushBringsBack(c: Command, e: Engine)
    requires c.FlushDataPort? || c.SleepMS?
    ensures var s := Execute(c, e);
            && !s.failed && s.engine.writes == e.writes && s.engine.mode == e.mode
            && (c.FlushDataPort? ==> s.command.inOrOut32 == |s.engine.flushed| - |e.flushed|)
            && (c.SleepMS? ==> s.engine == e && s.command == c)
  {
    ReadyCount(e.port, ReadyPrefix(e.port));
  }

  lemma {:induction false} ReadyCount(port: seq<Poll>, n: nat)
    requires n <= |port| && forall i :: 0 <= i < n ==> port[i].Ready?
    ensures |Arrivals(port[..n])| == n
    decreases n
  {
    if n > 0 {
      assert port[..n][1..] == port[1..][..n - 1];
      ReadyCount(port[1..], n - 1);
    }
  }

  // ----- Whole requests

  /** A command list with its count, which never exceeds the room there is. */
  datatype Body = Body(commands: seq<Command>, commandsCount: nat)

  type RequestBody = b: Body | b.commandsCount <= |b.commands| witness Body([], 0)

  /** A request starts on the keyboard stream with no prefix pending. */
  function Fresh(e: Engine): Engine {
    e.(mode := Keyboard, transmitToMouse := false)
  }

  /** What serving a request leaves in its body, and the engine after it.  Offline it fails at command 0. */
  function Serve(b: RequestBody, e: Engine, offline: bool): (r: (RequestBody, Engine)) {
    if offline then (b.(commandsCount := 0), e)
    else
      var n := b.commandsCount;
      var r := Process(b.commands[..n], Fresh(e));
      (Body(r.commands + b.commands[n..], r.count), Fresh(r.engine))
  }

  /** The same for requests one after the other. */
  function ServeAll(bs: seq<RequestBody>, e: Engine, offline: bool): (r: (seq<RequestBody>, Engine))
    ensures |r.0| == |bs|
  {
    if bs == [] then ([], e)
    else
      var (b, e1) := Serve(bs[0], e, offline);
      var (rest, e2) := ServeAll(bs[1..], e1, offline);
      ([b] + rest, e2)
  }

  lemma {:induction false} ServeOneMore(bs: seq<RequestBody>, b: RequestBody, e: Engine, offline: bool)
    ensures var (done, e1) := ServeAll(bs, e, offline);
            var (last, e2) := Serve(b, e1, offline);
            ServeAll(bs + [b], e, offline) == (done + [last], e2)
  {
    if bs == [] {
      assert bs + [b] == [b] && [b][1..] == [];
      var (last, e2) := Serve(b, e, offline);
      assert ServeAll([], e2, offline) == ([], e2);
      assert [last] + [] == [] + [last];
    } else {
      assert (bs + [b])[0] == bs[0] && (bs + [b])[1..] == bs[1..] + [b];
      var (b0, e0) := Serve(bs[0], e, offline);
      ServeOneMore(bs[1..], b, e0, offline);
      var (done, e1) := ServeAll(bs[1..], e0, offline);
      var last := Serve(b, e1, offline).0;
      assert [b0] + (done + [last]) == [b0] + done + [last];
    }
  }

  /** Online, a request starts on the keyboard stream whatever came before, its count becomes the index of the command
      that failed or stays, and what is behind the count is untouched. */
  lemma {:induction false} ServeOnline(b: RequestBody, e: Engine)
    ensures var (b', e') := Serve(b, e, false);
            var r := Process(b.commands[..b.commandsCount], e.(mode := Keyboard, transmitToMouse := false));
            && b'.commandsCount == r.count && (b'.commandsCount < b.commandsCount <==> r.failed)
            && |b'.commands| == |b.commands| && b'.commands[b.commandsCount..] == b.commands[b.commandsCount..]
            && b'.commands[..b.commandsCount] == r.commands && e'.Books() == r.engine.Books()
            && e'.writes == r.engine.writes
  {
    var r := Process(b.commands[..b.commandsCount], Fresh(e));
    var all := r.commands + b.commands[b.commandsCount..];
    assert all[..b.commandsCount] == r.commands && all[b.commandsCount..] == b.commands[b.commandsCount..];
  }

  /** Offline, every request ends at count 0, and the port and its logs stay as they were. */
  lemma {:induction false} OfflineServesNothing(bs: seq<RequestBody>, e: Engine)
    ensures var (done, e') := ServeAll(bs, e, true);
            && e' == e
            && forall i :: 0 <= i < |bs| ==> done[i] == Body(bs[i].commands, 0)
  {
    if bs != [] {
      OfflineServesNothing(bs[1..], e);
    }
  }

  /** Byte conservation over any number of requests. */
  lemma {:induction false} ServeAllConserves(bs: seq<RequestBody>, e: Engine, offline: bool)
    ensures Conserves(e, ServeAll(bs, e, offline).1, AllReads(bs))
  {
    if bs == [] {
      NothingConserves(e, e);
    } else {
      var e1 := Serve(bs[0], e, offline).1;
      ServeConserves(bs[0], e, offline);
      ServeAllConserves(bs[1..], e1, offline);
      ConservesTransitive(e, e1, ServeAll(bs[1..], e1, offline).1, RequestReads(bs[0]), AllReads(bs[1..]));
    }
  }

  lemma {:induction false} ServeConserves(b: RequestBody, e: Engine, offline: bool)
    ensures Conserves(e, Serve(b, e, offline).1, RequestReads(b))
  {
    if offline {
      NothingConserves(e, e);
    } else {
      ProcessConserves(b.commands[..b.commandsCount], Fresh(e));
      assert Fresh(e).Books() == e.Books();
    }
  }

  /** How many bytes a request may take for itself. */
  function RequestReads(b: RequestBody): (n: nat) {
    TotalReads(b.commands[..b.commandsCount])
  }

  function AllReads(bs: seq<RequestBody>): (n: nat) {
    if bs == [] then 0 else RequestReads(bs[0]) + AllReads(bs[1..])
  }

  // ----- Byte conservation

  /** How many bytes a command may take for itself. */
  function Reads(c: Command): (n: nat) {
    if c.WriteDataPort? || c.WriteCommandPort? || c.FlushDataPort? || c.SleepMS? then 0 else 1
  }

  function TotalReads(cs: seq<Command>): (n: nat) {
    if cs == [] then 0 else Reads(cs[0]) + TotalReads(cs[1..])
  }

  /** Every byte is traced from engine `e` to engine `e'`, and reads consumed at most `limit` of them. */
  ghost predicate Conserves(e: Engine, e': Engine, limit: nat) {
    Traced(e.Books(), e'.Books()) && |e'.consumed| - |e.consumed| <= limit
  }

  lemma {:induction false} ReadConserves(e: Engine, e': Engine, r: Outcome)
    requires Accounts(r, [], e.port) && e'.Books() == e.Books().After(r)
    ensures Conserves(e, e', 1)
  {
    ReadTraced(e.Books(), r);
  }

  lemma {:induction false} FlushConserves(e: Engine, c: Command)
    requires c.FlushDataPort?
    ensures Conserves(e, Execute(c, e).engine, 0)
    ensures Execute(c, e).engine.Books() == e.Books().Flushed()
  {
    FlushTraced(e.Books());
  }

  lemma {:induction false} ExecuteConserves(c: Command, e: Engine)
    ensures Conserves(e, Execute(c, e).engine, Reads(c))
  {
    var e' := Execute(c, e).engine;
    match c
    case ReadDataPort(_) =>
      PlainAccounted(e.mode, e.startup, BUDGET, e.port);
      ReadConserves(e, e', e.Plain(e.mode));
    case ReadMouseDataPort(_) =>
      PlainAccounted(Mouse, e.startup, BUDGET, e.port);
      ReadConserves(e, e', e.Plain(Mouse));
    case ModifyCommandByte(_, _, _) =>
      PlainAccounted(Keyboard, e.startup, BUDGET, e.port);
      ReadConserves(e, e', e.Plain(Keyboard));
    case ReadDataPortAndCompare(expected) =>
      ExpectingAccounted(e.mode, expected, BUDGET, e.port);
      ReadConserves(e, e', e.Expecting(e.mode, expected));
    case ReadMouseDataPortAndCompare(expected) =>
      ExpectingAccounted(Mouse, expected, BUDGET, e.port);
      ReadConserves(e, e', e.Expecting(Mouse, expected));
    case SendMouseCommandAndCompareAck(_) =>
      ExpectingAccounted(Mouse, ACKNOWLEDGE, BUDGET, e.port);
      ReadConserves(e, e', e.Expecting(Mouse, ACKNOWLEDGE));
    case FlushDataPort(_) =>
      FlushConserves(e, c);
    case _ =>
      NothingConserves(e, e');
  }

  lemma {:induction false} NothingConserves(e: Engine, e': Engine)
    requires e'.Books() == e.Books()
    ensures Conserves(e, e', 0)
  {
    NothingTraced(e.Books());
  }

  lemma {:induction false} ConservesTransitive(a: Engine, b: Engine, c: Engine, m: nat, n: nat)
    requires Conserves(a, b, m) && Conserves(b, c, n)
    ensures Conserves(a, c, m + n)
  {
    TracedTransitive(a.Books(), b.Books(), c.Books());
  }

  /** For every command list and every port, each byte that leaves the port is consumed by one read, dispatched
      to the driver of its own stream, or flushed; no byte is lost, doubled, or overtaken within its stream. */
  lemma {:induction false} ProcessConserves(commands: seq<Command>, e: Engine)
    ensures Conserves(e, Process(commands, e).engine, TotalReads(commands))
  {
    if commands == [] {
      NothingConserves(e, e);
    } else {
      var s := Execute(commands[0], e);
      ExecuteConserves(commands[0], e);
      if !s.failed {
        ProcessConserves(commands[1..], s.engine);
        ConservesTransitive(e, s.engine, Process(commands[1..], s.engine).engine,
                            Reads(commands[0]), TotalReads(commands[1..]));
      }
    }
  }

  // ----- Second-chance transparency

  predicate WriteOrCompare(c: Command) {
    || c.WriteDataPort? || c.WriteCommandPort? || c.SendMouseCommandAndCompareAck?
    || c.ReadDataPortAndCompare? || c.ReadMouseDataPortAndCompare?
  }

  /** The answer a command waits for, if any, when plain reads use stream `mode`. */
  function Awaits(c: Command, mode: Stream): (r: seq<Arrival>)
    ensures |r| <= 1
  {
    match c
    case ReadDataPortAndCompare(b) => [Arrival(mode, b)]
    case ReadMouseDataPortAndCompare(b) => [Arrival(Mouse, b)]
    case SendMouseCommandAndCompareAck(_) => [Arrival(Mouse, ACKNOWLEDGE)]
    case _ => []
  }

  function ModeAfter(c: Command, mode: Stream, transmit: bool): Stream {
    match c
    case WriteDataPort(_) => if transmit then Mouse else Keyboard
    case SendMouseCommandAndCompareAck(_) => Mouse
    case ReadMouseDataPortAndCompare(_) => Mouse
    case _ => mode
  }

  function TransmitAfter(c: Command, transmit: bool): bool {
    match c
    case WriteDataPort(_) => false
    case WriteCommandPort(b) => transmit || b == TRANSMIT_TO_MOUSE
    case _ => transmit
  }

  /** The answers that a list of writes and compares waits for, in order. */
  function Answers(commands: seq<Command>, mode: Stream, transmit: bool): (r: seq<Arrival>) {
    if commands == [] then []
    else
      var c := commands[0];
      Awaits(c, mode) + Answers(commands[1..], ModeAfter(c, mode, transmit), TransmitAfter(c, transmit))
  }

  function Flatten(segments: seq<seq<Poll>>): (r: seq<Poll>) {
    if segments == [] then [] else segments[0] + Flatten(segments[1..])
  }

  /** Everything in the segments but the answer that ends each. */
  ghost function Strays(segments: seq<seq<Poll>>): (r: seq<Arrival>)
    requires forall i :: 0 <= i < |segments| ==> segments[i] != []
  {
    if segments == [] then []
    else Arrivals(segments[0][..|segments[0]| - 1]) + Strays(segments[1..])
  }

  ghost predicate AllNoisy(segments: seq<seq<Poll>>, answers: seq<Arrival>) {
    |segments| == |answers| && forall i :: 0 <= i < |segments| ==> Noisy(segments[i], answers[i])
  }

  /** The segments with nothing in them but the answers. */
  function Quiet(answers: seq<Arrival>): (r: seq<seq<Poll>>) {
    seq(|answers|, i requires 0 <= i < |answers| => [Ready(answers[i])])
  }

  lemma {:induction false} QuietIsNoisy(answers: seq<Arrival>)
    ensures AllNoisy(Quiet(answers), answers)
    ensures Strays(Quiet(answers)) == []
  {
    var q := Quiet(answers);
    forall i | 0 <= i < |q| ensures Noisy(q[i], answers[i]) {
      assert q[i][..|q[i]| - 1] == [];
    }
    if answers != [] {
      assert q[1..] == Quiet(answers[1..]);
      QuietIsNoisy(answers[1..]);
    }
  }

  function WritesOf(c: Command): (r: seq<Write>) {
    match c
    case WriteDataPort(b) => [ToDataPort(b)]
    case WriteCommandPort(b) => [ToCommandPort(b)]
    case SendMouseCommandAndCompareAck(b) => [ToCommandPort(TRANSMIT_TO_MOUSE), ToDataPort(b)]
    case _ => []
  }

  function AllWrites(commands: seq<Command>): (r: seq<Write>) {
    if commands == [] then [] else WritesOf(commands[0]) + AllWrites(commands[1..])
  }

  /** From `e` to `e'` the port shrank to `rest`, exactly `answers` were consumed and `writes` written, and
      each stream's driver was handed exactly the strays of that stream, in order. */
  ghost predicate GetsThrough(e: Engine, e': Engine, rest: seq<Poll>, answers: seq<Arrival>, writes: seq<Write>,
                              strays: seq<Arrival>) {
    && e'.port == rest
    && e'.consumed == e.consumed + answers
    && e'.writes == e.writes + writes
    && forall t: Stream :: OnStream(t, e'.dispatched) == OnStream(t, e.dispatched) + OnStream(t, strays)
  }

  lemma {:induction false} GetsThroughTransitive(e: Engine, e1: Engine, e2: Engine, mid: seq<Poll>, rest: seq<Poll>,
                                                 a: seq<Arrival>, a': seq<Arrival>, w: seq<Write>, w': seq<Write>,
                                                 x: seq<Arrival>, x': seq<Arrival>)
    requires GetsThrough(e, e1, mid, a, w, x) && GetsThrough(e1, e2, rest, a', w', x')
    ensures GetsThrough(e, e2, rest, a + a', w + w', x + x')
  {
    forall t: Stream
      ensures OnStream(t, e2.dispatched) == OnStream(t, e.dispatched) + OnStream(t, x + x')
    {
      OnStreamConcat(t, x, x');
    }
  }

  /** The noise in front of one command's answer, if it waits for one. */
  function Noise(segment: seq<Poll>): (r: seq<Arrival>) {
    if segment == [] then [] else Arrivals(segment[..|segment| - 1])
  }

  lemma {:induction false} ExecuteThroughNoise(c: Command, e: Engine, segment: seq<Poll>, rest: seq<Poll>)
    requires WriteOrCompare(c)
    requires if Awaits(c, e.mode) != [] then Noisy(segment, Awaits(c, e.mode)[0]) else segment == []
    requires e.port == segment + rest
    ensures var s := Execute(c, e);
            && !s.failed && s.command == c
            && GetsThrough(e, s.engine, rest, Awaits(c, e.mode), WritesOf(c), Noise(segment))
            && s.engine.mode == ModeAfter(c, e.mode, e.transmitToMouse)
            && s.engine.transmitToMouse == TransmitAfter(c, e.transmitToMouse)
  {
    if Awaits(c, e.mode) != [] {
      var answer := Awaits(c, e.mode)[0];
      var noise := segment[..|segment| - 1];
      assert segment == noise + [Ready(answer)];
      ReadThroughNoise(None, BUDGET, noise, answer, rest);
      assert [] + Arrivals(noise) == Arrivals(noise);
      var r := e.Expecting(answer.stream, answer.data);
      forall t: Stream
        ensures OnStream(t, e.dispatched + r.dispatched) == OnStream(t, e.dispatched) + OnStream(t, Arrivals(noise))
      {
        OnStreamConcat(t, e.dispatched, r.dispatched);
      }
    }
  }

  /** The first command's segment, and the segments of the others. */
  lemma {:induction false} SplitSegments(here: seq<Arrival>, tail: seq<Arrival>, segments: seq<seq<Poll>>,
                                         rest: seq<Poll>)
    returns (segment: seq<Poll>, more: seq<seq<Poll>>)
    requires |here| <= 1 && AllNoisy(segments, here + tail)
    ensures AllNoisy(more, tail)
    ensures if here != [] then Noisy(segment, here[0]) else segment == []
    ensures Flatten(segments) + rest == segment + (Flatten(more) + rest)
    ensures Strays(segments) == Noise(segment) + Strays(more)
  {
    if here == [] {
      assert here + tail == tail;
      segment, more := [], segments;
      assert Noise([]) + Strays(more) == Strays(more);
      assert [] + (Flatten(more) + rest) == Flatten(more) + rest;
    } else {
      assert here + tail == [here[0]] + tail;
      FirstSegment(segments, here[0], tail);
      segment, more := segments[0], segments[1..];
      assert Flatten(segments) + rest == segment + (Flatten(more) + rest);
    }
  }

  lemma {:induction false} FirstSegment(segments: seq<seq<Poll>>, first: Arrival, tail: seq<Arrival>)
    requires AllNoisy(segments, [first] + tail)
    ensures Noisy(segments[0], first) && AllNoisy(segments[1..], tail)
  {
    assert ([first] + tail)[0] == first;
    forall i | 0 <= i < |segments[1..]| ensures Noisy(segments[1..][i], tail[i]) {
      assert segments[1..][i] == segments[i + 1] && tail[i] == ([first] + tail)[i + 1];
    }
  }

  /** The run of a list whose first command has got through, given that the others do. */
  ghost predicate RunGetsThrough(r: Run, commands: seq<Command>, e: Engine, rest: seq<Poll>, answers: seq<Arrival>,
                                 strays: seq<Arrival>) {
    !r.failed && r.commands == commands && GetsThrough(e, r.engine, rest, answers, AllWrites(commands), strays)
  }

  lemma {:induction false} ProcessThroughNoise(commands: seq<Command>, e: Engine, segments: seq<seq<Poll>>,
                                               rest: seq<Poll>)
    requires forall i :: 0 <= i < |commands| ==> WriteOrCompare(commands[i])
    requires AllNoisy(segments, Answers(commands, e.mode, e.transmitToMouse))
    requires e.port == Flatten(segments) + rest
    ensures RunGetsThrough(Process(commands, e), commands, e, rest, Answers(commands, e.mode, e.transmitToMouse),
                           Strays(segments))
  {
    if commands != [] {
      var c := commands[0];
      var here := Awaits(c, e.mode);
      var tail := Answers(commands[1..], ModeAfter(c, e.mode, e.transmitToMouse), TransmitAfter(c, e.transmitToMouse));
      var segment, more := SplitSegments(here, tail, segments, rest);
      ExecuteThroughNoise(c, e, segment, Flatten(more) + rest);
      var s := Execute(c, e);
      ProcessThroughNoise(commands[1..], s.engine, more, rest);
      FirstGetsThrough(commands, e, s, Process(commands[1..], s.engine), Flatten(more) + rest, rest, here, tail,
                       Noise(segment), Strays(more));
    }
  }

  lemma {:induction false} FirstGetsThrough(commands: seq<Command>, e: Engine, s: Step, r: Run,
                                            mid: seq<Poll>, rest: seq<Poll>, here: seq<Arrival>, tail: seq<Arrival>,
                                            noise: seq<Arrival>, strays: seq<Arrival>)
    requires commands != [] && !s.failed && s.command == commands[0]
    requires GetsThrough(e, s.engine, mid, here, WritesOf(commands[0]), noise)
    requires RunGetsThrough(r, commands[1..], s.engine, rest, tail, strays)
    ensures RunGetsThrough(Run([s.command] + r.commands, r.count + 1, r.engine, r.failed), commands, e, rest,
                           here + tail, noise + strays)
  {
    GetsThroughTransitive(e, s.engine, r.engine, mid, rest, here, tail,
                          WritesOf(commands[0]), AllWrites(commands[1..]), noise, strays);
    assert [commands[0]] + commands[1..] == commands;
  }

  /** Whatever strays surround the expected answers, a request of writes and compares ends as it does on a port
      that carries the answers alone: same count, same commands, same writes, same bytes consumed; and every stray
      reaches the driver of its own stream, in arrival order. */
  lemma {:induction false} SecondChanceTransparency(commands: seq<Command>, e: Engine, segments: seq<seq<Poll>>,
                                                    rest: seq<Poll>)
    requires forall i :: 0 <= i < |commands| ==> WriteOrCompare(commands[i])
    requires AllNoisy(segments, Answers(commands, e.mode, e.transmitToMouse))
    requires e.port == Flatten(segments) + rest
    ensures var answers := Answers(commands, e.mode, e.transmitToMouse);
            var quiet := Process(commands, e.(port := Flatten(Quiet(answers)) + rest));
            var noisy := Process(commands, e);
            && noisy.count == quiet.count == |commands|
            && noisy.commands == quiet.commands
            && noisy.engine.writes == quiet.engine.writes
            && noisy.engine.consumed == quiet.engine.consumed
            && noisy.engine.port == quiet.engine.port == rest
            && forall t: Stream ::
                 OnStream(t, noisy.engine.dispatched) ==
                 OnStream(t, quiet.engine.dispatched) + OnStream(t, Strays(segments))
  {
    var answers := Answers(commands, e.mode, e.transmitToMouse);
    ProcessThroughNoise(commands, e, segments, rest);
    QuietIsNoisy(answers);
    ProcessThroughNoise(commands, e.(port := Flatten(Quiet(answers)) + rest), Quiet(answers), rest);
  }

  /** The limit of the idea: a compare with 0 succeeds on a dead port, because a timeout fakes a 0. */
  lemma {:induction false} TimeoutMatchesZero(e: Engine)
    requires e.port == []
    ensures !Execute(ReadDataPortAndCompare(0), e).failed
    ensures forall b: Byte :: b != 0 ==> Execute(ReadDataPortAndCompare(b), e).failed
  {
  }

  // ----- The composite mouse command

  function Expansion(c: Command): (r: seq<Command>) {
    match c
    case SendMouseCommandAndCompareAck(b) =>
      [WriteCommandPort(TRANSMIT_TO_MOUSE), WriteDataPort(b), ReadDataPortAndCompare(ACKNOWLEDGE)]
    case _ => [c]
  }

  function ExpandAll(commands: seq<Command>): (r: seq<Command>) {
    if commands == [] then [] else Expansion(commands[0]) + ExpandAll(commands[1..])
  }

  lemma {:induction false} ProcessConcat(a: seq<Command>, b: seq<Command>, e: Engine)
    ensures var first := Process(a, e);
            var both := Process(a + b, e);
            if first.failed then both.failed && both.count == first.count && both.engine == first.engine
            else
              var second := Process(b, first.engine);
              both.failed == second.failed && both.count == |a| + second.count && both.engine == second.engine
  {
    if a == [] {
      assert a + b == b;
    } else {
      assert (a + b)[1..] == a[1..] + b;
      var s := Execute(a[0], e);
      if !s.failed {
        ProcessConcat(a[1..], b, s.engine);
      }
    }
  }

  lemma {:induction false} ProcessOne(c: Command, e: Engine)
    ensures var s := Execute(c, e);
            var r := Process([c], e);
            r.failed == s.failed && r.engine == s.engine && r.count == (if s.failed then 0 else 1)
  {
    var s := Execute(c, e);
    assert [c][1..] == [];
    assert Process([], s.engine) == Run([], 0, s.engine, false);
  }

  /** A list of three, unrolled. */
  lemma {:induction false} ProcessThree(c0: Command, c1: Command, c2: Command, e: Engine)
    requires !Execute(c0, e).failed && !Execute(c1, Execute(c0, e).engine).failed
    ensures var s := Execute(c2, Execute(c1, Execute(c0, e).engine).engine);
            var r := Process([c0, c1, c2], e);
            r.failed == s.failed && r.engine == s.engine && (r.failed ==> r.count == 2)
  {
    var e1 := Execute(c0, e).engine;
    var e2 := Execute(c1, e1).engine;
    assert [c0, c1, c2][1..] == [c1, c2] && [c1, c2][1..] == [c2] && [c2][1..] == [];
    var r2 := Process([c2], e2);
    ProcessOne(c2, e2);
    var r1 := Process([c1, c2], e1);
    assert r1.engine == r2.engine && r1.failed == r2.failed;
  }

  /** One composite command and its three-command expansion agree in success, writes, port and logs; they leave
      the whole engine in the same state exactly when no transmit prefix was pending. */
  lemma {:induction false} ExpansionIff(c: Command, e: Engine)
    requires c.SendMouseCommandAndCompareAck?
    ensures var s := Execute(c, e);
            var r := Process(Expansion(c), e);
            && r.failed == s.failed && (r.failed ==> r.count == 2)
            && r.engine.(transmitToMouse := e.transmitToMouse) == s.engine
            && (r.engine == s.engine <==> !e.transmitToMouse)
  {
    var x := Expansion(c);
    var e1 := Execute(x[0], e).engine;
    var e2 := Execute(x[1], e1).engine;
    var wrote := e.Wrote([ToCommandPort(TRANSMIT_TO_MOUSE), ToDataPort(c.inOrOut)]);
    assert e2 == wrote.(mode := Mouse, transmitToMouse := false);
    ProcessThree(x[0], x[1], x[2], e);
  }

  /** No composite command is reached with a transmit prefix pending. */
  predicate NoPendingPrefix(commands: seq<Command>, transmit: bool) {
    commands == [] ||
    (var c := commands[0];
     (c.SendMouseCommandAndCompareAck? ==> !transmit) && NoPendingPrefix(commands[1..], TransmitAfter(c, transmit)))
  }

  /** The index in the expanded list of the command that decides command `i`. */
  function ExpandedIndex(commands: seq<Command>, i: nat): (j: nat)
    requires i <= |commands|
  {
    if i == |commands| then |ExpandAll(commands)|
    else if i == 0 then |Expansion(commands[0])| - 1
    else |Expansion(commands[0])| + ExpandedIndex(commands[1..], i - 1)
  }

  lemma {:induction false} ExpandOne(c: Command, e: Engine)
    requires c.SendMouseCommandAndCompareAck? ==> !e.transmitToMouse
    ensures var s := Execute(c, e);
            var r := Process(Expansion(c), e);
            && r.failed == s.failed && r.engine == s.engine && (r.failed ==> r.count == |Expansion(c)| - 1)
            && s.engine.transmitToMouse == TransmitAfter(c, e.transmitToMouse)
  {
    if c.SendMouseCommandAndCompareAck? {
      ExpansionIff(c, e);
    } else {
      ProcessOne(c, e);
    }
  }

  /** Run `x` of the expanded list does what run `r` of the list does. */
  predicate Refines(x: Run, r: Run, commands: seq<Command>)
    requires r.count <= |commands|
  {
    x.engine == r.engine && x.failed == r.failed && x.count == ExpandedIndex(commands, r.count)
  }

  /** Expanding every composite command preserves what is written, read, dispatched and flushed, the stream mode,
      and success, for every list and every port; a failure is reported at the corresponding index. */
  lemma {:induction false} ExpansionRefines(commands: seq<Command>, e: Engine)
    requires NoPendingPrefix(commands, e.transmitToMouse)
    ensures Refines(Process(ExpandAll(commands), e), Process(commands, e), commands)
  {
    if commands != [] {
      var c := commands[0];
      ExpandOne(c, e);
      ProcessConcat(Expansion(c), ExpandAll(commands[1..]), e);
      var s := Execute(c, e);
      if !s.failed {
        ExpansionRefines(commands[1..], s.engine);
        RefinesCons(commands, Process(ExpandAll(commands), e), Process(ExpandAll(commands[1..]), s.engine),
                    Process(commands[1..], s.engine), s);
      }
    }
  }

  lemma {:induction false} RefinesCons(commands: seq<Command>, x: Run, x': Run, r': Run, s: Step)
    requires commands != [] && r'.count < |commands| && Refines(x', r', commands[1..])
    requires x.engine == x'.engine && x.failed == x'.failed && x.count == |Expansion(commands[0])| + x'.count
    ensures Refines(x, Run([s.command] + r'.commands, r'.count + 1, r'.engine, r'.failed), commands)
  {
    if r'.count + 1 == |commands| {
      assert ExpandedIndex(commands[1..], r'.count) == |ExpandAll(commands[1..])|;
    }
  }

  /** With a prefix pending the two differ: the leftover prefix redirects the next write, so that the acknowledge
      of a keyboard command is looked for on the mouse stream. */
  lemma {:induction false} PendingPrefixDiffers()
    ensures var ack := Arrival(Mouse, ACKNOWLEDGE);
            var port := [Ready(ack), Ready(ack.(stream := Keyboard))];
            var e := Engine(Keyboard, true, false, port, [], [], [], []);
            var c := SendMouseCommandAndCompareAck(0xF4);
            var later := [WriteDataPort(0xF4), ReadDataPortAndCompare(ACKNOWLEDGE)];
            && Process(later, Execute(c, e).engine).failed
            && !Process(later, Process(Expansion(c), e).engine).failed
  {
    var ack := Arrival(Mouse, ACKNOWLEDGE);
    var port := [Ready(ack), Ready(ack.(stream := Keyboard))];
    var e := Engine(Keyboard, true, false, port, [], [], [], []);
    var c := SendMouseCommandAndCompareAck(0xF4);
    var later := [WriteDataPort(0xF4), ReadDataPortAndCompare(ACKNOWLEDGE)];
    assert port[1..] == [Ready(ack.(stream := Keyboard))] && port[1..][1..] == [];
    assert later[1..] == [ReadDataPortAndCompare(ACKNOWLEDGE)] && later[1..][1..] == [];
    ExpansionIff(c, e);
    var s := Execute(c, e).engine;
    assert s.port == port[1..];
    assert Port.ReadExpecting(Mouse, ACKNOWLEDGE, None, BUDGET, port[1..]).data == 0;
    assert Execute(later[1], Execute(later[0], s).engine).failed;
    assert Process(later[1..], Execute(later[0], s).engine).failed;
    var x := Process(Expansion(c), e).engine;
    assert Port.ReadExpecting(Keyboard, ACKNOWLEDGE, None, BUDGET, port[1..]).data == ACKNOWLEDGE;
    assert !Execute(later[1], Execute(later[0], x).engine).failed;
    assert !Process(later[1..], Execute(later[0], x).engine).failed;
  }
}
