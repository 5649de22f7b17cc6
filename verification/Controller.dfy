/** The PS/2 controller: polling reads, the request processor, the request queue and the power gate,
    as an object that changes in place.  Each method is tied to the specification in `Port`,
    `RequestEngine`, `RequestQueue` and `Power`. */
module Controller {
  import opened Options
  import opened Port
  import opened Ledger
  import opened RequestEngine
  import RequestQueue
  import Power

  const KEYBOARD_IRQ: Byte := 0x01
  const MOUSE_IRQ: Byte := 0x02
  const SYSTEM_FLAG: Byte := 0x04
  const KEYBOARD_CLOCK_OFF: Byte := 0x10
  const MOUSE_CLOCK_OFF: Byte := 0x20
  const TRANSLATE_MODE: Byte := 0x40

  const CLOCK_WRITES: seq<Write> := [ToCommandPort(0xAD), ToCommandPort(0xA7), ToCommandPort(0xA8), ToCommandPort(0xAE)]

  const TEST_WRITES: seq<Write> := [ToCommandPort(0xAA), ToCommandPort(0xAB), ToCommandPort(0xA9)]

  function ReinitialiseWrites(commandByte: Byte): (r: seq<Write>) {
    [ToCommandPort(SET_COMMAND_BYTE), ToDataPort(commandByte), ToDataPort(0xF5),
     ToCommandPort(TRANSMIT_TO_MOUSE), ToDataPort(0xF5)]
  }

  /** The reads of the three self tests. */
  function TestBooks(b: Books, startup: bool): (r: Books) {
    b.Read(Keyboard, startup).Read(Mouse, startup).Read(Keyboard, startup).Read(Mouse, startup)
  }

  function SelfTestBooks(b: Books, startup: bool): (r: Books) {
    TestBooks(b.Flushed().Read(Keyboard, startup), startup)
  }

  /** The reads of a reset: the self tests take bytes of either stream, the acknowledges must come from their device. */
  function ResetBooks(b: Books): (r: Books) {
    SelfTestBooks(b, true).Read(Keyboard, false).Read(Mouse, false).Flushed()
  }

  /** A controller that answers has all its answers read, and none reaches a driver: the command byte and four test
      results on either stream, and an acknowledge of each device. */
  lemma {:induction false} ResetTakesAnswers(b: Books, answers: seq<Arrival>, rest: seq<Poll>)
    requires |answers| == 7 && answers[5].stream == Keyboard && answers[6].stream == Mouse
    requires b.port == [NotReady] + Awaited(answers) + rest
    ensures ResetBooks(b) == b.(port := rest, consumed := b.consumed + answers).Flushed()
  {
    var p := Awaited(answers);
    assert b.port[0].NotReady? && b.port[1..] == p + rest;
    ReadyEnd(b);
    assert answers[0..] == answers && b.consumed + answers[..0] == b.consumed;
    assert b.Flushed() == Taken(b, answers, 0, rest);
    ReadsAnswers(b, answers, rest);
    assert answers[..7] == answers && answers[7..] == [] && Awaited([]) + rest == rest;
  }

  /** The answers, each ready when it is read. */
  function Awaited(answers: seq<Arrival>): (r: seq<Poll>)
    ensures |r| == |answers| && forall i :: 0 <= i < |answers| ==> r[i] == Ready(answers[i])
  {
    seq(|answers|, i requires 0 <= i < |answers| => Ready(answers[i]))
  }

  /** The first `k` answers have been read. */
  function Taken(b: Books, answers: seq<Arrival>, k: nat, rest: seq<Poll>): (r: Books)
    requires k <= |answers|
  {
    b.(port := Awaited(answers[k..]) + rest, consumed := b.consumed + answers[..k])
  }

  /** One more answer is read. */
  lemma {:induction false} TakesNext(
    b: Books, answers: seq<Arrival>, k: nat, rest: seq<Poll>, dev: Stream, startup: bool)
    requires k < |answers| && (startup || answers[k].stream == dev)
    ensures Taken(b, answers, k, rest).Read(dev, startup) == Taken(b, answers, k + 1, rest)
  {
    var port := Awaited(answers[k..]) + rest;
    assert port[0] == Ready(answers[k]) && port[1..] == Awaited(answers[k + 1..]) + rest;
    assert b.consumed + answers[..k] + [answers[k]] == b.consumed + answers[..k + 1];
    assert b.dispatched + [] == b.dispatched;
  }

  lemma {:induction false} ReadsAnswers(b: Books, answers: seq<Arrival>, rest: seq<Poll>)
    requires |answers| == 7 && answers[5].stream == Keyboard && answers[6].stream == Mouse
    ensures TestBooks(Taken(b, answers, 0, rest).Read(Keyboard, true), true).Read(Keyboard, false).Read(Mouse, false) ==
            Taken(b, answers, 7, rest)
  {
    TakesNext(b, answers, 0, rest, Keyboard, true);
    TakesNext(b, answers, 1, rest, Keyboard, true);
    TakesNext(b, answers, 2, rest, Mouse, true);
    TakesNext(b, answers, 3, rest, Keyboard, true);
    TakesNext(b, answers, 4, rest, Mouse, true);
    TakesNext(b, answers, 5, rest, Keyboard, false);
    TakesNext(b, answers, 6, rest, Mouse, false);
  }

  /** The command byte that a reset leaves, from the one it found. */
  function CommandByteAfterReset(found: Byte): (b: Byte) {
    NewCommandByte(NewCommandByte(found, 0, KEYBOARD_IRQ + MOUSE_IRQ + MOUSE_CLOCK_OFF), TRANSLATE_MODE, 0)
  }

  /** The completion target: the mark of a request on its caller's stack, none, or an object. */
  datatype Target = Stack | NoTarget | Object

  class Request {
    var body: RequestBody
    const target: Target
    const hasAction: bool

    constructor (commands: seq<Command>, target: Target, hasAction: bool)
      ensures body == Body(commands, |commands|) && this.target == target && this.hasAction == hasAction
    {
      body := Body(commands, |commands|);
      this.target, this.hasAction := target, hasAction;
    }
  }

  /** What the controller does to let go of a request: it calls the completion routine, or frees the request. */
  datatype Ending = Completed(request: Request) | Freed(request: Request)

  /** A request on a stack belongs to its caller; any other ends once, by its routine if it has one. */
  function EndingOf(r: Request): (es: seq<Ending>) {
    if r.target.Stack? then [] else [if r.target.Object? && r.hasAction then Completed(r) else Freed(r)]
  }

  /** Only an object with a routine is called; a request without either is freed; one on a stack is left alone. */
  lemma {:induction false} EndingCases(r: Request)
    ensures r.target.Object? && r.hasAction <==> EndingOf(r) == [Completed(r)]
    ensures r.target.NoTarget? || (r.target.Object? && !r.hasAction) <==> EndingOf(r) == [Freed(r)]
    ensures r.target.Stack? <==> EndingOf(r) == []
  {
  }

  /** What the requests of a log come to, in order. */
  function EndingsOf(log: seq<RequestQueue.Entry<Request>>): (es: seq<Ending>) {
    if log == [] then [] else EndingsOf(log[..|log| - 1]) + EndingOf(log[|log| - 1].request)
  }

  lemma {:induction false} EndingsOneMore(log: seq<RequestQueue.Entry<Request>>, entry: RequestQueue.Entry<Request>)
    ensures EndingsOf(log + [entry]) == EndingsOf(log) + EndingOf(entry.request)
  {
    assert (log + [entry])[..|log|] == log;
  }

  /** How often the request ended. */
  function TimesEnded(es: seq<Ending>, r: Request): (n: nat) {
    if es == [] then 0 else TimesEnded(es[..|es| - 1], r) + if es[|es| - 1].request == r then 1 else 0
  }

  /** How often it was processed. */
  function TimesProcessed(log: seq<RequestQueue.Entry<Request>>, r: Request): (n: nat) {
    if log == [] then 0
    else TimesProcessed(log[..|log| - 1], r) + if log[|log| - 1].request == r then 1 else 0
  }

  /** A request ends exactly as often as it is processed, unless it is on a stack, and then never. */
  lemma {:induction false} EndsOncePerRun(log: seq<RequestQueue.Entry<Request>>, r: Request)
    ensures TimesEnded(EndingsOf(log), r) == if r.target.Stack? then 0 else TimesProcessed(log, r)
  {
    if log != [] {
      EndsOncePerRun(log[..|log| - 1], r);
      EndedOneMore(EndingsOf(log[..|log| - 1]), log[|log| - 1].request, r);
    }
  }

  lemma {:induction false} EndedOneMore(es: seq<Ending>, last: Request, r: Request)
    ensures TimesEnded(es + EndingOf(last), r) == TimesEnded(es, r) + if last == r && !last.target.Stack? then 1 else 0
  {
    if last.target.Stack? {
      assert es + [] == es;
    } else {
      assert (es + EndingOf(last))[..|es|] == es;
    }
  }

  /** One request served: its body and the port before and after, and whether the hardware was offline. */
  datatype Service = Service(request: Request, offline: bool, body: RequestBody, before: Engine,
                             result: RequestBody, after: Engine)
  {
    /** The request did what `Serve` says. */
    ghost predicate Proper() {
      (result, after) == Serve(body, before, offline)
    }

    /** Without the hardware: count 0, and no port access. */
    ghost predicate Untouched() {
      result.commandsCount == 0 && after == before
    }
  }

  /** The i-th request processed was served properly; each was let go of as it should be, in order. */
  ghost predicate CoherentAt(i: nat, log: seq<RequestQueue.Entry<Request>>, served: seq<Service>,
                             endings: seq<Ending>) {
    && |served| == |log| && endings == EndingsOf(log)
    && (i < |log| ==> served[i].request == log[i].request && served[i].Proper())
  }

  ghost predicate Coherent(log: seq<RequestQueue.Entry<Request>>, served: seq<Service>, endings: seq<Ending>) {
    forall i: nat :: CoherentAt(i, log, served, endings)
  }

  lemma {:induction false} CoherentOneMore(log: seq<RequestQueue.Entry<Request>>, served: seq<Service>,
                                           endings: seq<Ending>, entry: RequestQueue.Entry<Request>, s: Service)
    requires Coherent(log, served, endings) && s.request == entry.request && s.Proper()
    ensures Coherent(log + [entry], served + [s], endings + EndingOf(entry.request))
  {
    EndingsOneMore(log, entry);
    forall i: nat ensures CoherentAt(i, log + [entry], served + [s], endings + EndingOf(entry.request)) {
      assert CoherentAt(i, log, served, endings);
    }
  }

  /** A request that was served offline ended at count 0, and left the port and its logs alone. */
  lemma {:induction false} CoherentMeans(log: seq<RequestQueue.Entry<Request>>, served: seq<Service>,
                                         endings: seq<Ending>)
    requires Coherent(log, served, endings)
    ensures |served| == |log| && endings == EndingsOf(log)
    ensures forall i :: 0 <= i < |served| ==> served[i].request == log[i].request && served[i].Proper()
    ensures forall i :: 0 <= i < |served| && served[i].offline ==> served[i].Untouched()
  {
    assert CoherentAt(0, log, served, endings);
    forall i | 0 <= i < |served|
      ensures served[i].request == log[i].request && served[i].Proper()
      ensures served[i].offline ==> served[i].Untouched()
    {
      assert CoherentAt(i, log, served, endings);
      OfflineServes(served[i].body, served[i].before, served[i].offline);
    }
  }

  /** At index `i`: what was there before is there now, and what is new was served offline or not as said. */
  ghost predicate GrewAt(i: nat, before: seq<Service>, now: seq<Service>, offline: bool) {
    && |before| <= |now|
    && (i < |before| ==> now[i] == before[i])
    && (|before| <= i < |now| ==> now[i].offline == offline)
  }

  /** From `before` to `now` requests were served, all of them offline or all of them online. */
  ghost predicate Grew(before: seq<Service>, now: seq<Service>, offline: bool) {
    forall i: nat :: GrewAt(i, before, now, offline)
  }

  lemma {:induction false} GrewNot(served: seq<Service>, offline: bool)
    ensures Grew(served, served, offline)
  {
  }

  lemma {:induction false} GrewByOne(before: seq<Service>, s: Service)
    ensures Grew(before, before + [s], s.offline)
  {
  }

  lemma {:induction false} GrewTransitive(a: seq<Service>, b: seq<Service>, c: seq<Service>, offline: bool)
    requires Grew(a, b, offline) && Grew(b, c, offline)
    ensures Grew(a, c, offline)
  {
    forall i: nat ensures GrewAt(i, a, c, offline) {
      assert GrewAt(i, a, b, offline) && GrewAt(i, b, c, offline);
    }
  }

  lemma {:induction false} GrewPrefix(before: seq<Service>, now: seq<Service>, offline: bool)
    requires Grew(before, now, offline)
    ensures before <= now && forall i :: |before| <= i < |now| ==> now[i].offline == offline
  {
    assert GrewAt(0, before, now, offline);
    forall i | 0 <= i < |now|
      ensures if i < |before| then now[i] == before[i] else now[i].offline == offline
    {
      assert GrewAt(i, before, now, offline);
    }
  }

  predicate Distinct(rs: seq<Request>) {
    forall i, j :: 0 <= i < j < |rs| ==> rs[i] != rs[j]
  }

  lemma {:induction false} InLonger(rs: seq<Request>, last: Request)
    ensures last in rs + [last] && forall r :: r in rs ==> r in rs + [last]
  {
    assert (rs + [last])[|rs|] == last;
  }

  lemma {:induction false} DistinctPrefix(rs: seq<Request>, last: Request)
    requires Distinct(rs + [last])
    ensures Distinct(rs) && last !in rs
  {
    var all := rs + [last];
    forall i, j | 0 <= i < j < |rs| ensures rs[i] != rs[j] {
      assert all[i] != all[j];
    }
    forall i | 0 <= i < |rs| ensures rs[i] != last {
      assert all[i] != all[|rs|];
    }
  }

  ghost function Bodies(rs: seq<Request>): (bs: seq<RequestBody>)
    reads rs
    ensures |bs| == |rs| && forall i :: 0 <= i < |rs| ==> bs[i] == rs[i].body
  {
    seq(|rs|, i requires 0 <= i < |rs| reads rs => rs[i].body)
  }

  lemma BodiesOneMore(rs: seq<Request>, last: Request)
    ensures Bodies(rs + [last]) == Bodies(rs) + [last.body]
  {
  }

  /** A blocking request, and what other threads and completion routines submit while it drains the queue. */
  datatype Call = Call(request: Request, landing: seq<seq<Request>>) {
    /** All requests of the call are in `pool`. */
    ghost predicate From(pool: set<Request>) {
      request in pool && AllIn(landing, pool)
    }
  }

  ghost predicate AllIn(landing: seq<seq<Request>>, pool: set<Request>) {
    forall i, j :: 0 <= i < |landing| && 0 <= j < |landing[i]| ==> landing[i][j] in pool
  }

  lemma {:induction false} LandedFrom(landing: seq<seq<Request>>, n: nat, pool: set<Request>)
    requires AllIn(landing, pool)
    ensures forall r :: r in RequestQueue.Landed(landing, n) ==> r in pool
  {
    if n > 0 && landing != [] {
      LandedFrom(landing[1..], n - 1, pool);
      forall r | r in landing[0] ensures r in pool {
        var j :| 0 <= j < |landing[0]| && landing[0][j] == r;
      }
    }
  }

  // ----- What a power change does to the hardware

  /** The command byte as last read from the controller or written to it, and the power callback of a driver. */
  datatype PowerStep = CommandByte(bits: Byte) | Callback(calls: seq<Call>)

  /** Going to sleep: interrupts are off before the drivers, mouse first, are told; then the clocks are stopped. */
  ghost predicate SleepSteps(steps: seq<PowerStep>, forMouse: seq<Call>, forKeyboard: seq<Call>) {
    && |steps| == 4
    && steps[0].CommandByte? && HasNone(steps[0].bits, KEYBOARD_IRQ + MOUSE_IRQ)
    && steps[1] == Callback(forMouse) && steps[2] == Callback(forKeyboard)
    && steps[3].CommandByte? && HasAll(steps[3].bits, KEYBOARD_CLOCK_OFF + MOUSE_CLOCK_OFF)
  }

  /** Waking up: after the reset the clocks run and interrupts are off before the drivers are told; at the end both
      interrupts are on, and the system flag is set. */
  ghost predicate WakeSteps(steps: seq<PowerStep>, first: seq<Call>, second: seq<Call>) {
    && |steps| == 5
    && steps[0].CommandByte? && HasAll(steps[0].bits, TRANSLATE_MODE)
    && HasNone(steps[0].bits, KEYBOARD_IRQ + MOUSE_IRQ + MOUSE_CLOCK_OFF)
    && steps[1].CommandByte?
    && HasNone(steps[1].bits, KEYBOARD_CLOCK_OFF + MOUSE_CLOCK_OFF + KEYBOARD_IRQ + MOUSE_IRQ)
    && steps[2] == Callback(first) && steps[3] == Callback(second)
    && steps[4].CommandByte? && HasAll(steps[4].bits, KEYBOARD_IRQ + MOUSE_IRQ + SYSTEM_FLAG)
  }

  /** The steps of a change to `ordinal`: none, unless it goes to sleep or wakes up to a declared state. */
  ghost predicate PowerSteps(steps: seq<PowerStep>, g: Power.Gate, ordinal: nat, mouseWakeFirst: bool,
                             forMouse: seq<Call>, forKeyboard: seq<Call>) {
    if g.current != ordinal && ordinal == Power.SLEEP then SleepSteps(steps, forMouse, forKeyboard)
    else if g.Asleep() && ordinal != Power.SLEEP && Power.Declared(ordinal) then
      if mouseWakeFirst then WakeSteps(steps, forMouse, forKeyboard) else WakeSteps(steps, forKeyboard, forMouse)
    else steps == []
  }

  /** The bits to set are there if nothing clears them, and the bits to clear are gone. */
  ghost predicate Changed(b: Byte, setBits: Byte, clearBits: Byte) {
    HasNone(b, clearBits) && (HasNone(setBits, clearBits) ==> HasAll(b, setBits))
  }

  lemma {:induction false} NoBit(i: nat)
    ensures !Bit(0, i)
    decreases i
  {
    if i > 0 {
      NoBit(i - 1);
    }
  }

  lemma {:induction false} NothingToClear(b: Byte)
    ensures HasNone(b, 0)
  {
    forall i | 0 <= i < 8 ensures !Bit(0, i) {
      NoBit(i);
    }
  }

  /** The steps of going to sleep, put together. */
  ghost function Sleeping(before: seq<PowerStep>, b1: Byte, forMouse: seq<Call>, forKeyboard: seq<Call>, b2: Byte):
      (done: seq<PowerStep>)
    requires Changed(b1, 0, KEYBOARD_IRQ + MOUSE_IRQ) && Changed(b2, KEYBOARD_CLOCK_OFF + MOUSE_CLOCK_OFF, 0)
    ensures SleepSteps(done, forMouse, forKeyboard)
    ensures before + [CommandByte(b1)] + [Callback(forMouse), Callback(forKeyboard)] + [CommandByte(b2)] ==
            before + done
  {
    NothingToClear(KEYBOARD_CLOCK_OFF + MOUSE_CLOCK_OFF);
    [CommandByte(b1), Callback(forMouse), Callback(forKeyboard), CommandByte(b2)]
  }

  ghost function Waking(before: seq<PowerStep>, b0: Byte, b1: Byte, first: seq<Call>, second: seq<Call>, b2: Byte):
      (done: seq<PowerStep>)
    requires HasAll(b0, TRANSLATE_MODE) && HasNone(b0, KEYBOARD_IRQ + MOUSE_IRQ + MOUSE_CLOCK_OFF)
    requires HasNone(b1, KEYBOARD_CLOCK_OFF + MOUSE_CLOCK_OFF + KEYBOARD_IRQ + MOUSE_IRQ)
    requires Changed(b2, KEYBOARD_IRQ + MOUSE_IRQ + SYSTEM_FLAG, 0)
    ensures WakeSteps(done, first, second)
    ensures before + [CommandByte(b0)] + [CommandByte(b1)] + [Callback(first), Callback(second)] + [CommandByte(b2)] ==
            before + done
  {
    NothingToClear(KEYBOARD_IRQ + MOUSE_IRQ + SYSTEM_FLAG);
    [CommandByte(b0), CommandByte(b1), Callback(first), Callback(second), CommandByte(b2)]
  }

  /** What a reset leaves of the command byte. */
  lemma {:induction false} ResetBits(found: Byte)
    ensures var b := CommandByteAfterReset(found);
            HasAll(b, TRANSLATE_MODE) && HasNone(b, KEYBOARD_IRQ + MOUSE_IRQ + MOUSE_CLOCK_OFF)
  {
    var off := KEYBOARD_IRQ + MOUSE_IRQ + MOUSE_CLOCK_OFF;
    var b := NewCommandByte(found, 0, off);
    NewCommandByteBits(found, 0, off);
    NewCommandByteBits(b, TRANSLATE_MODE, 0);
    NothingToClear(TRANSLATE_MODE);
    forall i | 0 <= i < 8 && Bit(off, i) ensures !Bit(CommandByteAfterReset(found), i) {
      NoBit(i);
      TranslateIsElsewhere(i);
    }
  }

  lemma {:induction false} TranslateIsElsewhere(i: nat)
    requires i < 8
    ensures !(Bit(KEYBOARD_IRQ + MOUSE_IRQ + MOUSE_CLOCK_OFF, i) && Bit(TRANSLATE_MODE, i))
  {
    assert !Bit(0x23, 6);
    assert !Bit(0x40, 0) && !Bit(0x40, 1) && !Bit(0x40, 2) && !Bit(0x40, 3);
    assert !Bit(0x40, 4) && !Bit(0x40, 5) && !Bit(0x40, 7);
  }

  class Controller {
    var port: seq<Poll>
    var suppressTimeout: bool
    var ignoreInterrupts: int
    var hardwareOffline: bool
    var currentPowerState: nat
    var queue: seq<Request>

    // Logs of what happened, for specification only.
    ghost var writes: seq<Write>
    ghost var consumed: seq<Arrival>
    ghost var dispatched: seq<Delivery>
    ghost var flushed: seq<Arrival>
    ghost var log: seq<RequestQueue.Entry<Request>>
    ghost var served: seq<Service>
    ghost var endings: seq<Ending>
    ghost var steps: seq<PowerStep>

    /** Every request that was processed was served properly, and let go of as it should be, exactly once. */
    ghost predicate Valid()
      reads this`log, this`served, this`endings
    {
      Coherent(log, served, endings)
    }

    constructor (port: seq<Poll>)
      ensures Valid() && this.port == port && !suppressTimeout && State() == RequestQueue.State([], [])
      ensures Gate() == Power.Gate(Power.NORMAL, 0, false) && Gate().Sound()
    {
      this.port := port;
      suppressTimeout, ignoreInterrupts, hardwareOffline := false, 0, false;
      currentPowerState := Power.NORMAL;
      queue := [];
      writes, consumed, dispatched, flushed := [], [], [], [];
      log, served, endings, steps := [], [], [], [];
    }

    ghost function Gate(): Power.Gate
      reads this`currentPowerState, this`ignoreInterrupts, this`hardwareOffline
    {
      Power.Gate(currentPowerState, ignoreInterrupts, hardwareOffline)
    }

    ghost function State(): RequestQueue.State<Request>
      reads this`queue, this`log
    {
      RequestQueue.State(queue, log)
    }

    /** The port and its logs, with the request processor's two locals. */
    ghost function EngineWith(mode: Stream, transmitToMouse: bool): Engine
      reads this`suppressTimeout, this`port, this`writes, this`consumed, this`dispatched, this`flushed
    {
      Engine(mode, transmitToMouse, suppressTimeout, port, writes, consumed, dispatched, flushed)
    }

    /** The same between requests. */
    ghost function PortState(): Engine
      reads this`suppressTimeout, this`port, this`writes, this`consumed, this`dispatched, this`flushed
    {
      EngineWith(Keyboard, false)
    }

    ghost function Books(): Books
      reads this`port, this`consumed, this`dispatched, this`flushed
    {
      Ledger.Books(port, consumed, dispatched, flushed)
    }

    // ----- Port access

    /** Reads the status register.  A ready byte stays where it is. */
    method PollStatus() returns (ready: bool)
      modifies this`port
      ensures ready == (old(port) != [] && old(port)[0].Ready?)
      ensures port == if ready || old(port) == [] then old(port) else old(port)[1..]
    {
      ready := port != [] && port[0].Ready?;
      if !ready && port != [] {
        port := port[1..];
      }
    }

    method WriteDataPort(b: Byte)
      modifies this`writes
      ensures writes == old(writes) + [ToDataPort(b)]
    {
      writes := writes + [ToDataPort(b)];
    }

    method WriteCommandPort(b: Byte)
      modifies this`writes
      ensures writes == old(writes) + [ToCommandPort(b)]
    {
      writes := writes + [ToCommandPort(b)];
    }

    /** Polls until a byte is ready or the counter is spent. */
    method AwaitOutput(counter: nat) returns (left: nat)
      modifies this`port
      ensures (left, port) == Await(counter, old(port))
    {
      left := counter;
      var ready := false;
      while left > 0 && !ready
        invariant ready ==> left > 0 && port != [] && port[0].Ready?
        invariant Await(counter, old(port)) == Await(left, port)
        decreases left, !ready
      {
        ready := PollStatus();
        if !ready {
          left := left - 1;
        }
      }
    }

    method ReadDataPort(dev: Stream) returns (b: Byte)
      modifies this`port, this`consumed, this`dispatched
      ensures var r := ReadPlain(dev, suppressTimeout, BUDGET, old(port));
              && b == r.data && port == r.rest
              && consumed == old(consumed) + r.taken && dispatched == old(dispatched) + r.dispatched
    {
      var timeoutCounter: nat := BUDGET;
      ghost var spec := ReadPlain(dev, suppressTimeout, BUDGET, port);
      while true
        invariant consumed == old(consumed)
        invariant spec.LeadsTo(old(dispatched), ReadPlain(dev, suppressTimeout, timeoutCounter, port), dispatched)
        decreases |port|
      {
        AwaitThenPlain(dev, suppressTimeout, timeoutCounter, port);
        timeoutCounter := AwaitOutput(timeoutCounter);
        if timeoutCounter == 0 {
          return 0;
        }
        var a := port[0].arrival;
        port := port[1..];
        if suppressTimeout || a.stream == dev {
          consumed := consumed + [a];
          return a.data;
        }
        var d := ToDriver(Other(dev), a.data);
        spec.Dispatch(old(dispatched), d, ReadPlain(dev, suppressTimeout, timeoutCounter, port), dispatched);
        dispatched := dispatched + [d];
      }
    }

    method ReadExpectedByte(dev: Stream, expected: Byte) returns (b: Byte)
      modifies this`port, this`consumed, this`dispatched
      ensures var r := ReadExpecting(dev, expected, None, BUDGET, old(port));
              && b == r.data && port == r.rest
              && consumed == old(consumed) + r.taken && dispatched == old(dispatched) + r.dispatched
    {
      var firstByte: Option<Byte> := None;
      var timeoutCounter: nat := BUDGET;
      ghost var spec := ReadExpecting(dev, expected, None, BUDGET, port);
      while true
        invariant consumed == old(consumed)
        invariant spec.LeadsTo(old(dispatched), ReadExpecting(dev, expected, firstByte, timeoutCounter, port),
                               dispatched)
        decreases |port|
      {
        AwaitThenExpecting(dev, expected, firstByte, timeoutCounter, port);
        timeoutCounter := AwaitOutput(timeoutCounter);
        if timeoutCounter == 0 {
          if firstByte.Some? {
            consumed := consumed + [Arrival(dev, firstByte.value)];
            return firstByte.value;
          }
          return 0;
        }
        var a := port[0].arrival;
        port := port[1..];
        if a.stream != dev {
          var d := ToDriver(Other(dev), a.data);
          spec.Dispatch(old(dispatched), d, ReadExpecting(dev, expected, firstByte, timeoutCounter, port), dispatched);
          dispatched := dispatched + [d];
        } else if a.data == expected {
          if firstByte.Some? {
            dispatched := dispatched + [ToDriver(dev, firstByte.value)];
          }
          consumed := consumed + [a];
          return a.data;
        } else if firstByte.None? {
          firstByte := Some(a.data);
        } else {
          dispatched := dispatched + [ToDriver(dev, a.data)];
          consumed := consumed + [Arrival(dev, firstByte.value)];
          return firstByte.value;
        }
      }
    }

    /** Reads and discards bytes for as long as the status register shows one. */
    method FlushPort() returns (n: nat)
      modifies this`port, this`flushed
      ensures n == ReadyPrefix(old(port)) && Books() == old(Books()).Flushed()
    {
      n := 0;
      ghost var goal := Books().Flushed();
      ReadyEnd(Books());
      var ready := PollStatus();
      while ready
        invariant ready ==> port != [] && port[0].Ready? && Books().Flushed() == goal
        invariant !ready ==> Books() == goal
        invariant n + (if ready then ReadyPrefix(port) else 0) == ReadyPrefix(old(port))
        decreases |port|, ready
      {
        ReadyStep(Books());
        flushed := flushed + [port[0].arrival];
        port := port[1..];
        n := n + 1;
        ReadyEnd(Books());
        ready := PollStatus();
      }
    }

    // ----- Interrupts

    /** Hands every ready byte to the driver that its status selects. */
    method HandleInterrupt()
      modifies this`port, this`dispatched
      ensures Books() == old(Books()).Interrupted()
    {
      ghost var goal := Books().Interrupted();
      ReadyEnd(Books());
      var ready := PollStatus();
      while ready
        invariant ready ==> port != [] && port[0].Ready? && Books().Interrupted() == goal
        invariant !ready ==> Books() == goal
        decreases |port|, ready
      {
        ReadyStep(Books());
        var a := port[0].arrival;
        port := port[1..];
        if a.stream == Mouse {
          dispatched := dispatched + [ToDriver(Mouse, a.data)];
        } else {
          dispatched := dispatched + [ToDriver(Keyboard, a.data)];
        }
        ReadyEnd(Books());
        ready := PollStatus();
      }
    }

    /** Both interrupt handlers: nothing is touched while interrupts are ignored. */
    method InterruptHandler()
      modifies this`port, this`dispatched
      ensures Books() == if ignoreInterrupts != 0 then old(Books()) else old(Books()).Interrupted()
    {
      if ignoreInterrupts != 0 {
        return;
      }
      HandleInterrupt();
    }

    // ----- Requests

    /** The commands that read without comparing. */
    method ExecuteRead(c: Command, deviceMode: Stream, ghost transmit: bool) returns (filled: Command, mode: Stream)
      requires c.ReadDataPort? || c.ReadMouseDataPort? || c.ModifyCommandByte?
      modifies this`port, this`writes, this`consumed, this`dispatched
      ensures Step(filled, EngineWith(mode, transmit), false) == Execute(c, old(EngineWith(deviceMode, transmit)))
    {
      mode := deviceMode;
      if c.ModifyCommandByte? {
        WriteCommandPort(GET_COMMAND_BYTE);
        var b := ReadDataPort(Keyboard);
        WriteCommandPort(SET_COMMAND_BYTE);
        WriteDataPort(NewCommandByte(b, c.setBits, c.clearBits));
        assert writes == old(writes) + [ToCommandPort(GET_COMMAND_BYTE), ToCommandPort(SET_COMMAND_BYTE),
                                        ToDataPort(NewCommandByte(b, c.setBits, c.clearBits))];
        filled := c.(oldBits := b);
      } else {
        if c.ReadMouseDataPort? {
          mode := Mouse;
        }
        var b := ReadDataPort(mode);
        filled := c.(inOrOut := b);
      }
    }

    /** The commands that read and compare. */
    method ExecuteCompare(c: Command, deviceMode: Stream, ghost transmit: bool)
      returns (filled: Command, mode: Stream, failed: bool)
      requires c.ReadDataPortAndCompare? || c.ReadMouseDataPortAndCompare? || c.SendMouseCommandAndCompareAck?
      modifies this`port, this`writes, this`consumed, this`dispatched
      ensures Step(filled, EngineWith(mode, transmit), failed) == Execute(c, old(EngineWith(deviceMode, transmit)))
    {
      mode, filled := deviceMode, c;
      if c.SendMouseCommandAndCompareAck? {
        WriteCommandPort(TRANSMIT_TO_MOUSE);
        WriteDataPort(c.inOrOut);
        assert writes == old(writes) + [ToCommandPort(TRANSMIT_TO_MOUSE), ToDataPort(c.inOrOut)];
        mode := Mouse;
        var b := ReadExpectedByte(Mouse, ACKNOWLEDGE);
        failed := b != ACKNOWLEDGE;
      } else if c.ReadMouseDataPortAndCompare? {
        mode := Mouse;
        var b := ReadExpectedByte(mode, c.inOrOut);
        failed := b != c.inOrOut;
      } else {
        var b := ReadExpectedByte(mode, c.inOrOut);
        failed := b != c.inOrOut;
        filled := c.(inOrOut := b);
      }
    }

    method ExecuteCommand(c: Command, deviceMode: Stream, transmit: bool)
      returns (filled: Command, mode: Stream, transmitToMouse: bool, failed: bool)
      modifies this`port, this`writes, this`consumed, this`dispatched, this`flushed
      ensures Step(filled, EngineWith(mode, transmitToMouse), failed) ==
              Execute(c, old(EngineWith(deviceMode, transmit)))
    {
      filled, mode, transmitToMouse, failed := c, deviceMode, transmit, false;
      match c {
        case WriteDataPort(b) =>
          WriteDataPort(b);
          if transmitToMouse {
            mode := Mouse;
            transmitToMouse := false;
          } else {
            mode := Keyboard;
          }
        case WriteCommandPort(b) =>
          WriteCommandPort(b);
          if b == TRANSMIT_TO_MOUSE {
            transmitToMouse := true;
          }
        case FlushDataPort(_) =>
          var n := FlushPort();
          filled := FlushDataPort(n);
        case SleepMS(_) =>
        case ReadDataPortAndCompare(_) =>
          filled, mode, failed := ExecuteCompare(c, mode, transmit);
        case ReadMouseDataPortAndCompare(_) =>
          filled, mode, failed := ExecuteCompare(c, mode, transmit);
        case SendMouseCommandAndCompareAck(_) =>
          filled, mode, failed := ExecuteCompare(c, mode, transmit);
        case _ =>
          filled, mode := ExecuteRead(c, mode, transmit);
      }
    }

    /** One turn of the command loop: `done` are the commands behind it, `todo` those from `index` on. */
    method RunCommand(request: Request, index: nat, deviceMode: Stream, transmit: bool,
                      ghost done: seq<Command>, ghost todo: seq<Command>, ghost rest: seq<Command>)
      returns (mode: Stream, transmitToMouse: bool, failed: bool)
      requires todo != [] && index == |done| && request.body.commands == done + todo + rest
      modifies this`port, this`writes, this`consumed, this`dispatched, this`flushed, request
      ensures request.body.commandsCount == old(request.body.commandsCount)
      ensures var r := Process(todo, old(EngineWith(deviceMode, transmit))).Behind(done);
              if failed then
                && r == Run(r.commands, index, EngineWith(mode, transmitToMouse), true)
                && request.body.commands == r.commands + rest
              else
                && |request.body.commands| > index
                && request.body.commands == request.body.commands[..index + 1] + todo[1..] + rest
                && r == Process(todo[1..], EngineWith(mode, transmitToMouse)).Behind(request.body.commands[..index + 1])
    {
      var c := request.body.commands[index];
      assert c == todo[0];
      BehindStep(done, todo, EngineWith(deviceMode, transmit));
      var filled;
      filled, mode, transmitToMouse, failed := ExecuteCommand(c, deviceMode, transmit);
      FillIn(done, todo, rest, filled);
      request.body := request.body.(commands := request.body.commands[index := filled]);
    }

    /** The command loop: `index` is the command that failed, or the number of commands. */
    method RunCommands(request: Request) returns (index: nat, failed: bool)
      modifies this`port, this`writes, this`consumed, this`dispatched, this`flushed, request
      ensures request.body.commandsCount == old(request.body.commandsCount)
      ensures var n := old(request.body.commandsCount);
              var r := Process(old(request.body.commands)[..n], old(EngineWith(Keyboard, false)));
              && index == r.count && failed == r.failed
              && request.body.commands == r.commands + old(request.body.commands)[n..]
              && EngineWith(r.engine.mode, r.engine.transmitToMouse) == r.engine
    {
      index, failed := 0, false;
      var deviceMode, transmitToMouse := Keyboard, false;
      ghost var n := request.body.commandsCount;
      ghost var spec := Process(request.body.commands[..n], EngineWith(Keyboard, false));
      ghost var done: seq<Command>, todo, rest := [], request.body.commands[..n], request.body.commands[n..];
      while index < request.body.commandsCount && !failed
        invariant request.body.commandsCount == n
        invariant index <= n && |done| == index && |todo| == n - index
        invariant !failed ==> request.body.commands == done + todo + rest
        invariant !failed ==> spec == Process(todo, EngineWith(deviceMode, transmitToMouse)).Behind(done)
        invariant failed ==> request.body.commands == spec.commands + rest && spec.failed && spec.count == index
        invariant failed ==> spec.engine == EngineWith(deviceMode, transmitToMouse)
        decreases n - index, !failed
      {
        deviceMode, transmitToMouse, failed :=
          RunCommand(request, index, deviceMode, transmitToMouse, done, todo, rest);
        if !failed {
          done, todo := request.body.commands[..index + 1], todo[1..];
          index := index + 1;
        }
      }
    }

    /** Runs the commands of a request.  Offline, it fails at command 0 without a port access; online, it does what
        `Process` says, with interrupts ignored meanwhile. */
    method ServeRequest(request: Request)
      modifies this`port, this`writes, this`consumed, this`dispatched, this`flushed, this`ignoreInterrupts, request
      ensures ignoreInterrupts == old(ignoreInterrupts)
      ensures (request.body, PortState()) == Serve(old(request.body), old(PortState()), hardwareOffline)
    {
      var index, failed := 0, true;
      if !hardwareOffline {
        ignoreInterrupts := ignoreInterrupts + 1;
        index, failed := RunCommands(request);
        ignoreInterrupts := ignoreInterrupts - 1;
      }
      if failed {
        request.body := request.body.(commandsCount := index);
      }
    }

    /** Calls the completion routine of a request, if it has one, or frees the request, unless it is on a stack. */
    method LetGo(request: Request)
      modifies this`endings
      ensures endings == old(endings) + EndingOf(request)
    {
      if request.target != Stack && request.target != NoTarget && request.hasAction {
        endings := endings + [Completed(request)];
      } else {
        if request.target != Stack {
          endings := endings + [Freed(request)];
        }
      }
    }

    /** Serves a request and lets go of it. */
    method ProcessRequest(request: Request, ghost entry: RequestQueue.Entry<Request>, ghost since: Books)
      requires Valid() && entry.request == request && Traced(since, Books())
      modifies this`port, this`writes, this`consumed, this`dispatched, this`flushed, this`ignoreInterrupts
      modifies this`log, this`served, this`endings, request
      ensures Valid() && log == old(log) + [entry] && endings == old(endings) + EndingOf(request)
      ensures ignoreInterrupts == old(ignoreInterrupts)
      ensures (request.body, PortState()) == Serve(old(request.body), old(PortState()), hardwareOffline)
      ensures served == old(served) +
        [Service(request, hardwareOffline, old(request.body), old(PortState()), request.body, PortState())]
      ensures Traced(since, Books())
    {
      ghost var body, before := request.body, PortState();
      ServeConserves(body, before, hardwareOffline);
      ServeRequest(request);
      TracedTransitive(since, before.Books(), Books());
      ghost var service := Service(request, hardwareOffline, body, before, request.body, PortState());
      CoherentOneMore(log, served, endings, entry, service);
      served := served + [service];
      log := log + [entry];
      LetGo(request);
    }

    // ----- The request queue

    method SubmitRequest(request: Request)
      modifies this`queue
      ensures State() == RequestQueue.Apply(old(State()), RequestQueue.Submit(request))
    {
      queue := queue + [request];
    }

    /** Of the requests `all`, which had `bodies` when the port was in state `start`, the first `i` have been served one
        after the other, and the others are as they were; this is said of a queue without repeats.  Of any queue:
        offline, the port is as it was and those served ended at count 0. */
    ghost predicate Drained(all: seq<Request>, bodies: seq<RequestBody>, i: nat, start: Engine)
      reads this`suppressTimeout, this`port, this`writes, this`consumed, this`dispatched, this`flushed
      reads this`hardwareOffline, all
    {
      forall aboutBodies: bool :: DrainedWith(aboutBodies, all, bodies, i, start)
    }

    ghost predicate DrainedWith(aboutBodies: bool, all: seq<Request>, bodies: seq<RequestBody>, i: nat, start: Engine)
      reads this`suppressTimeout, this`port, this`writes, this`consumed, this`dispatched, this`flushed
      reads this`hardwareOffline, all
    {
      ServedWith(aboutBodies, i, bodies, start, Bodies(all), PortState(), Distinct(all), hardwareOffline)
    }

    lemma DrainedIffServed(all: seq<Request>, bodies: seq<RequestBody>, i: nat, start: Engine)
      ensures Drained(all, bodies, i, start) <==>
              ServedUpTo(i, bodies, start, Bodies(all), PortState(), Distinct(all), hardwareOffline)
    {
      if Drained(all, bodies, i, start) {
        assert DrainedWith(true, all, bodies, i, start) && DrainedWith(false, all, bodies, i, start);
      }
      if ServedUpTo(i, bodies, start, Bodies(all), PortState(), Distinct(all), hardwareOffline) {
        assert ServedWith(true, i, bodies, start, Bodies(all), PortState(), Distinct(all), hardwareOffline);
        assert ServedWith(false, i, bodies, start, Bodies(all), PortState(), Distinct(all), hardwareOffline);
      }
    }

    method ProcessNext(request: Request, ghost all: seq<Request>, ghost bodies: seq<RequestBody>, ghost i: nat,
                       ghost start: Engine, ghost entry: RequestQueue.Entry<Request>, ghost since: Books)
      requires Valid() && Traced(since, Books()) && entry.request == request
      requires Drained(all, bodies, i, start) && i < |all| && all[i] == request
      modifies this`port, this`writes, this`consumed, this`dispatched, this`flushed, this`ignoreInterrupts
      modifies this`log, this`served, this`endings, request
      ensures Valid() && Traced(since, Books()) && log == old(log) + [entry]
      ensures ignoreInterrupts == old(ignoreInterrupts)
      ensures Drained(all, bodies, i + 1, start)
      ensures Grew(old(served), served, hardwareOffline)
    {
      ghost var body, before, were := request.body, PortState(), Bodies(all);
      DrainedIffServed(all, bodies, i, start);
      ProcessRequest(request, entry, since);
      GrewByOne(old(served), Service(request, hardwareOffline, body, before, request.body, PortState()));
      ServedOneMore(i, bodies, start, were, before, Bodies(all), PortState(), Distinct(all), hardwareOffline);
      DrainedIffServed(all, bodies, i + 1, start);
    }

    /** Takes over the whole queue and runs it.  `landing[i]` is what other threads and completion routines
        submit while the i-th request runs. */
    method ProcessRequestQueue(landing: seq<seq<Request>>, ghost since: Books)
      requires Valid() && Traced(since, Books())
      modifies this, queue
      ensures Valid() && Traced(since, Books())
      ensures State() == RequestQueue.Apply(old(State()), RequestQueue.Drain(landing))
      ensures Gate() == old(Gate()) && suppressTimeout == old(suppressTimeout) && steps == old(steps)
      ensures Drained(old(queue), old(Bodies(queue)), |old(queue)|, old(PortState()))
      ensures hardwareOffline ==>
        PortState() == old(PortState()) && forall r :: r in old(queue) ==> r.body.commandsCount == 0
      ensures Grew(old(served), served, hardwareOffline)
    {
      var local := queue;
      ghost var bodies, start, first := Bodies(queue), PortState(), State();
      RequestQueue.DrainingEnds(first, landing);
      DrainedNone(queue);
      queue := [];
      ProcessLocalQueue(local, landing, bodies, start, first, since);
      DrainedOffline(local, bodies, start);
    }

    /** One request of the local queue, and what is submitted meanwhile. */
    method ProcessQueued(request: Request, ghost all: seq<Request>, i: nat, landing: seq<seq<Request>>,
                         ghost bodies: seq<RequestBody>, ghost start: Engine,
                         ghost first: RequestQueue.State<Request>, ghost since: Books)
      requires Valid() && Traced(since, Books()) && all == first.queue && i < |all| && all[i] == request
      requires State() == RequestQueue.Draining(first, landing, i) && Drained(all, bodies, i, start)
      modifies this`port, this`writes, this`consumed, this`dispatched, this`flushed, this`ignoreInterrupts
      modifies this`log, this`served, this`endings, this`queue, request
      ensures Valid() && Traced(since, Books()) && ignoreInterrupts == old(ignoreInterrupts)
      ensures State() == RequestQueue.Draining(first, landing, i + 1) && Drained(all, bodies, i + 1, start)
      ensures Grew(old(served), served, hardwareOffline)
    {
      RequestQueue.DrainingNext(first, landing, i);
      ProcessNext(request, all, bodies, i, start, RequestQueue.Async(request), since);
      queue := queue + (if i < |landing| then landing[i] else []);
    }

    /** The loop over the local queue. */
    method ProcessLocalQueue(all: seq<Request>, landing: seq<seq<Request>>, ghost bodies: seq<RequestBody>,
                             ghost start: Engine, ghost first: RequestQueue.State<Request>, ghost since: Books)
      requires Valid() && Traced(since, Books()) && all == first.queue
      requires State() == RequestQueue.Draining(first, landing, 0) && Drained(all, bodies, 0, start)
      modifies this, all
      ensures Valid() && Traced(since, Books())
      ensures State() == RequestQueue.Draining(first, landing, |all|)
      ensures Gate() == old(Gate()) && suppressTimeout == old(suppressTimeout) && steps == old(steps)
      ensures Drained(all, bodies, |all|, start)
      ensures Grew(old(served), served, hardwareOffline)
    {
      var local := all;
      var i := 0;
      GrewNot(served, hardwareOffline);
      while local != []
        invariant Valid() && Traced(since, Books())
        invariant i <= |all| && local == all[i..]
        invariant State() == RequestQueue.Draining(first, landing, i)
        invariant Gate() == old(Gate()) && suppressTimeout == old(suppressTimeout) && steps == old(steps)
        invariant Drained(all, bodies, i, start)
        invariant Grew(old(served), served, hardwareOffline)
        decreases |local|
      {
        var request := local[0];
        Shorter(all, i);
        local := local[1..];
        ghost var before := served;
        ProcessQueued(request, all, i, landing, bodies, start, first, since);
        GrewTransitive(old(served), before, served, hardwareOffline);
        i := i + 1;
      }
    }

    /** Drains the queue and then runs the caller's request. */
    method SubmitRequestAndBlock(request: Request, landing: seq<seq<Request>>, ghost since: Books)
      requires Valid() && Traced(since, Books())
      modifies this, queue, request
      ensures Valid() && Traced(since, Books())
      ensures State() == RequestQueue.Apply(old(State()), RequestQueue.Block(request, landing))
      ensures Gate() == old(Gate()) && suppressTimeout == old(suppressTimeout) && steps == old(steps)
      ensures var all := old(queue) + [request];
              Drained(all, old(Bodies(queue + [request])), |all|, old(PortState()))
      ensures hardwareOffline ==>
        && PortState() == old(PortState()) && request.body.commandsCount == 0
        && forall r :: r in old(queue) ==> r.body.commandsCount == 0
      ensures Grew(old(served), served, hardwareOffline)
    {
      ghost var all, bodies, own := queue, Bodies(queue), request.body;
      BodiesOneMore(queue, request);
      ProcessRequestQueue(landing, since);
      ghost var before := served;
      DrainedPrefix(all, bodies, request, own, old(PortState()));
      assert (all + [request])[|all|] == request;
      ProcessNext(request, all + [request], bodies + [own], |all|, old(PortState()), RequestQueue.Blocking(request),
                  since);
      assert State() == RequestQueue.Apply(old(State()), RequestQueue.Block(request, landing));
      GrewTransitive(old(served), before, served, hardwareOffline);
      DrainedOfflineLast(all, request, bodies + [own], old(PortState()));
    }

    lemma DrainedNone(all: seq<Request>)
      ensures Drained(all, Bodies(all), 0, PortState())
    {
      ServedNone(Bodies(all), PortState(), Distinct(all), hardwareOffline);
      DrainedIffServed(all, Bodies(all), 0, PortState());
    }

    lemma DrainedOffline(all: seq<Request>, bodies: seq<RequestBody>, start: Engine)
      requires Drained(all, bodies, |all|, start)
      ensures hardwareOffline ==> PortState() == start && forall r :: r in all ==> r.body.commandsCount == 0
    {
      DrainedIffServed(all, bodies, |all|, start);
      ServedMeans(|all|, bodies, start, Bodies(all), PortState(), Distinct(all), hardwareOffline);
    }

    lemma DrainedOfflineLast(all: seq<Request>, last: Request, bodies: seq<RequestBody>, start: Engine)
      requires Drained(all + [last], bodies, |all + [last]|, start)
      ensures hardwareOffline ==>
        && PortState() == start && last.body.commandsCount == 0
        && forall r :: r in all ==> r.body.commandsCount == 0
    {
      DrainedOffline(all + [last], bodies, start);
      InLonger(all, last);
    }

    /** A drained queue is the first part of a queue with one more request, not yet served. */
    lemma DrainedPrefix(all: seq<Request>, bodies: seq<RequestBody>, last: Request, own: RequestBody, start: Engine)
      requires Drained(all, bodies, |all|, start) && (last in all || last.body == own)
      ensures Drained(all + [last], bodies + [own], |all|, start)
    {
      DrainedIffServed(all, bodies, |all|, start);
      ServedMeans(|all|, bodies, start, Bodies(all), PortState(), Distinct(all), hardwareOffline);
      BodiesOneMore(all, last);
      if Distinct(all + [last]) {
        DistinctPrefix(all, last);
      }
      ServedPrefix(bodies, start, Bodies(all), PortState(), Distinct(all), Distinct(all + [last]), own, last.body,
                   hardwareOffline);
      DrainedIffServed(all + [last], bodies + [own], |all|, start);
    }

    // ----- The command byte and power states

    method SetCommandByte(setBits: Byte, clearBits: Byte) returns (oldBits: Byte)
      modifies this`port, this`writes, this`consumed, this`dispatched, this`ignoreInterrupts, this`steps
      ensures ignoreInterrupts == old(ignoreInterrupts)
      ensures steps == old(steps) + [CommandByte(NewCommandByte(oldBits, setBits, clearBits))]
      ensures var r := old(PortState()).Plain(Keyboard);
              var newBits := NewCommandByte(oldBits, setBits, clearBits);
              && oldBits == r.data && Books() == old(Books()).After(r)
              && writes == old(writes) + [ToCommandPort(GET_COMMAND_BYTE)] +
                           if newBits == oldBits then [] else [ToCommandPort(SET_COMMAND_BYTE), ToDataPort(newBits)]
    {
      ignoreInterrupts := ignoreInterrupts + 1;
      WriteCommandPort(GET_COMMAND_BYTE);
      oldBits := ReadDataPort(Keyboard);
      ignoreInterrupts := ignoreInterrupts - 1;
      var newBits := NewCommandByte(oldBits, setBits, clearBits);
      if oldBits != newBits {
        WriteCommandPort(SET_COMMAND_BYTE);
        WriteDataPort(newBits);
      }
      steps := steps + [CommandByte(newBits)];
    }

    /** The same where only the bits changed and the bytes of the port matter. */
    method ChangeBits(setBits: Byte, clearBits: Byte, ghost since: Books) returns (ghost b: Byte)
      requires Traced(since, Books())
      modifies this`port, this`writes, this`consumed, this`dispatched, this`ignoreInterrupts, this`steps
      ensures ignoreInterrupts == old(ignoreInterrupts) && Traced(since, Books())
      ensures steps == old(steps) + [CommandByte(b)] && Changed(b, setBits, clearBits)
    {
      ghost var before := Books();
      var oldBits := SetCommandByte(setBits, clearBits);
      ReadSince(since, before, Keyboard, suppressTimeout);
      b := NewCommandByte(oldBits, setBits, clearBits);
      NewCommandByteBits(oldBits, setBits, clearBits);
    }

    /** A read whose result does not matter. */
    method Discard(dev: Stream, ghost since: Books)
      requires Traced(since, Books())
      modifies this`port, this`consumed, this`dispatched
      ensures Books() == old(Books()).Read(dev, suppressTimeout) && Traced(since, Books())
    {
      ghost var before := Books();
      var _ := ReadDataPort(dev);
      ReadSince(since, before, dev, suppressTimeout);
    }

    /** Switches both clocks off, flushes, and switches them on again. */
    method RestartClocks(ghost since: Books)
      requires Traced(since, Books())
      modifies this`port, this`writes, this`flushed
      ensures writes == old(writes) + CLOCK_WRITES
      ensures Books() == old(Books()).Flushed() && Traced(since, Books())
    {
      ghost var before := Books();
      WriteCommandPort(0xAD);
      WriteCommandPort(0xA7);
      var _ := FlushPort();
      FlushTraced(before);
      TracedTransitive(since, before, before.Flushed());
      WriteCommandPort(0xA8);
      WriteCommandPort(0xAE);
    }

    /** First half of a reset: clocks off and on, the command byte, and three self tests. */
    method SelfTest(ghost since: Books) returns (commandByte: Byte)
      requires Traced(since, Books())
      modifies this`port, this`writes, this`consumed, this`dispatched, this`flushed
      ensures writes == old(writes) + CLOCK_WRITES + [ToCommandPort(GET_COMMAND_BYTE)] + TEST_WRITES
      ensures commandByte == ReadPlain(Keyboard, suppressTimeout, BUDGET, AfterFlush(old(port))).data
      ensures Books() == SelfTestBooks(old(Books()), suppressTimeout) && Traced(since, Books())
    {
      RestartClocks(since);
      WriteCommandPort(GET_COMMAND_BYTE);
      commandByte := ReadCommandByte(since);
      TestPorts(since);
    }

    /** The three self tests. */
    method TestPorts(ghost since: Books)
      requires Traced(since, Books())
      modifies this`port, this`writes, this`consumed, this`dispatched
      ensures writes == old(writes) + TEST_WRITES
      ensures Books() == TestBooks(old(Books()), suppressTimeout) && Traced(since, Books())
    {
      WriteCommandPort(0xAA);
      Discard(Keyboard, since);
      Discard(Mouse, since);
      WriteCommandPort(0xAB);
      Discard(Keyboard, since);
      WriteCommandPort(0xA9);
      Discard(Mouse, since);
    }

    method ReadCommandByte(ghost since: Books) returns (b: Byte)
      requires Traced(since, Books())
      modifies this`port, this`consumed, this`dispatched
      ensures b == ReadPlain(Keyboard, suppressTimeout, BUDGET, old(port)).data
      ensures Books() == old(Books()).Read(Keyboard, suppressTimeout) && Traced(since, Books())
    {
      ghost var before := Books();
      b := ReadDataPort(Keyboard);
      ReadSince(since, before, Keyboard, suppressTimeout);
    }

    /** Second half: the new command byte, and "defaults and disable" to both devices. */
    method Reinitialise(commandByte: Byte, ghost since: Books)
      requires Traced(since, Books())
      modifies this`port, this`writes, this`consumed, this`dispatched, this`flushed
      ensures writes == old(writes) + ReinitialiseWrites(commandByte)
      ensures Books() == old(Books()).Read(Keyboard, suppressTimeout).Read(Mouse, suppressTimeout).Flushed()
      ensures Traced(since, Books())
    {
      WriteCommandPort(SET_COMMAND_BYTE);
      WriteDataPort(commandByte);
      WriteDataPort(0xF5);
      Discard(Keyboard, since);
      WriteCommandPort(TRANSMIT_TO_MOUSE);
      WriteDataPort(0xF5);
      Discard(Mouse, since);
      ghost var before := Books();
      var _ := FlushPort();
      FlushTraced(before);
      TracedTransitive(since, before, before.Flushed());
    }

    /** Resets the 8042; the self tests take bytes of either stream. */
    method ResetController(ghost since: Books) returns (commandByte: Byte)
      requires Traced(since, Books())
      modifies this`port, this`writes, this`consumed, this`dispatched, this`flushed, this`suppressTimeout, this`steps
      ensures !suppressTimeout && steps == old(steps) + [CommandByte(commandByte)]
      ensures writes == old(writes) + CLOCK_WRITES + [ToCommandPort(GET_COMMAND_BYTE)] + TEST_WRITES +
                        ReinitialiseWrites(commandByte)
      ensures commandByte == CommandByteAfterReset(ReadPlain(Keyboard, true, BUDGET, AfterFlush(old(port))).data)
      ensures Books() == ResetBooks(old(Books())) && Traced(since, Books())
    {
      suppressTimeout := true;
      commandByte := SelfTest(since);
      suppressTimeout := false;
      commandByte := NewCommandByte(commandByte, 0, KEYBOARD_IRQ + MOUSE_IRQ + MOUSE_CLOCK_OFF);
      commandByte := NewCommandByte(commandByte, TRANSLATE_MODE, 0);
      Reinitialise(commandByte, since);
      steps := steps + [CommandByte(commandByte)];
    }

    /** A driver's power callback: it may issue blocking requests. */
    method DispatchPowerControl(calls: seq<Call>, ghost pool: set<Request>, ghost since: Books)
      requires Valid() && Traced(since, Books()) && forall i :: 0 <= i < |calls| ==> calls[i].From(pool)
      modifies this, queue, pool
      ensures Valid() && State() == RequestQueue.ApplyAll(old(State()), Blocks(calls))
      ensures Gate() == old(Gate()) && suppressTimeout == old(suppressTimeout)
      ensures forall r :: r in queue ==> r in old(queue) || r in pool
      ensures hardwareOffline ==> PortState() == old(PortState())
      ensures Grew(old(served), served, hardwareOffline)
      ensures steps == old(steps) + [Callback(calls)]
      ensures Traced(since, Books())
    {
      steps := steps + [Callback(calls)];
      var i := 0;
      GrewNot(served, hardwareOffline);
      assert Blocks(calls)[0..] == Blocks(calls);
      while i < |calls|
        invariant 0 <= i <= |calls| && Valid()
        invariant RequestQueue.ApplyAll(State(), Blocks(calls)[i..]) ==
                  RequestQueue.ApplyAll(old(State()), Blocks(calls))
        invariant Gate() == old(Gate()) && suppressTimeout == old(suppressTimeout)
        invariant forall r :: r in queue ==> r in old(queue) || r in pool
        invariant hardwareOffline ==> PortState() == old(PortState())
        invariant steps == old(steps) + [Callback(calls)]
        invariant Grew(old(served), served, hardwareOffline)
        invariant Traced(since, Books())
      {
        LandedFrom(calls[i].landing, |queue|, pool);
        ghost var before := served;
        SubmitRequestAndBlock(calls[i].request, calls[i].landing, since);
        GrewTransitive(old(served), before, served, hardwareOffline);
        assert Blocks(calls)[i..][1..] == Blocks(calls)[i + 1..];
        i := i + 1;
      }
    }

    /** Both drivers' callbacks. */
    method DispatchBoth(first: seq<Call>, second: seq<Call>, ghost pool: set<Request>, ghost since: Books)
      requires Valid() && Traced(since, Books()) && forall i :: 0 <= i < |first| ==> first[i].From(pool)
      requires forall i :: 0 <= i < |second| ==> second[i].From(pool)
      modifies this, queue, pool
      ensures Valid() && State() == RequestQueue.ApplyAll(old(State()), Blocks(first + second))
      ensures Gate() == old(Gate()) && suppressTimeout == old(suppressTimeout)
      ensures forall r :: r in queue ==> r in old(queue) || r in pool
      ensures Grew(old(served), served, hardwareOffline)
      ensures steps == old(steps) + [Callback(first), Callback(second)]
      ensures Traced(since, Books())
    {
      assert Blocks(first + second) == Blocks(first) + Blocks(second);
      RequestQueue.ApplyAllConcat(State(), Blocks(first), Blocks(second));
      DispatchPowerControl(first, pool, since);
      ghost var before := served;
      DispatchPowerControl(second, pool, since);
      GrewTransitive(old(served), before, served, hardwareOffline);
    }

    method GoToSleep(forMouse: seq<Call>, forKeyboard: seq<Call>, ghost pool: set<Request>, ghost since: Books)
      returns (ghost done: seq<PowerStep>)
      requires Valid() && Traced(since, Books()) && forall i :: 0 <= i < |forMouse| ==> forMouse[i].From(pool)
      requires forall i :: 0 <= i < |forKeyboard| ==> forKeyboard[i].From(pool)
      modifies this, queue, pool
      ensures Valid() && State() == RequestQueue.ApplyAll(old(State()), Blocks(forMouse + forKeyboard))
      ensures Gate() == Power.Gate(old(currentPowerState), old(ignoreInterrupts) + 1, true)
      ensures forall r :: r in queue ==> r in old(queue) || r in pool
      ensures Grew(old(served), served, old(hardwareOffline))
      ensures steps == old(steps) + done && SleepSteps(done, forMouse, forKeyboard)
      ensures Traced(since, Books())
    {
      ignoreInterrupts := ignoreInterrupts + 1;
      ghost var b1 := ChangeBits(0, KEYBOARD_IRQ + MOUSE_IRQ, since);
      DispatchBoth(forMouse, forKeyboard, pool, since);
      hardwareOffline := true;
      ghost var b2 := ChangeBits(KEYBOARD_CLOCK_OFF + MOUSE_CLOCK_OFF, 0, since);
      assert Valid();
      done := Sleeping(old(steps), b1, forMouse, forKeyboard, b2);
    }

    /** Resets the controller, and enables the clocks alone. */
    method PrepareToWake(ghost since: Books) returns (ghost b0: Byte, ghost b1: Byte)
      requires Traced(since, Books())
      modifies this`port, this`writes, this`consumed, this`dispatched, this`flushed, this`suppressTimeout
      modifies this`ignoreInterrupts, this`steps
      ensures ignoreInterrupts == old(ignoreInterrupts) && Traced(since, Books())
      ensures steps == old(steps) + [CommandByte(b0)] + [CommandByte(b1)]
      ensures HasAll(b0, TRANSLATE_MODE) && HasNone(b0, KEYBOARD_IRQ + MOUSE_IRQ + MOUSE_CLOCK_OFF)
      ensures HasNone(b1, KEYBOARD_CLOCK_OFF + MOUSE_CLOCK_OFF + KEYBOARD_IRQ + MOUSE_IRQ)
    {
      ResetBits(ReadPlain(Keyboard, true, BUDGET, AfterFlush(port)).data);
      var commandByte := ResetController(since);
      b0 := commandByte;
      b1 := ChangeBits(0, KEYBOARD_CLOCK_OFF + MOUSE_CLOCK_OFF + KEYBOARD_IRQ + MOUSE_IRQ, since);
    }

    method WakeUp(first: seq<Call>, second: seq<Call>, ghost pool: set<Request>, ghost since: Books)
      returns (ghost done: seq<PowerStep>)
      requires Valid() && Traced(since, Books()) && forall i :: 0 <= i < |first| ==> first[i].From(pool)
      requires forall i :: 0 <= i < |second| ==> second[i].From(pool)
      modifies this, queue, pool
      ensures Valid() && State() == RequestQueue.ApplyAll(old(State()), Blocks(first + second))
      ensures Gate() == Power.Gate(old(currentPowerState), old(ignoreInterrupts) - 1, false)
      ensures forall r :: r in queue ==> r in old(queue) || r in pool
      ensures Grew(old(served), served, false)
      ensures steps == old(steps) + done && WakeSteps(done, first, second)
      ensures Traced(since, Books())
    {
      ghost var b0, b1 := PrepareToWake(since);
      hardwareOffline := false;
      assert State() == old(State());
      DispatchBoth(first, second, pool, since);
      ghost var b2 := ChangeBits(KEYBOARD_IRQ + MOUSE_IRQ + SYSTEM_FLAG, 0, since);
      ignoreInterrupts := ignoreInterrupts - 1;
      done := Waking(old(steps), b0, b1, first, second, b2);
    }

    /** Changes the power state.  `forMouse` and `forKeyboard` are the calls the drivers make from their callbacks, and
        `pool` holds every request that takes part. */
    method SetPowerState(ordinal: nat, mouseWakeFirst: bool, forMouse: seq<Call>, forKeyboard: seq<Call>,
                         ghost pool: set<Request>, ghost since: Books)
      returns (ghost done: seq<PowerStep>)
      requires Valid() && Traced(since, Books()) && forall i :: 0 <= i < |forMouse| ==> forMouse[i].From(pool)
      requires forall i :: 0 <= i < |forKeyboard| ==> forKeyboard[i].From(pool)
      modifies this, queue, pool
      ensures Valid() && Gate() == Power.SetPower(old(Gate()), ordinal)
      ensures State() == RequestQueue.ApplyAll(old(State()),
                           Blocks(Callbacks(old(Gate()), ordinal, mouseWakeFirst, forMouse, forKeyboard)))
      ensures forall r :: r in queue ==> r in old(queue) || r in pool
      ensures Grew(old(served), served, OfflineForCallbacks(old(Gate()), ordinal))
      ensures steps == old(steps) + done
      ensures PowerSteps(done, old(Gate()), ordinal, mouseWakeFirst, forMouse, forKeyboard)
      ensures Traced(since, Books())
    {
      done := [];
      GrewNot(served, OfflineForCallbacks(Gate(), ordinal));
      if currentPowerState != ordinal {
        if ordinal == Power.SLEEP {
          done := GoToSleep(forMouse, forKeyboard, pool, since);
        } else if ordinal == Power.DOZE || ordinal == Power.NORMAL {
          if currentPowerState == Power.SLEEP {
            if mouseWakeFirst {
              done := WakeUp(forMouse, forKeyboard, pool, since);
            } else {
              done := WakeUp(forKeyboard, forMouse, pool, since);
            }
          }
        }
        currentPowerState := ordinal;
      }
    }

    // ----- Whole runs

    /** One operation that anything outside may ask for. */
    method Perform(op: Op, ghost pool: set<Request>, ghost since: Books)
      requires Valid() && Traced(since, Books()) && op.From(pool)
      modifies this, queue, pool
      ensures Valid() && Gate() == op.GateAfter(old(Gate()))
      ensures State() == RequestQueue.ApplyAll(old(State()), op.QueueOps(old(Gate())))
      ensures forall r :: r in queue ==> r in old(queue) || r in pool
      ensures Grew(old(served), served, op.OfflineDuring(old(Gate())))
      ensures Traced(since, Books())
    {
      GrewNot(served, op.OfflineDuring(Gate()));
      match op {
        case SetPower(ordinal, mouseFirst, forMouse, forKeyboard) =>
          ghost var _ := SetPowerState(ordinal, mouseFirst, forMouse, forKeyboard, pool, since);
        case Submit(request) =>
          RequestQueue.ApplyAllOne(State(), RequestQueue.Submit(request));
          SubmitRequest(request);
        case Drain(landing) =>
          RequestQueue.ApplyAllOne(State(), RequestQueue.Drain(landing));
          LandedFrom(landing, |queue|, pool);
          ProcessRequestQueue(landing, since);
        case Block(call) =>
          RequestQueue.ApplyAllOne(State(), RequestQueue.Block(call.request, call.landing));
          LandedFrom(call.landing, |queue|, pool);
          SubmitRequestAndBlock(call.request, call.landing, since);
        case ChangeCommandByte(setBits, clearBits) =>
          ghost var _ := ChangeBits(setBits, clearBits, since);
        case Interrupt =>
          ghost var before := Books();
          InterruptHandler();
          InterruptTraced(before);
          TracedTransitive(since, before, before.Interrupted());
      }
    }

    /** The loop over the operations of a run. */
    method PerformEach(ops: seq<Op>, ghost pool: set<Request>, ghost since: Books)
      requires Valid() && Traced(since, Books()) && forall i :: 0 <= i < |ops| ==> ops[i].From(pool)
      modifies this, queue, pool
      ensures Valid() && Traced(since, Books())
      ensures Gate() == Power.SetAll(old(Gate()), OrdinalsOf(ops))
      ensures State() == RequestQueue.ApplyAll(old(State()), QueueOps(old(Gate()), ops))
      ensures old(served) <= served && FlagsOf(served[|old(served)|..]) == Flags(old(Gate()), old(State()), ops)
    {
      ghost var start := Point(Gate(), State(), served);
      var i := 0;
      RunStarts(start, ops);
      while i < |ops|
        invariant 0 <= i <= |ops| && Valid() && Traced(since, Books())
        invariant OnTheWay(start, Point(Gate(), State(), served), ops, ops[i..])
        invariant forall r :: r in queue ==> r in old(queue) || r in pool
      {
        ghost var before := Point(Gate(), State(), served);
        CoherentMeans(log, served, endings);
        Perform(ops[i], pool, since);
        CoherentMeans(log, served, endings);
        RunGoesOn(start, before, Point(Gate(), State(), served), ops, i);
        i := i + 1;
      }
      RunEnds(start, Point(Gate(), State(), served), ops);
    }

    /** Any run of power changes, submissions, drains, blocking requests, command-byte changes and interrupts.  The gate
        goes through the power changes as if nothing else had happened.  Every request processed was served as `Serve`
        says, offline exactly where the run says so and then at count 0 without a port access; it was let go of once;
        and asynchronous ones were taken in order.  Every byte of the port is traced. */
    method PerformAll(ops: seq<Op>, ghost pool: set<Request>)
      requires Valid() && forall i :: 0 <= i < |ops| ==> ops[i].From(pool)
      modifies this, queue, pool
      ensures Valid() && Gate() == Power.SetAll(old(Gate()), OrdinalsOf(ops))
      ensures old(Gate()).Sound() ==>
        (Gate().Sound() <==> Power.WakesDeclared(old(currentPowerState), OrdinalsOf(ops)))
      ensures State() == RequestQueue.ApplyAll(old(State()), QueueOps(old(Gate()), ops))
      ensures RequestQueue.AsyncOf(log) + queue == RequestQueue.AsyncOf(old(log)) + old(queue) +
              RequestQueue.AllSubmitted(old(State()), QueueOps(old(Gate()), ops))
      ensures |served| == |log| && endings == EndingsOf(log)
      ensures forall i :: 0 <= i < |served| ==> served[i].request == log[i].request && served[i].Proper()
      ensures old(served) <= served && FlagsOf(served[|old(served)|..]) == Flags(old(Gate()), old(State()), ops)
      ensures forall i :: 0 <= i < |served| && served[i].offline ==> served[i].Untouched()
      ensures Traced(old(Books()), Books())
    {
      ghost var g, s := Gate(), State();
      NothingTraced(Books());
      PerformEach(ops, pool, Books());
      RequestQueue.ProcessedOnceInOrder(s, QueueOps(g, ops));
      CoherentMeans(log, served, endings);
      if g.Sound() {
        Power.GateSoundIff(g, OrdinalsOf(ops));
      }
    }
  }

  /** The operations of a run. */
  datatype Op =
    | SetPower(ordinal: nat, mouseWakeFirst: bool, forMouse: seq<Call>, forKeyboard: seq<Call>)
    | Submit(request: Request)
    | Drain(landing: seq<seq<Request>>)
    | Block(call: Call)
    | ChangeCommandByte(setBits: Byte, clearBits: Byte)
    | Interrupt
  {
    /** All requests of the operation are in `pool`. */
    ghost predicate From(pool: set<Request>) {
      match this
      case SetPower(_, _, forMouse, forKeyboard) =>
        && (forall i :: 0 <= i < |forMouse| ==> forMouse[i].From(pool))
        && (forall i :: 0 <= i < |forKeyboard| ==> forKeyboard[i].From(pool))
      case Submit(request) => request in pool
      case Drain(landing) => AllIn(landing, pool)
      case Block(call) => call.From(pool)
      case _ => true
    }

    /** Are the requests that the operation processes served offline? */
    function OfflineDuring(g: Power.Gate): bool {
      if SetPower? then OfflineForCallbacks(g, ordinal) else g.offline
    }

    function GateAfter(g: Power.Gate): Power.Gate {
      if SetPower? then Power.SetPower(g, ordinal) else g
    }

    /** What the operation does to the queue. */
    function QueueOps(g: Power.Gate): seq<RequestQueue.Op<Request>> {
      match this
      case SetPower(ordinal, mouseFirst, forMouse, forKeyboard) =>
        Blocks(Callbacks(g, ordinal, mouseFirst, forMouse, forKeyboard))
      case Submit(request) => [RequestQueue.Submit(request)]
      case Drain(landing) => [RequestQueue.Drain(landing)]
      case Block(call) => [RequestQueue.Block(call.request, call.landing)]
      case _ => []
    }
  }

  function Blocks(calls: seq<Call>): (r: seq<RequestQueue.Op<Request>>)
    ensures |r| == |calls|
    ensures forall i :: 0 <= i < |calls| ==> r[i] == RequestQueue.Block(calls[i].request, calls[i].landing)
  {
    seq(|calls|, i requires 0 <= i < |calls| => RequestQueue.Block(calls[i].request, calls[i].landing))
  }

  /** The calls that a power change lets the drivers make: mouse first when going to sleep, keyboard first when waking
      up unless configured otherwise, and none when nothing changes. */
  function Callbacks(g: Power.Gate, ordinal: nat, mouseWakeFirst: bool, forMouse: seq<Call>, forKeyboard: seq<Call>):
      (r: seq<Call>)
  {
    if g.current == ordinal then []
    else if ordinal == Power.SLEEP then forMouse + forKeyboard
    else if !Power.Declared(ordinal) || !g.Asleep() then []
    else if mouseWakeFirst then forMouse + forKeyboard else forKeyboard + forMouse
  }

  /** The callbacks of a wake-up find the hardware online again; those before going to sleep find it as it was. */
  function OfflineForCallbacks(g: Power.Gate, ordinal: nat): bool {
    g.offline && !(g.Asleep() && ordinal != Power.SLEEP && Power.Declared(ordinal))
  }

  /** For every request that the run processes, in order: is it served offline? */
  function Flags(g: Power.Gate, s: RequestQueue.State<Request>, ops: seq<Op>): (r: seq<bool>)
    decreases |ops|
  {
    if ops == [] then []
    else
      var s' := RequestQueue.ApplyAll(s, ops[0].QueueOps(g));
      seq(|s'.log| - |s.log|, _ => ops[0].OfflineDuring(g)) + Flags(ops[0].GateAfter(g), s', ops[1..])
  }

  function FlagsOf(services: seq<Service>): (r: seq<bool>)
    ensures |r| == |services| && forall i :: 0 <= i < |services| ==> r[i] == services[i].offline
  {
    seq(|services|, i requires 0 <= i < |services| => services[i].offline)
  }

  /** The services of one operation are flagged as that operation says. */
  lemma {:induction false} FlagsStep(first: seq<Service>, before: seq<Service>, now: seq<Service>,
                                     g: Power.Gate, s: RequestQueue.State<Request>, ops: seq<Op>)
    requires ops != [] && first <= before && Grew(before, now, ops[0].OfflineDuring(g))
    requires var s' := RequestQueue.ApplyAll(s, ops[0].QueueOps(g)); |now| - |before| == |s'.log| - |s.log|
    ensures first <= now
    ensures var s' := RequestQueue.ApplyAll(s, ops[0].QueueOps(g));
            FlagsOf(before[|first|..]) + Flags(g, s, ops) ==
            FlagsOf(now[|first|..]) + Flags(ops[0].GateAfter(g), s', ops[1..])
  {
    var s' := RequestQueue.ApplyAll(s, ops[0].QueueOps(g));
    FlagsGrow(first, before, now, ops[0].OfflineDuring(g));
    var mine := seq(|s'.log| - |s.log|, _ => ops[0].OfflineDuring(g));
    Regroup(FlagsOf(before[|first|..]), mine, Flags(ops[0].GateAfter(g), s', ops[1..]));
  }

  lemma {:induction false} Regroup(a: seq<bool>, b: seq<bool>, c: seq<bool>)
    ensures a + (b + c) == a + b + c
  {
  }

  lemma {:induction false} FlagsGrow(first: seq<Service>, before: seq<Service>, now: seq<Service>, offline: bool)
    requires first <= before && Grew(before, now, offline)
    ensures first <= now && |before| <= |now|
    ensures FlagsOf(now[|first|..]) == FlagsOf(before[|first|..]) + seq(|now| - |before|, _ => offline)
  {
    GrewPrefix(before, now, offline);
  }

  function OrdinalsOf(ops: seq<Op>): (r: seq<nat>) {
    if ops == [] then []
    else if ops[0].SetPower? then [ops[0].ordinal] + OrdinalsOf(ops[1..])
    else OrdinalsOf(ops[1..])
  }

  function QueueOps(g: Power.Gate, ops: seq<Op>): (r: seq<RequestQueue.Op<Request>>)
    decreases |ops|
  {
    if ops == [] then [] else ops[0].QueueOps(g) + QueueOps(ops[0].GateAfter(g), ops[1..])
  }

  /** Where a run is: the gate, the queue, and the requests served so far. */
  datatype Point = Point(gate: Power.Gate, state: RequestQueue.State<Request>, served: seq<Service>)

  /** From `start` the run `ops` has got to `now`, with the operations `todo` to come. */
  ghost predicate OnTheWay(start: Point, now: Point, ops: seq<Op>, todo: seq<Op>) {
    GateOnTheWay(start, now, ops, todo) && QueueOnTheWay(start, now, ops, todo) && FlagsOnTheWay(start, now, ops, todo)
  }

  ghost predicate GateOnTheWay(start: Point, now: Point, ops: seq<Op>, todo: seq<Op>) {
    Power.SetAll(now.gate, OrdinalsOf(todo)) == Power.SetAll(start.gate, OrdinalsOf(ops))
  }

  ghost predicate QueueOnTheWay(start: Point, now: Point, ops: seq<Op>, todo: seq<Op>) {
    RequestQueue.ApplyAll(now.state, QueueOps(now.gate, todo)) ==
    RequestQueue.ApplyAll(start.state, QueueOps(start.gate, ops))
  }

  ghost predicate FlagsOnTheWay(start: Point, now: Point, ops: seq<Op>, todo: seq<Op>) {
    && start.served <= now.served
    && FlagsOf(now.served[|start.served|..]) + Flags(now.gate, now.state, todo) ==
       Flags(start.gate, start.state, ops)
  }

  lemma {:induction false} RunStarts(start: Point, ops: seq<Op>)
    ensures OnTheWay(start, start, ops, ops[0..])
  {
    assert ops[0..] == ops && start.served[|start.served|..] == [];
    var flags := Flags(start.gate, start.state, ops);
    assert [] + flags == flags;
  }

  /** The operation at index `i` takes the run from `before` to `now`. */
  lemma {:induction false} RunGoesOn(start: Point, before: Point, now: Point, ops: seq<Op>, i: nat)
    requires i < |ops| && OnTheWay(start, before, ops, ops[i..])
    requires now.gate == ops[i].GateAfter(before.gate)
    requires now.state == RequestQueue.ApplyAll(before.state, ops[i].QueueOps(before.gate))
    requires Grew(before.served, now.served, ops[i].OfflineDuring(before.gate))
    requires |before.served| == |before.state.log| && |now.served| == |now.state.log|
    ensures OnTheWay(start, now, ops, ops[i + 1..])
  {
    var todo := ops[i..];
    assert todo[0] == ops[i] && todo[1..] == ops[i + 1..];
    RunStep(todo, before.gate, before.state);
    FlagsStep(start.served, before.served, now.served, before.gate, before.state, todo);
  }

  lemma {:induction false} RunEnds(start: Point, now: Point, ops: seq<Op>)
    requires OnTheWay(start, now, ops, ops[|ops|..])
    ensures now.gate == Power.SetAll(start.gate, OrdinalsOf(ops))
    ensures now.state == RequestQueue.ApplyAll(start.state, QueueOps(start.gate, ops))
    ensures start.served <= now.served
    ensures FlagsOf(now.served[|start.served|..]) == Flags(start.gate, start.state, ops)
  {
    assert ops[|ops|..] == [];
    var flags := FlagsOf(now.served[|start.served|..]);
    assert flags + [] == flags;
  }

  /** The first operation of a run, taken off. */
  lemma {:induction false} RunStep(ops: seq<Op>, g: Power.Gate, s: RequestQueue.State<Request>)
    requires ops != []
    ensures Power.SetAll(g, OrdinalsOf(ops)) == Power.SetAll(ops[0].GateAfter(g), OrdinalsOf(ops[1..]))
    ensures RequestQueue.ApplyAll(s, QueueOps(g, ops)) ==
            RequestQueue.ApplyAll(RequestQueue.ApplyAll(s, ops[0].QueueOps(g)), QueueOps(ops[0].GateAfter(g), ops[1..]))
  {
    RequestQueue.ApplyAllConcat(s, ops[0].QueueOps(g), QueueOps(ops[0].GateAfter(g), ops[1..]));
    if ops[0].SetPower? {
      assert ([ops[0].ordinal] + OrdinalsOf(ops[1..]))[1..] == OrdinalsOf(ops[1..]);
    }
  }

  // ----- Requests served one after the other, as values

  /** Of requests that had `bodies` when the port was in state `start`, the first `i` have been served: now they have
      bodies `now`, and the port is in state `e`.  What is said of the bodies holds of distinct requests. */
  ghost predicate ServedWith(aboutBodies: bool, i: nat, bodies: seq<RequestBody>, start: Engine, now: seq<RequestBody>,
                             e: Engine, distinct: bool, offline: bool) {
    && i <= |bodies| == |now|
    && (aboutBodies && distinct ==> now[i..] == bodies[i..] && (now[..i], e) == ServeAll(bodies[..i], start, offline))
    && (!aboutBodies && offline ==> e == start && forall j :: 0 <= j < i ==> now[j].commandsCount == 0)
  }

  ghost predicate ServedUpTo(i: nat, bodies: seq<RequestBody>, start: Engine, now: seq<RequestBody>, e: Engine,
                             distinct: bool, offline: bool) {
    forall aboutBodies: bool :: ServedWith(aboutBodies, i, bodies, start, now, e, distinct, offline)
  }

  lemma {:induction false} ServedMeans(i: nat, bodies: seq<RequestBody>, start: Engine, now: seq<RequestBody>,
                                       e: Engine, distinct: bool, offline: bool)
    requires ServedUpTo(i, bodies, start, now, e, distinct, offline)
    ensures i <= |bodies| == |now|
    ensures distinct ==> now[i..] == bodies[i..] && (now[..i], e) == ServeAll(bodies[..i], start, offline)
    ensures offline ==> e == start && forall j :: 0 <= j < i ==> now[j].commandsCount == 0
  {
    assert ServedWith(true, i, bodies, start, now, e, distinct, offline);
    assert ServedWith(false, i, bodies, start, now, e, distinct, offline);
  }

  lemma {:induction false} ServedNone(bodies: seq<RequestBody>, e: Engine, distinct: bool, offline: bool)
    ensures ServedUpTo(0, bodies, e, bodies, e, distinct, offline)
  {
    assert bodies[..0] == [];
    assert ServeAll([], e, offline) == ([], e);
  }

  /** The request at `i` is served.  Where the same request is queued again, its body changes there too. */
  lemma {:induction false} ServedOneMore(i: nat, bodies: seq<RequestBody>, start: Engine,
                                         were: seq<RequestBody>, before: Engine, now: seq<RequestBody>, after: Engine,
                                         distinct: bool, offline: bool)
    requires ServedUpTo(i, bodies, start, were, before, distinct, offline) && i < |were| == |now|
    requires (now[i], after) == Serve(were[i], before, offline)
    requires forall j :: 0 <= j < |now| ==> now[j] == were[j] || (now[j] == now[i] && !distinct) || j == i
    ensures ServedUpTo(i + 1, bodies, start, now, after, distinct, offline)
  {
    ServedMeans(i, bodies, start, were, before, distinct, offline);
    OfflineServes(were[i], before, offline);
    if distinct {
      ServedNext(bodies, i, start, offline, were[..i], before, now[i], after);
      assert bodies[i..][0] == bodies[i] && were[i..][0] == were[i];
      OthersStay(i, bodies, were, now);
    }
  }

  lemma {:induction false} OthersStay(i: nat, bodies: seq<RequestBody>, were: seq<RequestBody>, now: seq<RequestBody>)
    requires i < |bodies| == |were| == |now| && were[i..] == bodies[i..]
    requires forall j :: 0 <= j < |now| ==> now[j] == were[j] || j == i
    ensures now[..i + 1] == were[..i] + [now[i]] && now[i + 1..] == bodies[i + 1..]
  {
    assert were[i..][1..] == were[i + 1..] && bodies[i..][1..] == bodies[i + 1..];
  }

  /** One more request, with body `own` at the start and `body` now, that has not been served. */
  lemma {:induction false} ServedPrefix(bodies: seq<RequestBody>, start: Engine, now: seq<RequestBody>, e: Engine,
                                        distinct: bool, distinct': bool, own: RequestBody, body: RequestBody,
                                        offline: bool)
    requires ServedUpTo(|now|, bodies, start, now, e, distinct, offline) && (distinct' ==> distinct && own == body)
    ensures ServedUpTo(|now|, bodies + [own], start, now + [body], e, distinct', offline)
  {
    ServedMeans(|now|, bodies, start, now, e, distinct, offline);
    var n := |now|;
    assert (now + [body])[..n] == now == now[..n] && (bodies + [own])[..n] == bodies == bodies[..n];
    assert (now + [body])[n..] == [body] && (bodies + [own])[n..] == [own];
  }

  /** One request of a drain, in terms of those served so far. */
  lemma {:induction false} ServedNext(bodies: seq<RequestBody>, i: nat, start: Engine, offline: bool,
                                      done: seq<RequestBody>, before: Engine, result: RequestBody, after: Engine)
    requires i < |bodies| && (done, before) == ServeAll(bodies[..i], start, offline)
    requires (result, after) == Serve(bodies[i], before, offline)
    ensures (done + [result], after) == ServeAll(bodies[..i + 1], start, offline)
  {
    assert bodies[..i + 1] == bodies[..i] + [bodies[i]];
    ServeOneMore(bodies[..i], bodies[i], start, offline);
  }

  lemma {:induction false} OfflineServes(body: RequestBody, before: Engine, offline: bool)
    ensures offline ==> Serve(body, before, offline) == (Body(body.commands, 0), before)
  {
  }

  lemma {:induction false} ReadSince(since: Books, before: Books, dev: Stream, startup: bool)
    requires Traced(since, before)
    ensures Traced(since, before.After(ReadPlain(dev, startup, BUDGET, before.port)))
  {
    var r := ReadPlain(dev, startup, BUDGET, before.port);
    PlainAccounted(dev, startup, BUDGET, before.port);
    ReadTraced(before, r);
    TracedTransitive(since, before, before.After(r));
  }

  lemma {:induction false} Shorter(all: seq<Request>, i: nat)
    requires i < |all|
    ensures all[i..][0] == all[i] && all[i..][1..] == all[i + 1..]
  {
  }

  /** A command's place in the list takes the command with its output filled in. */
  lemma {:induction false} FillIn(done: seq<Command>, todo: seq<Command>, rest: seq<Command>, filled: Command)
    requires todo != []
    ensures var commands := (done + todo + rest)[|done| := filled];
            && commands == done + [filled] + todo[1..] + rest
            && commands[..|done| + 1] == done + [filled]
  {
  }

  /** One turn of the command loop, in terms of what is done and what is still to do. */
  lemma {:induction false} BehindStep(done: seq<Command>, todo: seq<Command>, e: Engine)
    requires todo != []
    ensures var s := Execute(todo[0], e);
            Process(todo, e).Behind(done) ==
              if s.failed then Run(done + [s.command] + todo[1..], |done|, s.engine, true)
              else Process(todo[1..], s.engine).Behind(done + [s.command])
  {
    var s := Execute(todo[0], e);
    assert done + ([s.command] + todo[1..]) == done + [s.command] + todo[1..];
    var r := Process(todo[1..], s.engine);
    assert done + ([s.command] + r.commands) == done + [s.command] + r.commands;
  }
}
