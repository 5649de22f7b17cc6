/** Middle-button simulation: two buttons pressed within a short window report as the middle button. */
module MiddleButton {
  import opened Options

  /** Bit 0 is left, bit 1 right, bit 2 middle. */
  type Buttons = bv3

  datatype Phase = NoButtons | Middle | WaitForTwo | WaitForNone | Noop

  datatype From = Passthru | Timer | Trackpad | Cancel

  /** The configuration: whether the simulation is on, whether the pad is ignored, and the window in nanoseconds. */
  datatype Settings = Settings(enabled: bool, ignoreAll: bool, window: nat)

  /** `armed` says that the button timer is running. */
  datatype Machine = Machine(phase: Phase, pending: Buttons, since: nat, armed: bool)

  /** What one call does: the machine after it, the buttons it returns, and the reports it dispatches itself. */
  datatype Result = Result(machine: Machine, buttons: Buttons, dispatched: seq<Buttons>) {
    /** Everything that reaches the system: the timer throws the returned buttons away. */
    function Reports(from: From): seq<Buttons> {
      dispatched + if from.Timer? then [] else [buttons]
    }
  }

  function Elapsed(now: nat, since: nat): nat {
    (now - since) % 0x1_0000_0000_0000_0000
  }

  /** The phase change, and what it dispatches. */
  function Move(m: Machine, buttons: Buttons, now: nat, from: From, c: Settings): (r: (Machine, seq<Buttons>)) {
    var timeout := from.Timer? || from.Cancel? || Elapsed(now, m.since) > c.window;
    var after := if buttons == 0 then NoButtons else Noop;
    match m.phase
    case NoButtons =>
      if from.Cancel? then (m, [])
      else if buttons & 4 != 0 then (m.(phase := Noop), [])
      else if buttons == 3 then (m.(phase := Middle), [])
      else if buttons != 0 then (Machine(WaitForTwo, buttons, now, true), [])
      else (m, [])
    case WaitForTwo =>
      if !timeout && buttons == 3 then (Machine(Middle, 0, m.since, false), [])
      else if timeout || buttons != m.pending then
        (Machine(after, 0, m.since, false),
         if from.Timer? || buttons & m.pending == 0 then [buttons | m.pending] else [])
      else (m, [])
    case Middle =>
      if buttons == 0 then (m.(phase := NoButtons), [])
      else if buttons & 3 != 3 then (Machine(WaitForNone, buttons, now, true), [])
      else (m, [])
    case WaitForNone =>
      if !timeout && buttons == 0 then (Machine(NoButtons, 0, m.since, false), [])
      else if timeout || buttons != m.pending then
        (Machine(after, 0, m.since, false), if from.Timer? then [buttons | m.pending] else [])
      else (m, [])
    case Noop =>
      (m.(phase := after), [])
  }

  /** The buttons to report in the new phase. */
  function Filtered(phase: Phase, buttons: Buttons): Buttons {
    match phase
    case Middle => 4
    case WaitForNone => buttons & 4
    case WaitForTwo => buttons & 4
    case _ => buttons
  }

  function Call(m: Machine, buttons: Buttons, now: nat, from: From, c: Settings): (r: Result) {
    if !c.enabled || (c.ignoreAll && from.Trackpad?) then Result(m, buttons, [])
    else
      var (m', dispatched) := Move(m, buttons, now, from, c);
      Result(m', Filtered(m'.phase, buttons), dispatched)
  }

  // ----- Invariants over every run

  predicate Waiting(m: Machine) {
    m.phase.WaitForTwo? || m.phase.WaitForNone?
  }

  /** Buttons are pending, and the timer runs, exactly in the two waiting phases; what waits for a second button is
      a single left or right. */
  predicate Inv(m: Machine) {
    && (m.pending != 0 <==> Waiting(m))
    && (m.armed <==> Waiting(m))
    && (m.phase.WaitForTwo? ==> m.pending == 1 || m.pending == 2)
  }

  /** A packet or a cancel, with the buttons at that time; or the timer, which fires only when armed and then
      sees the buttons of the last packet. */
  datatype Event = Event(from: From, buttons: Buttons, now: nat, ignoreAll: bool)

  predicate Possible(m: Machine, e: Event) {
    e.from.Timer? ==> m.armed
  }

  function Happen(m: Machine, e: Event, c: Settings): (r: Result) {
    Call(if e.from.Timer? then m.(armed := false) else m, e.buttons, e.now, e.from, c.(ignoreAll := e.ignoreAll))
  }

  predicate IsRun(m: Machine, es: seq<Event>, c: Settings)
    decreases |es|
  {
    es == [] || (Possible(m, es[0]) && IsRun(Happen(m, es[0], c).machine, es[1..], c))
  }

  function After(m: Machine, es: seq<Event>, c: Settings): (m': Machine)
    decreases |es|
  {
    if es == [] then m else After(Happen(m, es[0], c).machine, es[1..], c)
  }

  lemma {:induction false} EventKeepsInv(m: Machine, e: Event, c: Settings)
    requires Inv(m) && Possible(m, e) && c.enabled
    ensures Inv(Happen(m, e, c).machine)
  {
  }

  lemma {:induction false} RunKeepsInv(m: Machine, es: seq<Event>, c: Settings)
    requires Inv(m) && IsRun(m, es, c) && c.enabled
    ensures Inv(After(m, es, c))
    decreases |es|
  {
    if es != [] {
      EventKeepsInv(m, es[0], c);
      RunKeepsInv(Happen(m, es[0], c).machine, es[1..], c);
    }
  }

  /** A timer event always ends the wait, and reports what was pending. */
  lemma {:induction false} TimerEndsWait(m: Machine, e: Event, c: Settings)
    requires Inv(m) && c.enabled && e.from.Timer? && Possible(m, e)
    ensures var r := Happen(m, e, c);
            !Waiting(r.machine) && !r.machine.armed && r.Reports(Timer) == [e.buttons | m.pending]
  {
  }

  /** One event: a press that is held back is still held back, part of a chord, or in a report. */
  predicate Accounted(m: Machine, e: Event, c: Settings) {
    Happen(m, e, c).machine == m || Settled(m, e, c)
  }

  /** The press has become a chord, or is in a dispatched or returned report. */
  predicate Settled(m: Machine, e: Event, c: Settings) {
    var r := Happen(m, e, c);
    || r.machine.phase.Middle?
    || exists i :: 0 <= i < |r.Reports(e.from)| && r.Reports(e.from)[i] & m.pending == m.pending
  }

  lemma {:induction false} PressAccounted(m: Machine, e: Event, c: Settings)
    requires Inv(m) && c.enabled && m.phase.WaitForTwo? && Possible(m, e)
    ensures Accounted(m, e, c)
  {
    var r := Happen(m, e, c);
    if r.machine != m && !r.machine.phase.Middle? {
      var i := if e.from.Timer? || e.buttons & m.pending == 0 then 0 else |r.dispatched|;
      assert r.Reports(e.from)[i] & m.pending == m.pending;
    }
  }

  /** The events leave the machine as it is. */
  predicate HeldThrough(m: Machine, es: seq<Event>, c: Settings) {
    forall i :: 0 <= i < |es| ==> Happen(m, es[i], c).machine == m && !es[i].from.Timer?
  }

  /** Whatever happens from then on, a press that is held back is held back throughout, or up to one event that makes it
      part of a chord or puts it in a report. */
  lemma {:induction false} PressIsNotLost(m: Machine, es: seq<Event>, c: Settings)
    requires Inv(m) && c.enabled && m.phase.WaitForTwo? && IsRun(m, es, c)
    ensures HeldThrough(m, es, c) ||
            exists k :: 0 <= k < |es| && HeldThrough(m, es[..k], c) && Settled(m, es[k], c)
    decreases |es|
  {
    if es != [] {
      PressAccounted(m, es[0], c);
      if Happen(m, es[0], c).machine == m {
        TimerDoesNotHold(m, es[0], c);
        PressIsNotLost(m, es[1..], c);
        HeldLonger(m, es, c);
      } else {
        assert HeldThrough(m, es[..0], c) && Settled(m, es[0], c);
      }
    }
  }

  lemma {:induction false} TimerDoesNotHold(m: Machine, e: Event, c: Settings)
    requires Inv(m) && c.enabled && m.phase.WaitForTwo? && Possible(m, e) && Happen(m, e, c).machine == m
    ensures !e.from.Timer?
  {
  }

  lemma {:induction false} HeldLonger(m: Machine, es: seq<Event>, c: Settings)
    requires es != [] && HeldThrough(m, [es[0]], c)
    requires HeldThrough(m, es[1..], c) ||
             exists k :: 0 <= k < |es[1..]| && HeldThrough(m, es[1..][..k], c) && Settled(m, es[1..][k], c)
    ensures HeldThrough(m, es, c) ||
            exists k :: 0 <= k < |es| && HeldThrough(m, es[..k], c) && Settled(m, es[k], c)
  {
    assert [es[0]][0] == es[0];
    if HeldThrough(m, es[1..], c) {
      forall i | 0 <= i < |es| ensures Happen(m, es[i], c).machine == m && !es[i].from.Timer? {
        assert i > 0 ==> es[i] == es[1..][i - 1];
      }
    } else {
      var k :| 0 <= k < |es[1..]| && HeldThrough(m, es[1..][..k], c) && Settled(m, es[1..][k], c);
      var held := es[..k + 1];
      forall i | 0 <= i < |held| ensures Happen(m, held[i], c).machine == m && !held[i].from.Timer? {
        assert i > 0 ==> held[i] == es[1..][..k][i - 1];
      }
      assert HeldThrough(m, es[..k + 1], c) && Settled(m, es[k + 1], c);
    }
  }

  // ----- Chords

  /** A packet of the touchpad, or of the device behind it. */
  datatype Packet = Packet(from: From, buttons: Buttons, now: nat)

  /** Runs a step function over inputs, collecting what each step puts out. */
  function RunAll<S, P, R>(step: (S, P) -> (S, seq<R>), s: S, ps: seq<P>): (r: (S, seq<R>))
    decreases |ps|
  {
    if ps == [] then (s, [])
    else
      var (s1, x) := step(s, ps[0]);
      var (s2, xs) := RunAll(step, s1, ps[1..]);
      (s2, x + xs)
  }

  lemma {:induction false} RunAllConcat<S, P, R>(step: (S, P) -> (S, seq<R>), s: S, ps: seq<P>, qs: seq<P>)
    ensures var (s1, a) := RunAll(step, s, ps);
            var (s2, b) := RunAll(step, s1, qs);
            RunAll(step, s, ps + qs) == (s2, a + b)
    decreases |ps|
  {
    if ps == [] {
      assert ps + qs == qs;
      assert [] + RunAll(step, s, qs).1 == RunAll(step, s, qs).1;
    } else {
      assert (ps + qs)[0] == ps[0] && (ps + qs)[1..] == ps[1..] + qs;
      var (s1, x) := step(s, ps[0]);
      RunAllConcat(step, s1, ps[1..], qs);
      var (s2, a) := RunAll(step, s1, ps[1..]);
      var b := RunAll(step, s2, qs).1;
      assert x + (a + b) == x + a + b;
    }
  }

  function CallWith(c: Settings): (Machine, Packet) -> (Machine, seq<Buttons>) {
    (m: Machine, p: Packet) => var r := Call(m, p.buttons, p.now, p.from, c); (r.machine, r.Reports(p.from))
  }

  /** The reports of a run of packets, and the machine after it. */
  function Feed(m: Machine, ps: seq<Packet>, c: Settings): (r: (Machine, seq<Buttons>)) {
    RunAll(CallWith(c), m, ps)
  }

  /** The simulation looks at the packet. */
  predicate Plain(p: Packet, c: Settings) {
    c.enabled && (p.from.Passthru? || (p.from.Trackpad? && !c.ignoreAll))
  }

  predicate AllPlain(ps: seq<Packet>, c: Settings) {
    forall i :: 0 <= i < |ps| ==> Plain(ps[i], c)
  }

  function Repeat(b: Buttons, n: nat): (r: seq<Buttons>) {
    seq(n, _ => b)
  }

  /** All packets show the same buttons, and come within the window after `since`. */
  predicate Steady(ps: seq<Packet>, buttons: Buttons, since: nat, window: nat) {
    forall i :: 0 <= i < |ps| ==> ps[i].buttons == buttons && Elapsed(ps[i].now, since) <= window
  }

  /** In a phase that a packet does not change, any number of such packets repeat its report. */
  lemma {:induction false} FeedSteady(m: Machine, ps: seq<Packet>, buttons: Buttons, c: Settings)
    requires forall i :: 0 <= i < |ps| ==>
      && ps[i].buttons == buttons && !ps[i].from.Timer?
      && Call(m, buttons, ps[i].now, ps[i].from, c) == Result(m, Filtered(m.phase, buttons), [])
    ensures Feed(m, ps, c) == (m, Repeat(Filtered(m.phase, buttons), |ps|))
    decreases |ps|
  {
    if ps != [] {
      FeedSteady(m, ps[1..], buttons, c);
      var b := Filtered(m.phase, buttons);
      assert [] + [b] + Repeat(b, |ps| - 1) == Repeat(b, |ps|);
    }
  }

  /** A first press of a single button, repeated within the window: nothing is reported yet. */
  lemma {:induction false} PressPhase(m: Machine, ps: seq<Packet>, buttons: Buttons, c: Settings)
    requires m.phase.NoButtons? && Inv(m) && AllPlain(ps, c) && (buttons == 1 || buttons == 2)
    requires ps != [] && Steady(ps, buttons, ps[0].now, c.window)
    ensures Feed(m, ps, c) == (Machine(WaitForTwo, buttons, ps[0].now, true), Repeat(0, |ps|))
  {
    var w := Machine(WaitForTwo, buttons, ps[0].now, true);
    FeedSteady(w, ps[1..], buttons, c);
    assert [] + [0] + Repeat(0, |ps| - 1) == Repeat(0, |ps|);
  }

  /** Both buttons down, for as long as it lasts: middle is reported. */
  lemma {:induction false} ChordPhase(m: Machine, ps: seq<Packet>, c: Settings)
    requires Inv(m) && AllPlain(ps, c) && ps != [] && forall i :: 0 <= i < |ps| ==> ps[i].buttons == 3
    requires m.phase.NoButtons? || (m.phase.WaitForTwo? && Elapsed(ps[0].now, m.since) <= c.window)
    ensures Feed(m, ps, c) == (Machine(Middle, 0, m.since, false), Repeat(4, |ps|))
  {
    var w := Machine(Middle, 0, m.since, false);
    FeedSteady(w, ps[1..], 3, c);
    assert [] + [4] + Repeat(4, |ps| - 1) == Repeat(4, |ps|);
  }

  /** One button already up, the other still down within the window: middle is released, nothing else shows. */
  lemma {:induction false} ReleasePhase(m: Machine, ps: seq<Packet>, buttons: Buttons, c: Settings)
    requires m.phase.Middle? && Inv(m) && AllPlain(ps, c) && (buttons == 1 || buttons == 2)
    requires ps != [] && Steady(ps, buttons, ps[0].now, c.window)
    ensures Feed(m, ps, c) == (Machine(WaitForNone, buttons, ps[0].now, true), Repeat(0, |ps|))
  {
    var w := Machine(WaitForNone, buttons, ps[0].now, true);
    FeedSteady(w, ps[1..], buttons, c);
    assert [] + [0] + Repeat(0, |ps| - 1) == Repeat(0, |ps|);
  }

  /** A chord: any number of packets with one button, at least one with both, any number with one, and then none;
      the single buttons come and go within the window. */
  predicate Chord(down: seq<Packet>, both: seq<Packet>, up: seq<Packet>, none: Packet, window: nat) {
    Pressing(down, both, window) && Releasing(up, none, window)
  }

  predicate Pressing(down: seq<Packet>, both: seq<Packet>, window: nat) {
    && both != [] && (forall i :: 0 <= i < |both| ==> both[i].buttons == 3)
    && (down != [] ==>
         && (down[0].buttons == 1 || down[0].buttons == 2)
         && Steady(down, down[0].buttons, down[0].now, window)
         && Elapsed(both[0].now, down[0].now) <= window)
  }

  predicate Releasing(up: seq<Packet>, none: Packet, window: nat) {
    && none.buttons == 0
    && (up != [] ==>
         && (up[0].buttons == 1 || up[0].buttons == 2)
         && Steady(up, up[0].buttons, up[0].now, window)
         && Elapsed(none.now, up[0].now) <= window)
  }

  /** A chord reports middle down and middle up, and nothing else: neither single button ever shows. */
  lemma {:induction false} ChordReportsMiddle(m: Machine, down: seq<Packet>, both: seq<Packet>, up: seq<Packet>,
                                              none: Packet, c: Settings)
    requires m.phase.NoButtons? && Inv(m) && Chord(down, both, up, none, c.window)
    requires AllPlain(down, c) && AllPlain(both, c) && AllPlain(up, c) && Plain(none, c)
    ensures var (m', reports) := Feed(m, down + both + up + [none], c);
            && m'.phase.NoButtons? && Inv(m')
            && reports == Repeat(0, |down|) + Repeat(4, |both|) + Repeat(0, |up| + 1)
  {
    PressHalf(m, down, both, c);
    var m2 := Feed(m, down + both, c).0;
    ReleaseHalf(m2, up, none, c);
    RunAllConcat(CallWith(c), m, down + both, up + [none]);
    assert down + both + up + [none] == down + both + (up + [none]);
  }

  lemma {:induction false} PressHalf(m: Machine, down: seq<Packet>, both: seq<Packet>, c: Settings)
    requires m.phase.NoButtons? && Inv(m) && Pressing(down, both, c.window)
    requires AllPlain(down, c) && AllPlain(both, c)
    ensures var (m', reports) := Feed(m, down + both, c);
            m'.phase.Middle? && Inv(m') && reports == Repeat(0, |down|) + Repeat(4, |both|)
  {
    RunAllConcat(CallWith(c), m, down, both);
    if down == [] {
      assert Repeat(0, 0) == [];
      ChordPhase(m, both, c);
    } else {
      PressPhase(m, down, down[0].buttons, c);
      ChordPhase(Feed(m, down, c).0, both, c);
    }
  }

  lemma {:induction false} ReleaseHalf(m: Machine, up: seq<Packet>, none: Packet, c: Settings)
    requires m.phase.Middle? && Inv(m) && Releasing(up, none, c.window)
    requires AllPlain(up, c) && Plain(none, c)
    ensures var (m', reports) := Feed(m, up + [none], c);
            m'.phase.NoButtons? && Inv(m') && reports == Repeat(0, |up| + 1)
  {
    RunAllConcat(CallWith(c), m, up, [none]);
    if up == [] {
      LastPacket(m, none, c);
    } else {
      ReleasePhase(m, up, up[0].buttons, c);
      LastPacket(Feed(m, up, c).0, none, c);
    }
    assert Repeat(0, |up|) + [0] == Repeat(0, |up| + 1);
  }

  lemma {:induction false} LastPacket(m: Machine, none: Packet, c: Settings)
    requires Plain(none, c) && none.buttons == 0 && Inv(m)
    requires m.phase.Middle? || (m.phase.WaitForNone? && Elapsed(none.now, m.since) <= c.window)
    ensures Feed(m, [none], c).0.phase.NoButtons? && Inv(Feed(m, [none], c).0)
    ensures Feed(m, [none], c).1 == [0]
  {
    assert [none][1..] == [];
    var r := Call(m, 0, none.now, none.from, c);
    assert Feed(r.machine, [], c) == (r.machine, []);
  }

  // ----- Back to rest

  /** From any state that a run can reach, a packet without buttons leads back to rest and reports nothing pressed. */
  lemma {:induction false} ReleaseRests(m: Machine, p: Packet, c: Settings)
    requires Inv(m) && Plain(p, c) && p.buttons == 0
    ensures var r := Call(m, 0, p.now, p.from, c);
            && r.machine.phase.NoButtons? && r.machine.pending == 0 && !r.machine.armed && Inv(r.machine)
            && r.buttons == 0
  {
  }

  /** After any run, once a packet without buttons has been seen, a chord reports middle down and up, nothing else. */
  lemma {:induction false} ChordWorksAgain(m: Machine, es: seq<Event>, rest: Packet, down: seq<Packet>,
                                           both: seq<Packet>, up: seq<Packet>, none: Packet, c: Settings)
    requires Inv(m) && IsRun(m, es, c) && Plain(rest, c) && rest.buttons == 0
    requires Chord(down, both, up, none, c.window)
    requires AllPlain(down, c) && AllPlain(both, c) && AllPlain(up, c) && Plain(none, c)
    ensures var start := Call(After(m, es, c), 0, rest.now, rest.from, c).machine;
            var (m', reports) := Feed(start, down + both + up + [none], c);
            && m'.phase.NoButtons? && Inv(m')
            && reports == Repeat(0, |down|) + Repeat(4, |both|) + Repeat(0, |up| + 1)
  {
    RunKeepsInv(m, es, c);
    ReleaseRests(After(m, es, c), rest, c);
    ChordReportsMiddle(Call(After(m, es, c), 0, rest.now, rest.from, c).machine, down, both, up, none, c);
  }

  // ----- Presses that are no chords

  function ButtonsOf(ps: seq<Packet>): (r: seq<Buttons>)
    ensures |r| == |ps| && forall i :: 0 <= i < |ps| ==> r[i] == ps[i].buttons
  {
    seq(|ps|, i requires 0 <= i < |ps| => ps[i].buttons)
  }

  /** A machine that lets everything pass until all buttons are up. */
  lemma {:induction false} NoopPasses(m: Machine, ps: seq<Packet>, c: Settings)
    requires m.phase.Noop? && AllPlain(ps, c) && forall i :: 0 <= i < |ps| ==> ps[i].buttons != 0
    ensures Feed(m, ps, c) == (m, ButtonsOf(ps))
    decreases |ps|
  {
    if ps != [] {
      NoopPasses(m, ps[1..], c);
      assert [] + [ps[0].buttons] + ButtonsOf(ps[1..]) == ButtonsOf(ps);
    }
  }

  /** A single button held past the window: nothing is reported until the timer reports that button, and from then on
      every packet reports its buttons as they are, until all are up. */
  lemma {:induction false} LonePressShows(m: Machine, ps: seq<Packet>, buttons: Buttons, now: nat, later: seq<Packet>,
                                          c: Settings)
    requires m.phase.NoButtons? && Inv(m) && AllPlain(ps, c) && (buttons == 1 || buttons == 2)
    requires ps != [] && Steady(ps, buttons, ps[0].now, c.window)
    requires AllPlain(later, c) && forall i :: 0 <= i < |later| ==> later[i].buttons != 0
    ensures var (w, early) := Feed(m, ps, c);
            var r := Happen(w, Event(Timer, buttons, now, c.ignoreAll), c);
            && early == Repeat(0, |ps|) && w.armed
            && r.Reports(Timer) == [buttons]
            && Feed(r.machine, later, c).1 == ButtonsOf(later)
  {
    PressPhase(m, ps, buttons, c);
    var w := Feed(m, ps, c).0;
    assert buttons | buttons == buttons;
    NoopPasses(Happen(w, Event(Timer, buttons, now, c.ignoreAll), c).machine, later, c);
  }

  /** A second button that comes after the window makes no chord: both show as they are. */
  lemma {:induction false} LateSecondButton(m: Machine, p: Packet, c: Settings)
    requires m.phase.WaitForTwo? && Inv(m) && Plain(p, c) && p.buttons == 3 && Elapsed(p.now, m.since) > c.window
    ensures var r := Call(m, 3, p.now, p.from, c);
            r.machine.phase.Noop? && Inv(r.machine) && r.Reports(p.from) == [3]
  {
  }

  /** One button left of a chord, held past the window, shows again. */
  lemma {:induction false} HeldAfterChordShows(m: Machine, now: nat, ignoreAll: bool, c: Settings)
    requires m.phase.WaitForNone? && Inv(m) && c.enabled
    ensures var r := Happen(m, Event(Timer, m.pending, now, ignoreAll), c);
            r.Reports(Timer) == [m.pending] && r.machine.phase.Noop? && Inv(r.machine)
  {
  }

  /** Buttons that change while the second one of a chord is still down show as they are. */
  lemma {:induction false} ChangedAfterChordShows(m: Machine, p: Packet, c: Settings)
    requires m.phase.WaitForNone? && Inv(m) && Plain(p, c) && p.buttons != 0 && p.buttons != m.pending
    ensures var r := Call(m, p.buttons, p.now, p.from, c);
            r.machine.phase.Noop? && Inv(r.machine) && r.Reports(p.from) == [p.buttons]
  {
  }

  /** A finger coming down ends a wait for the second button, and the press shows; at rest it changes nothing. */
  lemma {:induction false} CancelEndsWait(m: Machine, buttons: Buttons, now: nat, c: Settings)
    requires Inv(m) && c.enabled
    ensures var r := Call(m, buttons, now, Cancel, c);
            && (m.phase.NoButtons? ==> r == Result(m, buttons, []))
            && (m.phase.WaitForTwo? && buttons == m.pending ==>
                 r.machine.phase.Noop? && r.Reports(Cancel) == [buttons] && !r.machine.armed)
  {
  }

  /** A real middle button, and a simulation that is switched off, change nothing. */
  lemma {:induction false} OthersPass(m: Machine, p: Packet, c: Settings)
    requires m.phase.NoButtons? && (!c.enabled || (Plain(p, c) && p.buttons & 4 != 0))
    ensures var r := Call(m, p.buttons, p.now, p.from, c); r.buttons == p.buttons && r.dispatched == []
  {
  }

  // ----- The driver object

  class Simulator {
    var phase: Phase
    var pending: Buttons
    var since: nat
    var armed: bool
    var passButtons: Buttons
    var lastButtons: Buttons

    ghost function State(): Machine
      reads this
    {
      Machine(phase, pending, since, armed)
    }

    constructor ()
      ensures Inv(State()) && phase == NoButtons && passButtons == lastButtons == 0
    {
      phase, pending, since, armed := NoButtons, 0, 0, false;
      passButtons, lastButtons := 0, 0;
    }

    method StartWaiting(next: Phase, buttons: Buttons, now: nat)
      modifies this`phase, this`pending, this`since, this`armed
      ensures State() == Machine(next, buttons, now, true)
    {
      pending := buttons;
      since := now;
      armed := true;
      phase := next;
    }

    method StopWaiting(next: Phase)
      modifies this`phase, this`pending, this`armed
      ensures State() == Machine(next, 0, old(since), false)
    {
      pending := 0;
      armed := false;
      phase := next;
    }

    /** The state machine proper. */
    method ChangePhase(buttons: Buttons, now: nat, from: From, c: Settings) returns (dispatched: seq<Buttons>)
      modifies this`phase, this`pending, this`since, this`armed
      ensures (State(), dispatched) == Move(old(State()), buttons, now, from, c)
    {
      dispatched := [];
      var timeout := from == Timer || from == Cancel || Elapsed(now, since) > c.window;
      match phase {
        case NoButtons =>
          if from != Cancel {
            if buttons & 4 != 0 {
              phase := Noop;
            } else if buttons == 3 {
              phase := Middle;
            } else if buttons != 0 {
              StartWaiting(WaitForTwo, buttons, now);
            }
          }
        case WaitForTwo =>
          if !timeout && buttons == 3 {
            StopWaiting(Middle);
          } else if timeout || buttons != pending {
            if from == Timer || buttons & pending == 0 {
              dispatched := [buttons | pending];
            }
            StopWaiting(if buttons == 0 then NoButtons else Noop);
          }
        case Middle =>
          if buttons == 0 {
            phase := NoButtons;
          } else if buttons & 3 != 3 {
            StartWaiting(WaitForNone, buttons, now);
          }
        case WaitForNone =>
          if !timeout && buttons == 0 {
            StopWaiting(NoButtons);
          } else if timeout || buttons != pending {
            if from == Timer {
              dispatched := [buttons | pending];
            }
            StopWaiting(if buttons == 0 then NoButtons else Noop);
          }
        case Noop =>
          if buttons == 0 {
            phase := NoButtons;
          }
      }
    }

    method MiddleButton(raw: Buttons, now: nat, from: From, c: Settings)
      returns (buttons: Buttons, dispatched: seq<Buttons>)
      modifies this`phase, this`pending, this`since, this`armed
      ensures Result(State(), buttons, dispatched) == Call(old(State()), raw, now, from, c)
    {
      buttons, dispatched := raw, [];
      if !c.enabled || (c.ignoreAll && from == Trackpad) {
        return;
      }
      dispatched := ChangePhase(raw, now, from, c);
      match phase {
        case Middle => buttons := 4;
        case WaitForNone => buttons := buttons & !3;
        case WaitForTwo => buttons := buttons & !3;
        case _ =>
      }
    }

    /** A packet of the touchpad with its buttons, and those of the device behind it if it is a pass-through packet.
        The buttons that the timer will see are stored before the simulation filters them. */
    method OnPacket(touch: Buttons, pass: Option<Buttons>, now: nat, c: Settings)
      returns (buttons: Buttons, dispatched: seq<Buttons>)
      modifies this
      ensures passButtons == (if pass.Some? then pass.value else old(passButtons)) && lastButtons == touch | passButtons
      ensures var from := if pass.Some? then Passthru else Trackpad;
              Result(State(), buttons, dispatched) == Call(old(State()), lastButtons, now, from, c)
    {
      if pass.Some? {
        passButtons := pass.value;
      }
      lastButtons := touch | passButtons;
      buttons, dispatched := MiddleButton(lastButtons, now, if pass.Some? then Passthru else Trackpad, c);
    }

    /** A finger comes down: a wait is cancelled. */
    method OnFingerDown(touch: Buttons, now: nat, c: Settings) returns (buttons: Buttons, dispatched: seq<Buttons>)
      modifies this`phase, this`pending, this`since, this`armed
      ensures Result(State(), buttons, dispatched) == Call(old(State()), touch | passButtons, now, Cancel, c)
    {
      buttons, dispatched := MiddleButton(touch | passButtons, now, Cancel, c);
    }

    /** The button timer fires. */
    method OnButtonTimer(now: nat, c: Settings) returns (dispatched: seq<Buttons>)
      requires armed
      modifies this`phase, this`pending, this`since, this`armed
      ensures var r := Happen(old(State()), Event(Timer, lastButtons, now, c.ignoreAll), c);
              State() == r.machine && dispatched == r.Reports(Timer)
    {
      armed := false;
      var _, d := MiddleButton(lastButtons, now, Timer, c);
      dispatched := d;
    }
  }
}
