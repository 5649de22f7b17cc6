/** The touchpad driver object: its scalar fields, kept in one record that the stages of a packet update one after the
    other, and its two history filters.  `State` is the value that the specification in `Gesture` speaks of, with the
    windows of the filters for the histories. */
module GestureDriver {
  import opened CInt
  import opened Gesture
  import Filters
  import MomentumScroll

  class TouchPad {
    var pad: Pad  // without the histories
    const dyHistory: Filters.SimpleAverage
    const timeHistory: Filters.SimpleAverage

    // What the filters hold, oldest first.
    ghost var deltas: seq<int>
    ghost var times: seq<int>

    ghost predicate Valid()
      reads this`deltas, this`times, dyHistory, dyHistory.buffer, timeHistory, timeHistory.buffer
    {
      && dyHistory.Valid() && timeHistory.Valid() && dyHistory != timeHistory
      && dyHistory.buffer != timeHistory.buffer
      && dyHistory.buffer.Length == 32 && timeHistory.buffer.Length == 32
      && deltas == dyHistory.Window() && times == timeHistory.Window()
    }

    ghost function State(): Pad
      reads this
    {
      pad.(dyHistory := deltas, timeHistory := times)
    }

    constructor ()
      ensures Valid() && State() == START
    {
      pad := START;
      dyHistory := new Filters.SimpleAverage(32);
      timeHistory := new Filters.SimpleAverage(32);
      deltas, times := [], [];
    }

    // ----- Stages of a packet

    method NoteFingerChange(p: Packet, c: Config)
      modifies this`pad
      ensures State() == FingerChange(old(State()), p, c)
    {
      var f := c.Fingers(p);
      if pad.lastF > 0 && f > 0 && pad.lastF != f {
        pad := pad.(ignoreDeltas := c.ignoreDeltasStart);
      }
      if pad.ignoreDeltas != 0 {
        pad := pad.(lastX := p.x, lastY := p.y, ignoreDeltas := pad.ignoreDeltas - 1);
      }
    }

    method WatchDisableZone(p: Packet, c: Config)
      modifies this`pad
      ensures State() == DisableZone(old(State()), p, c)
    {
      if !c.zoneEnabled {
        return;
      }
      match pad.mode {
        case NoTouch =>
          if StartsTap(p, c) {
            pad := pad.(touchTime := p.now, mode := Wait1Release);
          }
        case Wait1Release =>
          if p.z < c.zFinger {
            if Since(p.now, pad.touchTime) < c.maxTapTime {
              pad := pad.(untouchTime := p.now, mode := Wait2Tap);
            } else {
              pad := pad.(mode := NoTouch);
            }
          } else if !c.zone.Contains(p.x, p.y) {
            pad := pad.(mode := NoTouch);
          }
        case Wait2Tap =>
          if c.FingerTouch(p.z) {
            if StartsTap(p, c) && Since(p.now, pad.untouchTime) < c.maxDragTime {
              pad := pad.(touchTime := p.now, mode := Wait2Release);
            } else {
              pad := pad.(mode := NoTouch);
            }
          }
        case Wait2Release =>
          if p.z < c.zFinger {
            if Since(p.now, pad.touchTime) < c.maxTapTime {
              pad := pad.(ignoreAll := !pad.ignoreAll);
            }
            pad := pad.(mode := NoTouch);
          } else if !c.zone.Contains(p.x, p.y) {
            pad := pad.(mode := NoTouch);
          }
        case _ =>
      }
    }

    /** Two fingers leave the pad: scrolling goes on if they were moving.  The filters give the number of samples, the
        sum that they keep up to date, and the oldest and newest time. */
    method BeginMomentum(c: Config)
      requires Valid()
      modifies this`pad
      ensures State() == old(State()).(momentum := StartMomentum(old(State()), c))
    {
      if pad.mode == MTouch && c.momentum && c.momentumTimer != 0 && dyHistory.count > c.momentumSamplesMin {
        var newest := timeHistory.Newest();
        var oldest := timeHistory.Oldest();
        var interval := Since(newest, oldest);
        pad := pad.(momentum := pad.momentum.(interval := interval));
        if interval != 0 {
          pad := pad.(momentum := MomentumScroll.Momentum(c.momentumTimer * dyHistory.sum, 0, 0, interval));
        }
      }
    }

    method ResetHistories()
      requires Valid()
      modifies this`deltas, this`times, dyHistory, timeHistory
      ensures Valid() && deltas == [] && times == []
    {
      timeHistory.Reset();
      dyHistory.Reset();
      deltas, times := [], [];
    }

    /** The mode when a touch ends, and the temporary drag lock. */
    method EndTouch(p: Packet, c: Config) returns (m: Mode, lock: int)
      ensures m == ModeAfterRelease(State(), p, c)
      ensures var tapped := Since(p.now, pad.touchTime) < c.maxTapTime && c.clicking;
              lock == if !tapped && m.NoTouch? then 0 else pad.dragLockTemp
    {
      var dragged := pad.mode == Drag || pad.mode == DragLock;
      lock := pad.dragLockTemp;
      if Since(p.now, pad.touchTime) < c.maxTapTime && c.clicking {
        if dragged || (pad.wasTriple && c.rtap) || (pad.wasDouble && c.rtap) {
          m := NoTouch;
        } else {
          m := if c.dragging then PreDrag else NoTouch;
        }
      } else if dragged && (c.dragLock || pad.dragLockTemp != 0 || c.dragTimer) {
        m := DragNoTouch;
      } else {
        m := NoTouch;
        lock := 0;
      }
    }

    method ReleaseTouch(p: Packet, c: Config)
      requires Valid()
      modifies this, dyHistory, timeHistory
      ensures Valid() && State() == Release(old(State()), p, c)
    {
      if p.z < c.zFinger && pad.mode.IsTouch() {
        var m, lock := EndTouch(p, c);
        BeginMomentum(c);
        pad := pad.(xRest := 0, yRest := 0, scrollRest := 0, untouchTime := p.now);
        ResetHistories();
        pad := pad.(mode := m, dragLockTemp := lock, wasDouble := false, wasTriple := false);
      }
    }

    method CancelLateTaps(p: Packet, c: Config)
      modifies this`pad
      ensures State() == CancelTaps(old(State()), p, c)
    {
      if pad.mode == PreDrag && Since(p.now, pad.untouchTime) >= c.maxDragTime {
        pad := pad.(mode := NoTouch);
      }
      var off := TapIsOff(pad.touchX, pad.touchY, pad.wasDouble || pad.wasTriple, p, c);
      if pad.mode.IsTouch() && c.FingerTouch(p.z) && off {
        pad := pad.(touchTime := 0);
      }
    }

    /** The move branch. */
    method MoveWithFinger(p: Packet, c: Config) returns (dx: int, dy: int)
      requires c.Valid()
      modifies this`pad
      ensures Moved(State(), dx, dy, []) == MovePointer(old(State()), p, c)
    {
      dx := p.x - pad.lastX + pad.xRest;
      dy := pad.lastY - p.y + pad.yRest;
      pad := pad.(xRest := Rem(dx, c.divisorX), yRest := Rem(dy, c.divisorY));
      if Abs(dx) > c.bogusX || Abs(dy) > c.bogusY {
        dx, dy := 0, 0;
        pad := pad.(xRest := 0, yRest := 0);
      }
    }

    /** The filters take the movement and its time. */
    method FilterBoth(dy: int, now: nat)
      requires Valid()
      modifies this`deltas, this`times, dyHistory, dyHistory.buffer, timeHistory, timeHistory.buffer
      ensures Valid()
      ensures deltas == Filters.Push(old(deltas), 32, dy) && times == Filters.Push(old(times), 32, now)
    {
      var _ := dyHistory.Filter(dy);
      var _ := timeHistory.Filter(now);
      deltas, times := dyHistory.Window(), timeHistory.Window();
    }

    /** A stop or a turn clears them first. */
    method AddToHistory(dy: int, now: nat)
      requires Valid()
      modifies this`deltas, this`times, dyHistory, dyHistory.buffer, timeHistory, timeHistory.buffer
      ensures Valid() && (deltas, times) == History(old(deltas), old(times), dy, now)
    {
      var newest := dyHistory.Newest();
      if (dy < 0) != (newest < 0) || dy == 0 {
        ResetHistories();
      }
      FilterBoth(dy, now);
    }

    /** The two-finger branch. */
    method ScrollWithFingers(p: Packet, c: Config) returns (scrolls: seq<(int, int)>)
      requires Valid()
      modifies this, dyHistory, dyHistory.buffer, timeHistory, timeHistory.buffer
      ensures Valid() && Moved(State(), 0, 0, scrolls) == ScrollBoth(old(State()), p, c)
    {
      var dy := if c.wvDivisor != 0 then p.y - pad.lastY + pad.yRest else 0;
      var dx := if c.HorizontalOn() then pad.lastX - p.x + pad.xRest else 0;
      ghost var s := State();
      AddToHistory(dy, p.now);
      var r := ScrollBothAxes(dy, dx, c);
      ScrollBothIs(s, p, c, dy, dx, deltas, times, r);
      pad := pad.(xRest := r.xRest, yRest := r.yRest);
      scrolls := r.scrolls;
    }

    method ScrollAlongEdge(delta: int, divisor: int, thresh: int, vertical: bool) returns (scrolls: seq<(int, int)>)
      requires divisor != 0
      modifies this`pad
      ensures Moved(State(), 0, 0, scrolls) == ScrollEdge(old(State()), delta, divisor, thresh, vertical)
    {
      var report, rest, moved := ScrollAxis(true, delta + pad.scrollRest, divisor, thresh);
      pad := pad.(scrollRest := rest);
      scrolls := [];
      if moved {
        scrolls := [if vertical then (report, 0) else (0, report)];
      }
    }

    /** The edge and circular scroll modes. */
    method ScrollInEdgeMode(p: Packet, c: Config) returns (scrolls: seq<(int, int)>)
      requires DivisorsSet(State(), c) && pad.mode.Scrolling()
      modifies this`pad
      ensures Moved(State(), 0, 0, scrolls) == MotionEdge(old(State()), p, c)
    {
      scrolls := [];
      var beyond := p.w > c.wLimit || p.z > c.zLimit;
      if (pad.mode == VScroll && !c.vSticky && (p.x < c.rightEdge || beyond)) ||
         (pad.mode == HScroll && !c.hSticky && (p.y > c.bottomEdge || beyond)) {
        pad := pad.(mode := NoTouch);
        return;
      }
      if c.palmWhenTyping && Since(p.now, pad.keyTime) < c.maxAfterTyping {
        return;
      }
      if pad.mode == VScroll {
        scrolls := ScrollAlongEdge(p.y - pad.lastY, c.vScrollDivisor, c.scrollYThresh, true);
      } else if pad.mode == HScroll {
        scrolls := ScrollAlongEdge(pad.lastX - p.x, c.hScrollDivisor, c.scrollXThresh, false);
      } else {
        var d := if p.y < c.centerY then p.x - pad.lastX else pad.lastX - p.x;
        d := d + if p.x < c.centerX then pad.lastY - p.y else p.y - pad.lastY;
        scrolls := ScrollAlongEdge(d, c.cScrollDivisor, c.scrollXThresh, true);
      }
    }

    /** Two or more fingers. */
    method MoveManyFingers(p: Packet, c: Config) returns (scrolls: seq<(int, int)>)
      requires Valid() && pad.mode == MTouch
      modifies this, dyHistory, dyHistory.buffer, timeHistory, timeHistory.buffer
      ensures Valid() && Moved(State(), 0, 0, scrolls) == MotionMTouch(old(State()), p, c)
    {
      scrolls := [];
      if p.w == 1 || pad.lastF != c.Fingers(p) || (c.palm && p.z > c.zLimit) {
        return;
      }
      if !c.wSticky && p.w <= c.wLimit && p.w > 3 {
        ResetHistories();
        pad := pad.(mode := Move);
        return;
      }
      if c.palmWhenTyping && Since(p.now, pad.keyTime) < c.maxAfterTyping {
        return;
      }
      scrolls := ScrollWithFingers(p, c);
    }

    method MoveOrScroll(p: Packet, c: Config) returns (dx: int, dy: int, scrolls: seq<(int, int)>)
      requires Valid() && c.Valid() && DivisorsSet(State(), c)
      modifies this, dyHistory, dyHistory.buffer, timeHistory, timeHistory.buffer
      ensures Valid() && Moved(State(), dx, dy, scrolls) == Motion(old(State()), p, c)
    {
      dx, dy, scrolls := 0, 0, [];
      if pad.mode == MTouch {
        scrolls := MoveManyFingers(p, c);
      } else if pad.mode.Scrolling() {
        scrolls := ScrollInEdgeMode(p, c);
      } else if pad.mode == Move || pad.mode == Drag || pad.mode == DragLock {
        if pad.lastF == c.Fingers(p) && (!c.palm || (p.w <= c.wLimit && p.z <= c.zLimit)) &&
           (pad.mode != Move || !c.clicking || Since(p.now, pad.touchTime) >= c.maxTapTime) {
          dx, dy := MoveWithFinger(p, c);
        }
      }
    }

    method NoteTouch(p: Packet, c: Config)
      modifies this`pad
      ensures State() == Touch(old(State()), p, c)
    {
      if !c.FingerTouch(p.z) {
        return;
      }
      if (!c.palmWhenTyping || Since(p.now, pad.keyTime) >= c.maxAfterTyping) && pad.momentum.current == 0 {
        if !pad.mode.IsTouch() {
          pad := pad.(touchTime := p.now, touchX := p.x, touchY := p.y);
        }
        if p.w == 0 {
          pad := pad.(wasDouble := true);
        } else if c.buttonCount >= 3 && p.w == 1 {
          pad := pad.(wasTriple := true);
        }
      }
      pad := pad.(momentum := pad.momentum.(current := 0));
    }

    method SwitchMode(p: Packet, c: Config)
      modifies this`pad
      ensures State() == SwitchModes(old(State()), p, c)
    {
      var lock := if pad.mode == PreDrag && c.FingerTouch(p.z) then p.lockKeys else pad.dragLockTemp;
      var m := SwitchForTouch(pad.mode, p, c);
      var entered;
      m, entered := SwitchForEdge(m, p, c);
      pad := pad.(mode := m, dragLockTemp := lock, scrollRest := if entered then 0 else pad.scrollRest);
    }

    /** The stages before motion. */
    method Prepare(p: Packet, c: Config)
      requires Valid()
      modifies this, dyHistory, timeHistory
      ensures Valid() && State() == BeforeMotion(old(State()), p, c)
    {
      ReleaseTouch(p, c);
      CancelLateTaps(p, c);
    }

    /** The stages after motion. */
    method Conclude(p: Packet, c: Config)
      modifies this`pad
      ensures State() == AfterMotion(old(State()), p, c)
    {
      NoteTouch(p, c);
      SwitchMode(p, c);
      pad := pad.(lastX := p.x, lastY := p.y, lastF := c.Fingers(p));
    }

    /** What a packet does once it is past the zone and the off switch. */
    method HandlePacket(p: Packet, c: Config) returns (pointer: (int, int), scrolls: seq<(int, int)>)
      requires Valid() && c.Valid() && DivisorsSet(State(), c)
      modifies this, dyHistory, dyHistory.buffer, timeHistory, timeHistory.buffer
      ensures Valid() && Outcome(State(), Handled, pointer, scrolls) == Handle(old(State()), p, c)
    {
      ReleaseKeepsDivisors(State(), p, c);
      Prepare(p, c);
      var dx, dy;
      dx, dy, scrolls := MoveOrScroll(p, c);
      pointer := (Quot(dx, c.divisorX), Quot(dy, c.divisorY));
      Conclude(p, c);
    }

    /** An ordinary packet, from start to end. */
    method DispatchEvents(p: Packet, c: Config) returns (fate: Fate, pointer: (int, int), scrolls: seq<(int, int)>)
      requires Valid() && c.Valid() && DivisorsSet(State(), c)
      modifies this, dyHistory, dyHistory.buffer, timeHistory, timeHistory.buffer
      ensures Valid() && Outcome(State(), fate, pointer, scrolls) == Dispatch(old(State()), p, c)
    {
      pointer, scrolls := (0, 0), [];
      ZoneKeepsDivisors(State(), p, c);
      NoteFingerChange(p, c);
      if OutsideWhenTyping(pad, p, c) {
        fate := Dropped;
        return;
      }
      WatchDisableZone(p, c);
      if c.zoneEnabled && pad.mode.InDisableZone() {
        fate := Zoned;
        return;
      }
      if pad.ignoreAll {
        fate := Ignored;
        return;
      }
      fate := Handled;
      pointer, scrolls := HandlePacket(p, c);
    }

    // ----- The momentum timer

    /** Says whether to start the timer again, and the delta to dispatch if so. */
    method OnScrollTimer(c: MomentumScroll.Settings) returns (again: bool, delta: int)
      requires c.divisor != 0 && (pad.momentum.current != 0 ==> pad.momentum.interval != 0)
      modifies this`pad
      ensures var t := MomentumScroll.Tick(old(State()).momentum, c);
              State() == old(State()).(momentum := t.after) && again == t.again && delta == t.delta
    {
      again, delta := false, 0;
      var m := pad.momentum;
      if m.current == 0 {
        return;
      }
      var dy := Quot(m.current, m.interval) + m.rest2;
      if Abs(dy) > c.thresh {
        again := true;
        delta := if c.wvdivisor != 0 then Quot(dy, c.wvdivisor) else 0;
        m := m.(rest2 := if c.wvdivisor != 0 then Rem(dy, c.wvdivisor) else 0);
        var raw := m.current * c.multiplier + m.rest1;
        m := m.(rest1 := Rem(raw, c.divisor), current := Quot(raw, c.divisor));
      } else {
        m := m.(current := 0);
      }
      pad := pad.(momentum := m);
    }
  }

  /** One scroll axis: what to report, what to carry on, and whether there is anything to report. */
  method ScrollAxis(on: bool, d: int, divisor: int, thresh: int) returns (report: int, rest: int, moved: bool)
    requires on ==> divisor != 0
    ensures report == AxisReport(on, d, divisor, thresh) && rest == AxisRest(on, d, divisor, thresh)
    ensures moved == !(Abs(d) < thresh || d == 0)
  {
    var delta := d;
    rest := if on then Rem(delta, divisor) else 0;
    if Abs(delta) < thresh {
      rest := delta;
      delta := 0;
    }
    moved := delta != 0;
    report := if on then Quot(delta, divisor) else 0;
    if on {
      RemBelow(0, divisor);
    }
  }

  method TapIsOff(x: int, y: int, several: bool, p: Packet, c: Config) returns (off: bool)
    ensures off == WandersOff(x, y, several, p, c)
  {
    var dx := if p.xraw > x then p.xraw - x else x - p.xraw;
    var dy := if p.yraw > y then p.yraw - y else y - p.yraw;
    if !several && (dx > c.tapThresh.0 || dy > c.tapThresh.1) {
      off := true;
    } else {
      off := dx > c.dblThresh.0 || dy > c.dblThresh.1;
    }
  }

  /** Two-finger scrolling, put together from its parts. */
  lemma {:induction false} ScrollBothIs(s: Pad, p: Packet, c: Config, dy: int, dx: int, ds: seq<int>, ts: seq<int>,
                                        r: Scrolled)
    requires dy == AxisDelta(c.wvDivisor != 0, p.y - s.lastY, s.yRest)
    requires dx == AxisDelta(c.HorizontalOn(), s.lastX - p.x, s.xRest)
    requires (ds, ts) == History(s.dyHistory, s.timeHistory, dy, p.now) && r == ScrollAxes(dy, dx, c)
    ensures ScrollBoth(s, p, c) ==
            Moved(s.(yRest := r.yRest, xRest := r.xRest, dyHistory := ds, timeHistory := ts), 0, 0, r.scrolls)
  {
  }

  /** Both scroll axes. */
  method ScrollBothAxes(dy: int, dx: int, c: Config) returns (r: Scrolled)
    ensures r == ScrollAxes(dy, dx, c)
  {
    var vertical, yRest, movedY := ScrollAxis(c.wvDivisor != 0, dy, c.wvDivisor, c.scrollYThresh);
    var horizontal, xRest, movedX := ScrollAxis(c.HorizontalOn(), dx, c.whDivisor, c.scrollXThresh);
    r := Scrolled(yRest, xRest, if movedY || movedX then [(vertical, horizontal)] else []);
  }

  /** Drags, two fingers, and circular scrolling. */
  method SwitchForTouch(mode: Mode, p: Packet, c: Config) returns (m: Mode)
    ensures m == TouchSwitch(mode, p, c)
  {
    m := mode;
    if m == PreDrag && c.FingerTouch(p.z) {
      m := Drag;
    }
    if m == DragNoTouch && c.FingerTouch(p.z) {
      m := DragLock;
    }
    if m != MTouch && (p.w > c.wLimit || p.w < 2) && c.FingerTouch(p.z) {
      m := MTouch;
    }
    if c.scroll && c.cScrollDivisor != 0 && m == NoTouch && p.z > c.zFinger && CircularTrigger(p, c) {
      m := CScroll;
    }
  }

  /** Edge scrolling and plain moves. */
  method SwitchForEdge(mode: Mode, p: Packet, c: Config) returns (m: Mode, entered: bool)
    ensures (m, entered) == EdgeSwitch(mode, p, c)
  {
    m, entered := mode, false;
    if (m == NoTouch || (m == HScroll && p.y >= c.bottomEdge)) &&
       p.z > c.zFinger && p.x > c.rightEdge && c.vScrollDivisor != 0 && c.scroll {
      m, entered := VScroll, true;
    }
    if (m == NoTouch || (m == VScroll && p.x <= c.rightEdge)) &&
       p.z > c.zFinger && p.y < c.bottomEdge && c.hScrollDivisor != 0 && c.hscroll && c.scroll {
      m, entered := HScroll, true;
    }
    if m == NoTouch && p.z > c.zFinger {
      m := Move;
    }
  }
}
