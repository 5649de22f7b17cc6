/** The Synaptics gesture machine: touch modes, the disable-zone double tap, pointer motion, scrolling with carried
    remainders, and the start of momentum scrolling.  This is the specification; `GestureDriver` is the object. */
module Gesture {
  import opened CInt
  import Filters
  import MomentumScroll

  datatype Mode =
    | NoTouch | PreDrag | DragNoTouch
    | Move | VScroll | HScroll | CScroll | MTouch | Drag | DragLock
    | Wait1Release | Wait2Tap | Wait2Release
  {
    /** The enumerator: odd with a finger down, even without. */
    function Code(): nat {
      match this
      case NoTouch => 0
      case PreDrag => 2
      case DragNoTouch => 4
      case Move => 1
      case VScroll => 3
      case HScroll => 5
      case CScroll => 7
      case MTouch => 9
      case Drag => 11
      case DragLock => 13
      case Wait1Release => 101
      case Wait2Tap => 102
      case Wait2Release => 103
    }

    predicate IsTouch() {
      Code() % 2 == 1
    }

    predicate Scrolling() {
      VScroll? || HScroll? || CScroll?
    }

    predicate InDisableZone() {
      Code() >= 101
    }
  }

  /** A box that a point is in when it is strictly inside. */
  datatype Box = Box(left: int, right: int, top: int, bottom: int) {
    predicate Contains(x: int, y: int) {
      left < x < right && bottom < y < top
    }
  }

  datatype Config = Config(
    zFinger: int, zLimit: int, wLimit: int,
    divisorX: int, divisorY: int, bogusX: int, bogusY: int,
    leftEdge: int, rightEdge: int, topEdge: int, bottomEdge: int,
    scroll: bool, hscroll: bool, vScrollDivisor: int, hScrollDivisor: int, cScrollDivisor: int,
    cTrigger: int, centerX: int, centerY: int, vSticky: bool, hSticky: bool, wSticky: bool,
    wvDivisor: int, whDivisor: int, scrollXThresh: int, scrollYThresh: int,
    maxTapTime: nat, maxDragTime: nat, maxAfterTyping: nat, tapThresh: (int, int), dblThresh: (int, int),
    clicking: bool, dragging: bool, dragLock: bool, dragTimer: bool, rtap: bool, buttonCount: int,
    palm: bool, palmWhenTyping: bool, outZoneWhenTyping: bool, typingZone: Box,
    zoneEnabled: bool, zone: Box,
    momentum: bool, momentumTimer: nat, momentumSamplesMin: nat, momentumSettings: MomentumScroll.Settings,
    ignoreDeltasStart: nat)
  {
    predicate Valid() {
      divisorX != 0 && divisorY != 0 && momentumSettings.Valid() && momentumSettings.wvdivisor == wvDivisor
    }

    predicate HorizontalOn() {
      whDivisor != 0 && hscroll
    }

    predicate FingerTouch(z: int) {
      zFinger < z < zLimit
    }

    function Fingers(p: Packet): int {
      if p.zraw > zFinger then (if p.w >= 4 then 1 else p.w + 2) else 0
    }
  }

  /** An ordinary touchpad packet.  `x`, `y` are filtered, `xraw`, `yraw` are not; `zraw` is the pressure that fingers
      are counted by, before the bit that carries a width is taken out of it; `lockKeys` are the modifiers that lock
      a drag. */
  datatype Packet =
    Packet(x: int, y: int, xraw: int, yraw: int, z: int, zraw: int, w: nat, now: nat, lockKeys: int)

  datatype Pad = Pad(
    mode: Mode, ignoreAll: bool, touchTime: nat, untouchTime: nat, keyTime: nat,
    touchX: int, touchY: int, wasDouble: bool, wasTriple: bool, dragLockTemp: int,
    lastX: int, lastY: int, lastF: int, ignoreDeltas: nat,
    xRest: int, yRest: int, scrollRest: int,
    dyHistory: seq<int>, timeHistory: seq<int>, momentum: MomentumScroll.Momentum)

  const START: Pad := Pad(NoTouch, false, 0, 0, 0, 0, 0, false, false, 0, 0, 0, 0, 0, 0, 0, 0, [], [],
                          MomentumScroll.Momentum(0, 0, 0, 0))

  /** The difference of two times, as 64-bit unsigned numbers. */
  function Since(now: int, then_: int): nat {
    (now - then_) % 0x1_0000_0000_0000_0000
  }

  predicate Typing(s: Pad, p: Packet, c: Config) {
    c.palmWhenTyping && Since(p.now, s.keyTime) < c.maxAfterTyping
  }

  // ----- The stages of a packet

  /** Deltas are ignored for a while after the number of fingers changes. */
  function FingerChange(s: Pad, p: Packet, c: Config): (s': Pad) {
    var f := c.Fingers(p);
    var n := if s.lastF > 0 && f > 0 && s.lastF != f then c.ignoreDeltasStart else s.ignoreDeltas;
    if n != 0 then s.(ignoreDeltas := n - 1, lastX := p.x, lastY := p.y) else s.(ignoreDeltas := n)
  }

  /** A touch outside the typing zone, shortly after a key. */
  predicate OutsideWhenTyping(s: Pad, p: Packet, c: Config) {
    && c.outZoneWhenTyping && p.z > c.zFinger && Since(p.now, s.keyTime) < c.maxAfterTyping
    && (p.x < c.typingZone.left || p.x > c.typingZone.right || p.y < c.typingZone.bottom || p.y > c.typingZone.top)
  }

  predicate StartsTap(p: Packet, c: Config) {
    c.FingerTouch(p.z) && 4 <= p.w <= 5 && c.zone.Contains(p.x, p.y)
  }

  /** Two taps in the disable zone switch the pad off and on. */
  function DisableZone(s: Pad, p: Packet, c: Config): (s': Pad) {
    if !c.zoneEnabled then s
    else match s.mode
      case NoTouch =>
        if StartsTap(p, c) then s.(touchTime := p.now, mode := Wait1Release) else s
      case Wait1Release =>
        if p.z < c.zFinger then
          if Since(p.now, s.touchTime) < c.maxTapTime then s.(untouchTime := p.now, mode := Wait2Tap)
          else s.(mode := NoTouch)
        else if !c.zone.Contains(p.x, p.y) then s.(mode := NoTouch)
        else s
      case Wait2Tap =>
        if !c.FingerTouch(p.z) then s
        else if StartsTap(p, c) && Since(p.now, s.untouchTime) < c.maxDragTime then
          s.(touchTime := p.now, mode := Wait2Release)
        else s.(mode := NoTouch)
      case Wait2Release =>
        if p.z < c.zFinger then
          if Since(p.now, s.touchTime) < c.maxTapTime then s.(ignoreAll := !s.ignoreAll, mode := NoTouch)
          else s.(mode := NoTouch)
        else if !c.zone.Contains(p.x, p.y) then s.(mode := NoTouch)
        else s
      case _ => s
  }

  /** The zone keeps the packet for itself. */
  predicate KeptByZone(s: Pad, c: Config) {
    c.zoneEnabled && s.mode.InDisableZone()
  }

  function Oldest(xs: seq<int>): int {
    if xs == [] then 0 else xs[0]
  }

  function Newest(xs: seq<int>): int {
    if xs == [] then 0 else xs[|xs| - 1]
  }

  /** Lifting two fingers in motion starts momentum scrolling; the interval is stored even if it is zero. */
  function StartMomentum(s: Pad, c: Config): (m: MomentumScroll.Momentum) {
    if s.mode.MTouch? && c.momentum && c.momentumTimer != 0 && |s.dyHistory| > c.momentumSamplesMin then
      var interval := Since(Newest(s.timeHistory), Oldest(s.timeHistory));
      if interval != 0 then MomentumScroll.Momentum(c.momentumTimer * Filters.Sum(s.dyHistory), 0, 0, interval)
      else s.momentum.(interval := 0)
    else s.momentum
  }

  function ModeAfterRelease(s: Pad, p: Packet, c: Config): (m: Mode) {
    if Since(p.now, s.touchTime) < c.maxTapTime && c.clicking then
      if s.mode.Drag? || s.mode.DragLock? || ((s.wasTriple || s.wasDouble) && c.rtap) then NoTouch
      else if c.dragging then PreDrag else NoTouch
    else if (s.mode.Drag? || s.mode.DragLock?) && (c.dragLock || s.dragLockTemp != 0 || c.dragTimer) then DragNoTouch
    else NoTouch
  }

  function Release(s: Pad, p: Packet, c: Config): (s': Pad) {
    if p.z < c.zFinger && s.mode.IsTouch() then
      var m := ModeAfterRelease(s, p, c);
      var tapped := Since(p.now, s.touchTime) < c.maxTapTime && c.clicking;
      s.(xRest := 0, yRest := 0, scrollRest := 0, untouchTime := p.now,
         momentum := StartMomentum(s, c), dyHistory := [], timeHistory := [],
         mode := m, dragLockTemp := if !tapped && m.NoTouch? then 0 else s.dragLockTemp,
         wasDouble := false, wasTriple := false)
    else s
  }

  function Distance(a: int, b: int): int {
    if a > b then a - b else b - a
  }

  /** The finger is too far from where it touched; a tap with several fingers may go further. */
  predicate WandersOff(x: int, y: int, several: bool, p: Packet, c: Config) {
    var dx, dy := Distance(p.xraw, x), Distance(p.yraw, y);
    (!several && (dx > c.tapThresh.0 || dy > c.tapThresh.1)) || dx > c.dblThresh.0 || dy > c.dblThresh.1
  }

  /** A second tap that comes too late, and a tap that wanders off, are no taps. */
  function CancelTaps(s: Pad, p: Packet, c: Config): (s': Pad) {
    var mode := if s.mode.PreDrag? && Since(p.now, s.untouchTime) >= c.maxDragTime then NoTouch else s.mode;
    var off := WandersOff(s.touchX, s.touchY, s.wasDouble || s.wasTriple, p, c);
    s.(mode := mode, touchTime := if mode.IsTouch() && c.FingerTouch(p.z) && off then 0 else s.touchTime)
  }

  /** What the motion stage leaves: the pad, the pointer delta before division, and the scroll report, if any. */
  datatype Moved = Moved(pad: Pad, dx: int, dy: int, scrolls: seq<(int, int)>)

  function Still(s: Pad): Moved {
    Moved(s, 0, 0, [])
  }

  predicate Moves(s: Pad, p: Packet, c: Config) {
    && (s.mode.Move? || s.mode.Drag? || s.mode.DragLock?)
    && s.lastF == c.Fingers(p) && (!c.palm || (p.w <= c.wLimit && p.z <= c.zLimit))
    && (!s.mode.Move? || !c.clicking || Since(p.now, s.touchTime) >= c.maxTapTime)
  }

  function MovePointer(s: Pad, p: Packet, c: Config): (r: Moved)
    requires c.Valid()
  {
    var dx, dy := p.x - s.lastX + s.xRest, s.lastY - p.y + s.yRest;
    if Abs(dx) > c.bogusX || Abs(dy) > c.bogusY then Moved(s.(xRest := 0, yRest := 0), 0, 0, [])
    else Moved(s.(xRest := Rem(dx, c.divisorX), yRest := Rem(dy, c.divisorY)), dx, dy, [])
  }

  /** Two or more fingers: does this packet scroll? */
  predicate Scrolls(s: Pad, p: Packet, c: Config) {
    && s.mode.MTouch? && p.w != 1 && s.lastF == c.Fingers(p) && !(c.palm && p.z > c.zLimit)
    && (c.wSticky || p.w > c.wLimit || p.w <= 3) && !Typing(s, p, c)
  }

  /** A scroll axis: the delta with what was carried, or nothing if the axis is off. */
  function AxisDelta(on: bool, delta: int, rest: int): int {
    if on then delta + rest else 0
  }

  /** What is carried to the next packet: everything if the movement is small, else the remainder. */
  function AxisRest(on: bool, d: int, divisor: int, thresh: int): int
    requires on ==> divisor != 0
  {
    if Abs(d) < thresh then d else if on then Rem(d, divisor) else 0
  }

  function AxisReport(on: bool, d: int, divisor: int, thresh: int): int
    requires on ==> divisor != 0
  {
    if Abs(d) < thresh || !on then 0 else Quot(d, divisor)
  }

  /** A stop or a change of direction starts the history anew. */
  function History(deltas: seq<int>, times: seq<int>, dy: int, now: nat): (r: (seq<int>, seq<int>)) {
    var anew := (dy < 0) != (Newest(deltas) < 0) || dy == 0;
    (Filters.Push(if anew then [] else deltas, 32, dy), Filters.Push(if anew then [] else times, 32, now))
  }

  /** Two-finger scrolling apart from the pad: what is carried on, and the report unless neither axis moved enough. */
  datatype Scrolled = Scrolled(yRest: int, xRest: int, scrolls: seq<(int, int)>)

  function ScrollAxes(dy: int, dx: int, c: Config): (r: Scrolled) {
    var onY, onX := c.wvDivisor != 0, c.HorizontalOn();
    var small := (Abs(dy) < c.scrollYThresh || dy == 0) && (Abs(dx) < c.scrollXThresh || dx == 0);
    Scrolled(AxisRest(onY, dy, c.wvDivisor, c.scrollYThresh), AxisRest(onX, dx, c.whDivisor, c.scrollXThresh),
             if small then []
             else [(AxisReport(onY, dy, c.wvDivisor, c.scrollYThresh),
                    AxisReport(onX, dx, c.whDivisor, c.scrollXThresh))])
  }

  function ScrollBoth(s: Pad, p: Packet, c: Config): (r: Moved) {
    var dy := AxisDelta(c.wvDivisor != 0, p.y - s.lastY, s.yRest);
    var dx := AxisDelta(c.HorizontalOn(), s.lastX - p.x, s.xRest);
    var (ds, ts) := History(s.dyHistory, s.timeHistory, dy, p.now);
    var r := ScrollAxes(dy, dx, c);
    Moved(s.(yRest := r.yRest, xRest := r.xRest, dyHistory := ds, timeHistory := ts), 0, 0, r.scrolls)
  }

  /** Edge and circular scrolling with one carried remainder; `vertical` says which axis is reported. */
  function ScrollEdge(s: Pad, delta: int, divisor: int, thresh: int, vertical: bool): (r: Moved)
    requires divisor != 0
  {
    var d := delta + s.scrollRest;
    var report := AxisReport(true, d, divisor, thresh);
    Moved(s.(scrollRest := AxisRest(true, d, divisor, thresh)), 0, 0,
          if Abs(d) < thresh || d == 0 then [] else [if vertical then (report, 0) else (0, report)])
  }

  /** A scroll mode is entered only with a divisor. */
  predicate DivisorsSet(s: Pad, c: Config) {
    && (s.mode.VScroll? ==> c.vScrollDivisor != 0)
    && (s.mode.HScroll? ==> c.hScrollDivisor != 0)
    && (s.mode.CScroll? ==> c.cScrollDivisor != 0)
  }

  function MotionMTouch(s: Pad, p: Packet, c: Config): (r: Moved) {
    if Scrolls(s, p, c) then ScrollBoth(s, p, c)
    else if p.w != 1 && s.lastF == c.Fingers(p) && !(c.palm && p.z > c.zLimit) && !c.wSticky && 3 < p.w <= c.wLimit then
      Still(s.(dyHistory := [], timeHistory := [], mode := Move))
    else Still(s)
  }

  function MotionEdge(s: Pad, p: Packet, c: Config): (r: Moved)
    requires DivisorsSet(s, c) && s.mode.Scrolling()
  {
    var beyond := p.w > c.wLimit || p.z > c.zLimit;
    if s.mode.VScroll? then
      if !c.vSticky && (p.x < c.rightEdge || beyond) then Still(s.(mode := NoTouch))
      else if Typing(s, p, c) then Still(s)
      else ScrollEdge(s, p.y - s.lastY, c.vScrollDivisor, c.scrollYThresh, true)
    else if s.mode.HScroll? then
      if !c.hSticky && (p.y > c.bottomEdge || beyond) then Still(s.(mode := NoTouch))
      else if Typing(s, p, c) then Still(s)
      else ScrollEdge(s, s.lastX - p.x, c.hScrollDivisor, c.scrollXThresh, false)
    else
      if Typing(s, p, c) then Still(s)
      else
        ScrollEdge(s, (if p.y < c.centerY then p.x - s.lastX else s.lastX - p.x) +
                      (if p.x < c.centerX then s.lastY - p.y else p.y - s.lastY),
                   c.cScrollDivisor, c.scrollXThresh, true)
  }

  function Motion(s: Pad, p: Packet, c: Config): (r: Moved)
    requires c.Valid() && DivisorsSet(s, c)
  {
    if s.mode.MTouch? then MotionMTouch(s, p, c)
    else if s.mode.Scrolling() then MotionEdge(s, p, c)
    else if Moves(s, p, c) then MovePointer(s, p, c)
    else Still(s)
  }

  /** A touch is timed for taps, and stops momentum scrolling. */
  function Touch(s: Pad, p: Packet, c: Config): (s': Pad) {
    if !c.FingerTouch(p.z) then s
    else
      var counts := !Typing(s, p, c) && s.momentum.current == 0;
      var starts := counts && !s.mode.IsTouch();
      s.(touchTime := if starts then p.now else s.touchTime,
         touchX := if starts then p.x else s.touchX, touchY := if starts then p.y else s.touchY,
         wasDouble := s.wasDouble || (counts && p.w == 0),
         wasTriple := s.wasTriple || (counts && p.w == 1 && c.buttonCount >= 3),
         momentum := s.momentum.(current := 0))
  }

  predicate CircularTrigger(p: Packet, c: Config) {
    var top, right, bottom, left := p.y > c.topEdge, p.x > c.rightEdge, p.y < c.bottomEdge, p.x < c.leftEdge;
    || (top && (c.cTrigger == 1 || c.cTrigger == 9)) || (top && right && c.cTrigger == 2)
    || (right && (c.cTrigger == 3 || c.cTrigger == 9)) || (right && bottom && c.cTrigger == 4)
    || (bottom && (c.cTrigger == 5 || c.cTrigger == 9)) || (bottom && left && c.cTrigger == 6)
    || (left && (c.cTrigger == 7 || c.cTrigger == 9)) || (left && top && c.cTrigger == 8)
  }

  /** Drags, two fingers, and circular scrolling. */
  function TouchSwitch(mode: Mode, p: Packet, c: Config): (m: Mode) {
    var touch := c.FingerTouch(p.z);
    var m1 := if mode.PreDrag? && touch then Drag else mode;
    var m2 := if m1.DragNoTouch? && touch then DragLock else m1;
    var m3 := if !m2.MTouch? && (p.w > c.wLimit || p.w < 2) && touch then MTouch else m2;
    if c.scroll && c.cScrollDivisor != 0 && m3.NoTouch? && p.z > c.zFinger && CircularTrigger(p, c) then CScroll else m3
  }

  predicate EntersVScroll(mode: Mode, p: Packet, c: Config) {
    && (mode.NoTouch? || (mode.HScroll? && p.y >= c.bottomEdge))
    && p.z > c.zFinger && p.x > c.rightEdge && c.vScrollDivisor != 0 && c.scroll
  }

  predicate EntersHScroll(mode: Mode, p: Packet, c: Config) {
    && (mode.NoTouch? || (mode.VScroll? && p.x <= c.rightEdge))
    && p.z > c.zFinger && p.y < c.bottomEdge && c.hScrollDivisor != 0 && c.hscroll && c.scroll
  }

  /** Edge scrolling and plain moves, and whether an edge was entered. */
  function EdgeSwitch(mode: Mode, p: Packet, c: Config): (r: (Mode, bool)) {
    var toV := EntersVScroll(mode, p, c);
    var m := if toV then VScroll else mode;
    var toH := EntersHScroll(m, p, c);
    var m' := if toH then HScroll else m;
    (if m'.NoTouch? && p.z > c.zFinger then Move else m', toV || toH)
  }

  /** The mode switches at the end of a packet, in the order of the source; entering an edge drops its remainder. */
  function SwitchModes(s: Pad, p: Packet, c: Config): (s': Pad) {
    var (m, entered) := EdgeSwitch(TouchSwitch(s.mode, p, c), p, c);
    s.(mode := m,
       dragLockTemp := if s.mode.PreDrag? && c.FingerTouch(p.z) then p.lockKeys else s.dragLockTemp,
       scrollRest := if entered then 0 else s.scrollRest)
  }

  // ----- The whole packet

  datatype Fate = Dropped | Zoned | Ignored | Handled

  /** `pointer` is the motion report that a handled packet ends with. */
  datatype Outcome = Outcome(pad: Pad, fate: Fate, pointer: (int, int), scrolls: seq<(int, int)>)

  function BeforeMotion(s: Pad, p: Packet, c: Config): (s': Pad) {
    CancelTaps(Release(s, p, c), p, c)
  }

  function AfterMotion(s: Pad, p: Packet, c: Config): (s': Pad) {
    SwitchModes(Touch(s, p, c), p, c).(lastX := p.x, lastY := p.y, lastF := c.Fingers(p))
  }

  /** No stage before the motion stage enters a scroll mode. */
  lemma {:induction false} ZoneKeepsDivisors(s: Pad, p: Packet, c: Config)
    requires DivisorsSet(s, c)
    ensures DivisorsSet(DisableZone(FingerChange(s, p, c), p, c), c)
  {
  }

  lemma {:induction false} ReleaseKeepsDivisors(s: Pad, p: Packet, c: Config)
    requires DivisorsSet(s, c)
    ensures DivisorsSet(BeforeMotion(s, p, c), c)
  {
  }

  /** A packet that gets past the zone and the off switch. */
  function Handle(s: Pad, p: Packet, c: Config): (r: Outcome)
    requires c.Valid() && DivisorsSet(s, c)
  {
    ReleaseKeepsDivisors(s, p, c);
    var m := Motion(BeforeMotion(s, p, c), p, c);
    Outcome(AfterMotion(m.pad, p, c), Handled, (Quot(m.dx, c.divisorX), Quot(m.dy, c.divisorY)), m.scrolls)
  }

  function Dispatch(s: Pad, p: Packet, c: Config): (r: Outcome)
    requires c.Valid() && DivisorsSet(s, c)
  {
    var s1 := FingerChange(s, p, c);
    if OutsideWhenTyping(s1, p, c) then Outcome(s1, Dropped, (0, 0), [])
    else
      var s2 := DisableZone(s1, p, c);
      if KeptByZone(s2, c) then Outcome(s2, Zoned, (0, 0), [])
      else if s2.ignoreAll then Outcome(s2, Ignored, (0, 0), [])
      else
        ZoneKeepsDivisors(s, p, c);
        Handle(s2, p, c)
  }
}
