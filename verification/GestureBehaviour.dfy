/** What a packet does, said of the packet and the pad alone: when the pointer moves, when two fingers or an edge
    scroll, and how a touch begins and ends. */
module GestureBehaviour {
  import opened CInt
  import opened Gesture
  import opened GestureProperties
  import Filters
  import MomentumScroll

  /** The time from `then_` to `now` on a clock of 64 bits. */
  function Elapsed(now: int, then_: int): nat {
    (now - then_) % 0x1_0000_0000_0000_0000
  }

  /** No key was pressed just now, or no setting cares. */
  predicate Calm(s: Pad, p: Packet, c: Config) {
    c.palmWhenTyping || c.outZoneWhenTyping ==> Elapsed(p.now, s.keyTime) >= c.maxAfterTyping
  }

  /** How many fingers the packet shows. */
  function FingerCount(p: Packet, c: Config): int {
    if p.zraw <= c.zFinger then 0 else if p.w >= 4 then 1 else p.w + 2
  }

  /** The pad is on, and a touch goes on with as many fingers as before. */
  predicate GoesOn(s: Pad, p: Packet, c: Config) {
    Calm(s, p, c) && !s.ignoreAll && p.z >= c.zFinger && s.ignoreDeltas == 0 && s.lastF == FingerCount(p, c)
  }

  /** An axis that is off does nothing.  A way below the threshold is carried on as a whole; of a longer one, whole
      units of the divisor are reported, toward zero, and the remainder is carried on. */
  predicate AxisExact(on: bool, units: int, divisor: int, rest: int, way: int, thresh: int) {
    if !on then units == 0 && rest == 0
    else if -thresh < way < thresh then units == 0 && rest == way
    else
      && units * divisor + rest == way
      && Abs(rest) < Abs(divisor)
      && (way >= 0 ==> rest >= 0) && (way <= 0 ==> rest <= 0)
  }

  // ----- The stages that do not matter

  /** A mode that the disable zone's logic leaves alone. */
  predicate Ordinary(m: Mode) {
    m != NoTouch && !m.InDisableZone()
  }

  lemma {:induction false} ZoneStaysOut(s: Pad, p: Packet, c: Config)
    requires Ordinary(s.mode)
    ensures DisableZone(s, p, c) == s
  {
  }

  lemma {:induction false} FingersSame(s: Pad, p: Packet, c: Config)
    requires s.ignoreDeltas == 0 && s.lastF == FingerCount(p, c)
    ensures FingerChange(s, p, c) == s && c.Fingers(p) == s.lastF
  {
  }

  lemma {:induction false} NotWhileTyping(s: Pad, p: Packet, c: Config)
    requires Calm(s, p, c)
    ensures !OutsideWhenTyping(s, p, c) && !Typing(s, p, c)
  {
  }

  /** A packet of a touch that goes on is handled as the pad is. */
  lemma {:induction false} Arrives(s: Pad, p: Packet, c: Config)
    requires Inv(s, c) && Ordinary(s.mode) && GoesOn(s, p, c)
    ensures Dispatch(s, p, c) == Handle(s, p, c)
  {
    FingersSame(s, p, c);
    ZoneStaysOut(s, p, c);
    NotWhileTyping(s, p, c);
  }

  /** The touch point, and whether the finger has gone too far from it for a tap. */
  predicate TooFar(s: Pad, p: Packet, c: Config) {
    var dx, dy := Abs(p.xraw - s.touchX), Abs(p.yraw - s.touchY);
    || (!s.wasDouble && !s.wasTriple && (dx > c.tapThresh.0 || dy > c.tapThresh.1))
    || dx > c.dblThresh.0 || dy > c.dblThresh.1
  }

  /** With the finger down, the stages before motion change at most the time of the touch. */
  lemma {:induction false} BeforeWithFinger(s: Pad, p: Packet, c: Config)
    requires p.z >= c.zFinger && s.mode != PreDrag
    ensures BeforeMotion(s, p, c) ==
            if s.mode.IsTouch() && c.zFinger < p.z < c.zLimit && TooFar(s, p, c) then s.(touchTime := 0) else s
  {
    assert Release(s, p, c) == s;
    assert WandersOff(s.touchX, s.touchY, s.wasDouble || s.wasTriple, p, c) == TooFar(s, p, c);
  }

  /** The stages after motion keep the remainders, and note the position. */
  lemma {:induction false} AfterKeeps(s: Pad, p: Packet, c: Config)
    ensures var a := AfterMotion(s, p, c);
            && a.xRest == s.xRest && a.yRest == s.yRest && a.lastX == p.x && a.lastY == p.y
            && a.lastF == FingerCount(p, c) && a.dyHistory == s.dyHistory && a.timeHistory == s.timeHistory
  {
  }

  // ----- Two fingers

  /** What is reported, at most one pair of units: first vertical, then horizontal. */
  function Reported(scrolls: seq<(int, int)>): (u: (int, int)) {
    if scrolls == [] then (0, 0) else scrolls[0]
  }

  predicate ScrollsExactly(s: Pad, s': Pad, scrolls: seq<(int, int)>, p: Packet, c: Config) {
    && |scrolls| <= 1
    && AxisExact(c.wvDivisor != 0, Reported(scrolls).0, c.wvDivisor, s'.yRest, p.y - s.lastY + s.yRest, c.scrollYThresh)
    && AxisExact(c.whDivisor != 0 && c.hscroll, Reported(scrolls).1, c.whDivisor, s'.xRest, s.lastX - p.x + s.xRest,
                 c.scrollXThresh)
  }

  lemma {:induction false} RemSign(a: int, b: int)
    requires b != 0
    ensures Quot(a, b) * b + Rem(a, b) == a && Abs(Rem(a, b)) < Abs(b)
    ensures a >= 0 ==> Rem(a, b) >= 0
    ensures a <= 0 ==> Rem(a, b) <= 0
    ensures a == 0 ==> Quot(a, b) == 0
  {
    RemBelow(a, b);
    if b > 0 {
      QuotRem(a, b);
    } else {
      NegativeDivisor(Abs(a), b);
      QuotRem(a, -b);
      Negate(Quot(a, -b), b);
      assert Quot(a, b) == -Quot(a, -b);
      assert Quot(a, -b) * -b == -(Quot(a, -b) * b);
    }
  }

  /** One axis: the delta with what was carried, or nothing if the axis is off. */
  lemma {:induction false} AxisIsExact(on: bool, way: int, divisor: int, thresh: int)
    requires on ==> divisor != 0
    ensures var d := if on then way else 0;
            AxisExact(on, AxisReport(on, d, divisor, thresh), divisor, AxisRest(on, d, divisor, thresh), way, thresh)
    ensures var d := if on then way else 0;
            Abs(d) < thresh || d == 0 ==> AxisReport(on, d, divisor, thresh) == 0
  {
    if on {
      RemSign(way, divisor);
    }
  }

  /** The report of both axes, small movements included. */
  lemma {:induction false} AxesReport(dy: int, dx: int, c: Config)
    requires Abs(dy) < c.scrollYThresh || dy == 0 ==>
             AxisReport(c.wvDivisor != 0, dy, c.wvDivisor, c.scrollYThresh) == 0
    requires Abs(dx) < c.scrollXThresh || dx == 0 ==>
             AxisReport(c.HorizontalOn(), dx, c.whDivisor, c.scrollXThresh) == 0
    ensures var r := ScrollAxes(dy, dx, c);
            && |r.scrolls| <= 1
            && Reported(r.scrolls) == (AxisReport(c.wvDivisor != 0, dy, c.wvDivisor, c.scrollYThresh),
                                       AxisReport(c.HorizontalOn(), dx, c.whDivisor, c.scrollXThresh))
  {
  }

  /** Both axes, apart from the pad. */
  lemma {:induction false} AxesAreExact(wayY: int, wayX: int, c: Config)
    ensures var r := ScrollAxes(if c.wvDivisor != 0 then wayY else 0, if c.HorizontalOn() then wayX else 0, c);
            && |r.scrolls| <= 1
            && AxisExact(c.wvDivisor != 0, Reported(r.scrolls).0, c.wvDivisor, r.yRest, wayY, c.scrollYThresh)
            && AxisExact(c.HorizontalOn(), Reported(r.scrolls).1, c.whDivisor, r.xRest, wayX, c.scrollXThresh)
  {
    AxisIsExact(c.wvDivisor != 0, wayY, c.wvDivisor, c.scrollYThresh);
    AxisIsExact(c.HorizontalOn(), wayX, c.whDivisor, c.scrollXThresh);
    AxesReport(if c.wvDivisor != 0 then wayY else 0, if c.HorizontalOn() then wayX else 0, c);
  }

  /** The movements and times since the last stop or turn, at most 32 of them. */
  predicate HistoryExact(s: Pad, s': Pad, p: Packet, c: Config) {
    var dy := if c.wvDivisor != 0 then p.y - s.lastY + s.yRest else 0;
    var turned := dy == 0 || (s.dyHistory != [] && (dy < 0) != (s.dyHistory[|s.dyHistory| - 1] < 0));
    && s'.dyHistory == Filters.Last(32, (if turned then [] else s.dyHistory) + [dy])
    && s'.timeHistory == Filters.Last(32, (if turned then [] else s.timeHistory) + [p.now])
  }

  lemma {:induction false} HistoryIsExact(s: Pad, p: Packet, c: Config)
    requires |s.dyHistory| == |s.timeHistory| <= 32
    ensures HistoryExact(s, ScrollBoth(s, p, c).pad, p, c)
  {
    var dy := if c.wvDivisor != 0 then p.y - s.lastY + s.yRest else 0;
    PushIsLast32(s.dyHistory, dy);
    PushIsLast32(s.timeHistory, p.now);
    PushIsLast32([], dy);
    PushIsLast32([], p.now);
    assert s.dyHistory == [] ==> s.timeHistory == [];
  }

  lemma {:induction false} PushIsLast32(window: seq<int>, x: int)
    requires |window| <= 32
    ensures Filters.Push(window, 32, x) == Filters.Last(32, window + [x])
  {
    Filters.PushIsLast(window, 32, x);
  }

  lemma {:induction false} BothAreExact(s: Pad, p: Packet, c: Config)
    ensures var m := ScrollBoth(s, p, c);
            ScrollsExactly(s, m.pad, m.scrolls, p, c) && m.dx == 0 == m.dy
  {
    AxesAreExact(p.y - s.lastY + s.yRest, s.lastX - p.x + s.xRest, c);
  }

  /** Nothing carried is lost; the mode and its histories go on, or end. */
  predicate Untouched(s: Pad, s': Pad, goesOn: bool) {
    && s'.xRest == s.xRest && s'.yRest == s.yRest
    && if goesOn then s'.mode == MTouch && s'.dyHistory == s.dyHistory && s'.timeHistory == s.timeHistory
       else s'.mode == Move && s'.dyHistory == [] == s'.timeHistory
  }

  /** The two-finger branch of the motion stage. */
  lemma {:induction false} TwoFingerMotion(s: Pad, p: Packet, c: Config)
    requires c.Valid() && DivisorsSet(s, c) && s.mode == MTouch && Calm(s, p, c) && s.lastF == c.Fingers(p)
    requires MomentumOk(s)
    ensures var m := Motion(s, p, c);
            && m.dx == 0 == m.dy
            && if p.w != 1 && !(c.palm && p.z > c.zLimit) && (c.wSticky || p.w > c.wLimit || p.w <= 3)
               then ScrollsExactly(s, m.pad, m.scrolls, p, c) && HistoryExact(s, m.pad, p, c) && m.pad.mode == MTouch
               else m.scrolls == [] && Untouched(s, m.pad, p.w == 1 || (c.palm && p.z > c.zLimit))
  {
    NotWhileTyping(s, p, c);
    BothAreExact(s, p, c);
    HistoryIsExact(s, p, c);
    assert Motion(s, p, c) == MotionMTouch(s, p, c);
  }

  lemma {:induction false} ZeroUnits(c: Config)
    requires c.Valid()
    ensures Quot(0, c.divisorX) == 0 && Quot(0, c.divisorY) == 0
  {
    RemSign(0, c.divisorX);
    RemSign(0, c.divisorY);
  }

  /** In two-finger mode, with the same fingers still down: unless there are three fingers, a palm, or one finger that
      is too narrow, the packet scrolls, and on each axis the units reported and the remainder make up exactly the way
      of the finger with what was carried.  Otherwise it reports nothing and loses nothing; a narrow finger ends the
      mode.  The pointer stays either way. */
  lemma {:induction false} TwoFingersScroll(s: Pad, p: Packet, c: Config)
    requires Inv(s, c) && s.mode == MTouch && GoesOn(s, p, c)
    ensures var r := Dispatch(s, p, c);
            && r.fate.Handled? && r.pointer == (0, 0) && r.pad.lastX == p.x && r.pad.lastY == p.y
            && if p.w != 1 && !(c.palm && p.z > c.zLimit) && (c.wSticky || p.w > c.wLimit || p.w <= 3)
               then ScrollsExactly(s, r.pad, r.scrolls, p, c) && HistoryExact(s, r.pad, p, c) && r.pad.mode == MTouch
               else r.scrolls == [] && Untouched(s, r.pad, p.w == 1 || (c.palm && p.z > c.zLimit))
  {
    Arrives(s, p, c);
    FingersSame(s, p, c);
    BeforeWithFinger(s, p, c);
    ReleaseKeepsDivisors(s, p, c);
    var b := BeforeMotion(s, p, c);
    TwoFingerMotion(b, p, c);
    AfterKeeps(Motion(b, p, c).pad, p, c);
    MovingSwitch(Motion(b, p, c).pad, p, c);
    ZeroUnits(c);
  }

  /** A mode in which fingers move is left at the end of a packet for two-finger mode alone. */
  lemma {:induction false} MovingSwitch(s: Pad, p: Packet, c: Config)
    requires s.mode == MTouch || s.mode == Move || s.mode == Drag || s.mode == DragLock
    ensures AfterMotion(s, p, c).mode ==
            if (p.w > c.wLimit || p.w < 2) && c.zFinger < p.z < c.zLimit then MTouch else s.mode
  {
    assert Touch(s, p, c).mode == s.mode;
  }

  // ----- The pointer

  predicate MovesExactly(s: Pad, s': Pad, pointer: (int, int), p: Packet, c: Config) {
    && AxisExact(true, pointer.0, c.divisorX, s'.xRest, p.x - s.lastX + s.xRest, 0)
    && AxisExact(true, pointer.1, c.divisorY, s'.yRest, s.lastY - p.y + s.yRest, 0)
  }

  /** The first moments of a touch are kept back, in case it is a tap; a finger that has gone too far is none. */
  predicate TapWait(s: Pad, p: Packet, c: Config) {
    var far := c.zFinger < p.z < c.zLimit && TooFar(s, p, c);
    s.mode == Move && c.clicking && Elapsed(p.now, if far then 0 else s.touchTime) < c.maxTapTime
  }

  predicate Bogus(s: Pad, p: Packet, c: Config) {
    Abs(p.x - s.lastX + s.xRest) > c.bogusX || Abs(s.lastY - p.y + s.yRest) > c.bogusY
  }

  lemma {:induction false} PointerIsExact(s: Pad, p: Packet, c: Config)
    requires c.Valid()
    ensures MovePointer(s, p, c).scrolls == [] && MovePointer(s, p, c).pad.mode == s.mode
    ensures var m := MovePointer(s, p, c);
            var pointer := (Quot(m.dx, c.divisorX), Quot(m.dy, c.divisorY));
            if Bogus(s, p, c) then pointer == (0, 0) && m.pad.xRest == 0 == m.pad.yRest
            else MovesExactly(s, m.pad, pointer, p, c)
  {
    RemSign(p.x - s.lastX + s.xRest, c.divisorX);
    RemSign(s.lastY - p.y + s.yRest, c.divisorY);
    ZeroUnits(c);
  }

  /** The branches of the motion stage for the pointer. */
  lemma {:induction false} PointerMotion(s: Pad, b: Pad, p: Packet, c: Config)
    requires c.Valid() && DivisorsSet(b, c) && (s.mode == Move || s.mode == Drag || s.mode == DragLock)
    requires s.lastF == c.Fingers(p)
    requires b == if c.zFinger < p.z < c.zLimit && TooFar(s, p, c) then s.(touchTime := 0) else s
    ensures Motion(b, p, c) ==
            if TapWait(s, p, c) || (c.palm && (p.w > c.wLimit || p.z > c.zLimit)) then Moved(b, 0, 0, [])
            else MovePointer(b, p, c)
  {
  }

  /** Motion and what follows it. */
  lemma {:induction false} PointerStages(s: Pad, b: Pad, p: Packet, c: Config)
    requires c.Valid() && DivisorsSet(b, c) && (s.mode == Move || s.mode == Drag || s.mode == DragLock)
    requires s.lastF == c.Fingers(p)
    requires b == if c.zFinger < p.z < c.zLimit && TooFar(s, p, c) then s.(touchTime := 0) else s
    ensures PointerMoved(s, Motion(b, p, c), p, c)
  {
    PointerMotion(s, b, p, c);
    PointerIsExact(b, p, c);
    ZeroUnits(c);
  }

  predicate PointerMoved(s: Pad, m: Moved, p: Packet, c: Config)
    requires c.Valid()
  {
    var pointer := (Quot(m.dx, c.divisorX), Quot(m.dy, c.divisorY));
    && m.scrolls == [] && m.pad.mode == s.mode
    && if TapWait(s, p, c) || (c.palm && (p.w > c.wLimit || p.z > c.zLimit)) then
         pointer == (0, 0) && m.pad.xRest == s.xRest && m.pad.yRest == s.yRest
       else if Bogus(s, p, c) then pointer == (0, 0) && m.pad.xRest == 0 == m.pad.yRest
       else MovesExactly(s, m.pad, pointer, p, c)
  }

  /** What a packet that may move the pointer comes to. */
  predicate PointerResult(s: Pad, r: Outcome, p: Packet, c: Config) {
    && r.fate.Handled? && r.scrolls == [] && r.pad.lastX == p.x && r.pad.lastY == p.y
    && r.pad.mode == (if (p.w > c.wLimit || p.w < 2) && c.zFinger < p.z < c.zLimit then MTouch else s.mode)
    && if TapWait(s, p, c) || (c.palm && (p.w > c.wLimit || p.z > c.zLimit)) then
         r.pointer == (0, 0) && r.pad.xRest == s.xRest && r.pad.yRest == s.yRest
       else if Bogus(s, p, c) then r.pointer == (0, 0) && r.pad.xRest == 0 == r.pad.yRest
       else MovesExactly(s, r.pad, r.pointer, p, c)
  }

  lemma {:induction false} PointerOutcome(s: Pad, m: Moved, a: Pad, p: Packet, c: Config)
    requires c.Valid() && PointerMoved(s, m, p, c)
    requires a.xRest == m.pad.xRest && a.yRest == m.pad.yRest && a.lastX == p.x && a.lastY == p.y
    requires a.mode == if (p.w > c.wLimit || p.w < 2) && c.zFinger < p.z < c.zLimit then MTouch else s.mode
    ensures PointerResult(s, Outcome(a, Handled, (Quot(m.dx, c.divisorX), Quot(m.dy, c.divisorY)), m.scrolls), p, c)
  {
  }

  lemma {:induction false} PointerHandled(s: Pad, p: Packet, c: Config)
    requires c.Valid() && DivisorsSet(s, c) && (s.mode == Move || s.mode == Drag || s.mode == DragLock)
    requires p.z >= c.zFinger && s.lastF == c.Fingers(p)
    ensures PointerResult(s, Handle(s, p, c), p, c)
  {
    HandledIs(s, p, c);
    BeforeWithFinger(s, p, c);
    var b := BeforeMotion(s, p, c);
    PointerStages(s, b, p, c);
    var m := Motion(b, p, c);
    AfterKeeps(m.pad, p, c);
    MovingSwitch(m.pad, p, c);
    PointerOutcome(s, m, AfterMotion(m.pad, p, c), p, c);
  }

  /** With one finger, or in a drag, and the same fingers still down: unless the touch may still become a tap, or looks
      like a palm, the pointer moves, and on each axis the units reported and the remainder make up exactly the way of
      the finger with what was carried; a jump too long to be true moves nothing and drops what was carried.  A touch
      with more fingers, or a wide one, leads to two-finger mode. */
  lemma {:induction false} FingerMovesPointer(s: Pad, p: Packet, c: Config)
    requires Inv(s, c) && (s.mode == Move || s.mode == Drag || s.mode == DragLock) && GoesOn(s, p, c)
    ensures PointerResult(s, Dispatch(s, p, c), p, c)
  {
    Arrives(s, p, c);
    FingersSame(s, p, c);
    PointerHandled(s, p, c);
  }

  // ----- Edges

  /** The way that counts along an edge, or around the pad: up the right edge, left along the bottom edge, and clockwise
      or not around the centre. */
  function EdgeWay(s: Pad, p: Packet, c: Config): int {
    s.scrollRest +
    if s.mode == VScroll then p.y - s.lastY
    else if s.mode == HScroll then s.lastX - p.x
    else
      (if p.y < c.centerY then p.x - s.lastX else s.lastX - p.x) +
      (if p.x < c.centerX then s.lastY - p.y else p.y - s.lastY)
  }

  function EdgeDivisor(m: Mode, c: Config): int {
    if m == VScroll then c.vScrollDivisor else if m == HScroll then c.hScrollDivisor else c.cScrollDivisor
  }

  /** The finger is still where the edge is, unless it need not be. */
  predicate OnEdge(m: Mode, p: Packet, c: Config) {
    || m == CScroll
    || (m == VScroll && (c.vSticky || (p.x >= c.rightEdge && p.w <= c.wLimit && p.z <= c.zLimit)))
    || (m == HScroll && (c.hSticky || (p.y <= c.bottomEdge && p.w <= c.wLimit && p.z <= c.zLimit)))
  }

  /** The mode after a packet on an edge: two fingers leave it for two-finger mode, and the corner leads from one edge
      to the other. */
  function EdgeTurns(m: Mode, p: Packet, c: Config): Mode {
    if (p.w > c.wLimit || p.w < 2) && c.zFinger < p.z < c.zLimit then MTouch
    else if m == HScroll && p.z > c.zFinger && p.y >= c.bottomEdge && p.x > c.rightEdge && c.vScrollDivisor != 0
            && c.scroll
    then VScroll
    else if m == VScroll && p.z > c.zFinger && p.x <= c.rightEdge && p.y < c.bottomEdge && c.hScrollDivisor != 0
            && c.hscroll && c.scroll
    then HScroll
    else m
  }

  lemma {:induction false} EdgeSwitches(s: Pad, p: Packet, c: Config)
    requires s.mode.Scrolling()
    ensures AfterMotion(s, p, c).mode == EdgeTurns(s.mode, p, c)
    ensures AfterMotion(s, p, c).scrollRest ==
            if EdgeTurns(s.mode, p, c) == s.mode || EdgeTurns(s.mode, p, c) == MTouch then s.scrollRest else 0
  {
    assert Touch(s, p, c).mode == s.mode;
  }

  function EdgeThresh(m: Mode, c: Config): int {
    if m == VScroll then c.scrollYThresh else c.scrollXThresh
  }

  /** Units on the axis of the edge alone, and those of the way with what was carried. */
  predicate EdgeExact(s: Pad, rest: int, scrolls: seq<(int, int)>, p: Packet, c: Config) {
    var (vertical, horizontal) := Reported(scrolls);
    var (units, other) := if s.mode == HScroll then (horizontal, vertical) else (vertical, horizontal);
    |scrolls| <= 1 && other == 0
    && AxisExact(true, units, EdgeDivisor(s.mode, c), rest, EdgeWay(s, p, c), EdgeThresh(s.mode, c))
  }

  /** What is left to carry on. */
  function EdgeLeft(s: Pad, scrolls: seq<(int, int)>, p: Packet, c: Config): int {
    var units := if s.mode == HScroll then Reported(scrolls).1 else Reported(scrolls).0;
    EdgeWay(s, p, c) - units * EdgeDivisor(s.mode, c)
  }

  /** The units are those of the way; what is left is carried on, unless a corner leads to the other edge. */
  predicate EdgeScrolled(s: Pad, s': Pad, scrolls: seq<(int, int)>, p: Packet, c: Config) {
    && EdgeExact(s, EdgeLeft(s, scrolls, p, c), scrolls, p, c)
    && s'.mode == EdgeTurns(s.mode, p, c)
    && s'.scrollRest == if s'.mode == s.mode || s'.mode == MTouch then EdgeLeft(s, scrolls, p, c) else 0
  }

  /** The branches of the motion stage for edges. */
  lemma {:induction false} EdgeMotion(s: Pad, p: Packet, c: Config)
    requires c.Valid() && DivisorsSet(s, c) && s.mode.Scrolling() && Calm(s, p, c)
    ensures Motion(s, p, c) ==
            if OnEdge(s.mode, p, c) then
              ScrollEdge(s, EdgeWay(s, p, c) - s.scrollRest, EdgeDivisor(s.mode, c), EdgeThresh(s.mode, c),
                         s.mode != HScroll)
            else Moved(s.(mode := NoTouch), 0, 0, [])
  {
    NotWhileTyping(s, p, c);
    assert Motion(s, p, c) == MotionEdge(s, p, c);
  }

  lemma {:induction false} EdgeIsExact(s: Pad, p: Packet, c: Config)
    requires DivisorsSet(s, c) && s.mode.Scrolling()
    ensures var m := ScrollEdge(s, EdgeWay(s, p, c) - s.scrollRest, EdgeDivisor(s.mode, c), EdgeThresh(s.mode, c),
                                s.mode != HScroll);
            && EdgeExact(s, EdgeLeft(s, m.scrolls, p, c), m.scrolls, p, c)
            && m.pad.scrollRest == EdgeLeft(s, m.scrolls, p, c)
            && m.dx == 0 == m.dy && m.pad.mode == s.mode
  {
    AxisIsExact(true, EdgeWay(s, p, c), EdgeDivisor(s.mode, c), EdgeThresh(s.mode, c));
  }

  /** Motion and what follows it. */
  lemma {:induction false} EdgeStages(s: Pad, p: Packet, c: Config)
    requires c.Valid() && DivisorsSet(s, c) && s.mode.Scrolling() && Calm(s, p, c)
    ensures var m := Motion(s, p, c);
            && m.dx == 0 == m.dy
            && if OnEdge(s.mode, p, c) then
                 EdgeScrolled(s, AfterMotion(m.pad, p, c), m.scrolls, p, c)
               else m.scrolls == []
  {
    EdgeMotion(s, p, c);
    if OnEdge(s.mode, p, c) {
      EdgeIsExact(s, p, c);
      EdgeSwitches(Motion(s, p, c).pad, p, c);
    }
  }

  /** What the handled packet is made of. */
  lemma {:induction false} HandledIs(s: Pad, p: Packet, c: Config)
    requires c.Valid() && DivisorsSet(s, c)
    ensures DivisorsSet(BeforeMotion(s, p, c), c)
    ensures var m := Motion(BeforeMotion(s, p, c), p, c);
            var r := Handle(s, p, c);
            && r.fate.Handled? && r.pad == AfterMotion(m.pad, p, c) && r.scrolls == m.scrolls
            && r.pointer == (Quot(m.dx, c.divisorX), Quot(m.dy, c.divisorY))
  {
    ReleaseKeepsDivisors(s, p, c);
  }

  lemma {:induction false} EdgeHandled(s: Pad, p: Packet, c: Config)
    requires c.Valid() && DivisorsSet(s, c) && s.mode.Scrolling() && Calm(s, p, c) && p.z >= c.zFinger
    ensures var r := Handle(s, p, c);
            && r.fate.Handled? && r.pointer == (0, 0)
            && if OnEdge(s.mode, p, c) then EdgeScrolled(s, r.pad, r.scrolls, p, c) else r.scrolls == []
  {
    HandledIs(s, p, c);
    BeforeWithFinger(s, p, c);
    EdgeStages(BeforeMotion(s, p, c), p, c);
    ZeroUnits(c);
  }

  /** Along an edge, or around the pad, and on it: the units reported, on the axis of that edge alone, are those of the
      way with what was carried.  Away from the edge nothing is reported. */
  lemma {:induction false} EdgeScrolls(s: Pad, p: Packet, c: Config)
    requires Inv(s, c) && s.mode.Scrolling() && GoesOn(s, p, c)
    ensures var r := Dispatch(s, p, c);
            && r.fate.Handled? && r.pointer == (0, 0)
            && if OnEdge(s.mode, p, c) then EdgeScrolled(s, r.pad, r.scrolls, p, c) else r.scrolls == []
  {
    Arrives(s, p, c);
    EdgeHandled(s, p, c);
  }

  // ----- How a touch begins

  /** The mode that a first touch leads to: two-finger mode, circular scrolling, an edge, or moving. */
  function FirstMode(p: Packet, c: Config): Mode {
    if p.w > c.wLimit || p.w < 2 then MTouch
    else if c.scroll && c.cScrollDivisor != 0 && CircularTrigger(p, c) then CScroll
    else if c.scroll && c.vScrollDivisor != 0 && p.x > c.rightEdge then VScroll
    else if c.scroll && c.hscroll && c.hScrollDivisor != 0 && p.y < c.bottomEdge then HScroll
    else Move
  }

  lemma {:induction false} RestThroughMotion(s: Pad, p: Packet, c: Config)
    requires c.Valid() && DivisorsSet(s, c) && (s.mode == NoTouch || s.mode == PreDrag || s.mode == DragNoTouch)
    ensures Motion(s, p, c) == Moved(s, 0, 0, [])
  {
  }

  /** With no finger before, the packets' stages up to motion do nothing, except that a second tap may come too late. */
  lemma {:induction false} RestBeforeMotion(s: Pad, p: Packet, c: Config)
    requires s.mode == NoTouch || s.mode == PreDrag || s.mode == DragNoTouch
    ensures BeforeMotion(s, p, c) ==
            if s.mode == PreDrag && Elapsed(p.now, s.untouchTime) >= c.maxDragTime then s.(mode := NoTouch) else s
  {
    assert Release(s, p, c) == s;
  }

  lemma {:induction false} FirstSwitch(s: Pad, p: Packet, c: Config)
    requires s.mode == NoTouch && c.zFinger < p.z < c.zLimit
    ensures SwitchModes(s, p, c).mode == FirstMode(p, c)
    ensures FirstMode(p, c) == VScroll || FirstMode(p, c) == HScroll ==> SwitchModes(s, p, c).scrollRest == 0
  {
  }

  /** A touch stops momentum scrolling.  If there was none to stop, its beginning is noted, and whether two or three
      fingers were ever part of it. */
  lemma {:induction false} TouchNotes(s: Pad, p: Packet, c: Config)
    requires c.zFinger < p.z < c.zLimit && Calm(s, p, c)
    ensures var t := Touch(s, p, c);
            var counts := s.momentum.current == 0;
            && t.mode == s.mode && t.momentum == s.momentum.(current := 0)
            && (if counts && !s.mode.IsTouch() then (t.touchTime, t.touchX, t.touchY) == (p.now, p.x, p.y)
                else (t.touchTime, t.touchX, t.touchY) == (s.touchTime, s.touchX, s.touchY))
            && (t.wasDouble <==> s.wasDouble || (counts && p.w == 0))
            && (t.wasTriple <==> s.wasTriple || (counts && p.w == 1 && c.buttonCount >= 3))
  {
    NotWhileTyping(s, p, c);
  }

  /** What a packet does to a pad without a finger on it, past the zone. */
  lemma {:induction false} HandledAtRest(s: Pad, p: Packet, c: Config)
    requires c.Valid() && DivisorsSet(s, c) && (s.mode == NoTouch || s.mode == PreDrag || s.mode == DragNoTouch)
    ensures var late := s.mode == PreDrag && Elapsed(p.now, s.untouchTime) >= c.maxDragTime;
            var r := Handle(s, p, c);
            && r.pad == AfterMotion(if late then s.(mode := NoTouch) else s, p, c)
            && r.scrolls == [] && r.pointer == (0, 0)
  {
    ReleaseKeepsDivisors(s, p, c);
    RestBeforeMotion(s, p, c);
    RestThroughMotion(BeforeMotion(s, p, c), p, c);
    ZeroUnits(c);
  }

  /** A touch on a pad at rest, outside the disable zone or with it off: it leads to the mode of its place and width,
      reports nothing, stops momentum scrolling, and is timed as a tap unless it stopped something. */
  lemma {:induction false} TouchBegins(s: Pad, p: Packet, c: Config)
    requires Inv(s, c) && s.mode == NoTouch && Calm(s, p, c) && !s.ignoreAll && c.zFinger < p.z < c.zLimit
    requires !(c.zoneEnabled && 4 <= p.w <= 5 && c.zone.Contains(p.x, p.y))
    ensures var r := Dispatch(s, p, c);
            && r.fate.Handled? && r.scrolls == [] && r.pointer == (0, 0)
            && r.pad.mode == FirstMode(p, c) && r.pad.momentum.current == 0
            && (r.pad.mode == VScroll || r.pad.mode == HScroll ==> r.pad.scrollRest == 0)
            && (s.momentum.current == 0 ==> r.pad.touchTime == p.now && r.pad.touchX == p.x && r.pad.touchY == p.y)
  {
    var s1 := FingerChange(s, p, c);
    assert s1.mode == NoTouch && s1.keyTime == s.keyTime && s1.momentum == s.momentum && !s1.ignoreAll;
    NotWhileTyping(s1, p, c);
    assert DisableZone(s1, p, c) == s1;
    ZoneKeepsDivisors(s, p, c);
    HandledAtRest(s1, p, c);
    TouchNotes(s1, p, c);
    FirstSwitch(Touch(s1, p, c), p, c);
  }

  /** A touch soon after a tap becomes a drag, and one during a drag that is kept going goes on with it; two fingers
      make it two-finger mode instead. */
  lemma {:induction false} TouchDrags(s: Pad, p: Packet, c: Config)
    requires Inv(s, c) && Calm(s, p, c) && !s.ignoreAll && c.zFinger < p.z < c.zLimit
    requires s.mode == DragNoTouch || (s.mode == PreDrag && Elapsed(p.now, s.untouchTime) < c.maxDragTime)
    ensures var r := Dispatch(s, p, c);
            && r.fate.Handled? && r.scrolls == [] && r.pointer == (0, 0) && r.pad.momentum.current == 0
            && r.pad.mode == (if p.w > c.wLimit || p.w < 2 then MTouch
                              else if s.mode == PreDrag then Drag else DragLock)
            && (s.mode == PreDrag ==> r.pad.dragLockTemp == p.lockKeys)
  {
    var s1 := FingerChange(s, p, c);
    assert s1.mode == s.mode && s1.keyTime == s.keyTime && s1.untouchTime == s.untouchTime && !s1.ignoreAll;
    NotWhileTyping(s1, p, c);
    ZoneStaysOut(s1, p, c);
    ZoneKeepsDivisors(s, p, c);
    HandledAtRest(s1, p, c);
    TouchNotes(s1, p, c);
    DragSwitch(Touch(s1, p, c), p, c);
  }

  lemma {:induction false} DragSwitch(s: Pad, p: Packet, c: Config)
    requires (s.mode == PreDrag || s.mode == DragNoTouch) && c.zFinger < p.z < c.zLimit
    ensures SwitchModes(s, p, c).mode ==
            if p.w > c.wLimit || p.w < 2 then MTouch else if s.mode == PreDrag then Drag else DragLock
    ensures s.mode == PreDrag ==> SwitchModes(s, p, c).dragLockTemp == p.lockKeys
    ensures SwitchModes(s, p, c).momentum == s.momentum
  {
  }

  // ----- How a touch ends

  /** The mode that a touch leaves behind. */
  function LiftedMode(s: Pad, p: Packet, c: Config): Mode {
    var dragged := s.mode == Drag || s.mode == DragLock;
    var tap := c.clicking && Elapsed(p.now, s.touchTime) < c.maxTapTime;
    if tap && !dragged && !(c.rtap && (s.wasDouble || s.wasTriple)) && c.dragging && c.maxDragTime > 0 then PreDrag
    else if !tap && dragged && (c.dragLock || s.dragLockTemp != 0 || c.dragTimer) then DragNoTouch
    else NoTouch
  }

  /** A drag lock by modifier keys ends with the touch, unless the touch was a tap or the drag is kept going. */
  function LiftedLock(s: Pad, p: Packet, c: Config): int {
    if (c.clicking && Elapsed(p.now, s.touchTime) < c.maxTapTime) || LiftedMode(s, p, c) == DragNoTouch
    then s.dragLockTemp else 0
  }

  /** Scrolling goes on by itself if two fingers leave the pad in motion: timer times the sum of the movements, over the
      time from the first to the last. */
  function LiftedMomentum(s: Pad, c: Config): MomentumScroll.Momentum {
    if s.mode == MTouch && c.momentum && c.momentumTimer != 0 && |s.dyHistory| > c.momentumSamplesMin
       && |s.timeHistory| == |s.dyHistory|
    then
      var time := Elapsed(s.timeHistory[|s.timeHistory| - 1], s.timeHistory[0]);
      if time == 0 then s.momentum.(interval := 0)
      else MomentumScroll.Momentum(c.momentumTimer * Filters.Sum(s.dyHistory), 0, 0, time)
    else s.momentum
  }

  lemma {:induction false} ReleaseIs(s: Pad, p: Packet, c: Config)
    requires MomentumOk(s) && s.mode.IsTouch() && p.z < c.zFinger
    ensures var b := BeforeMotion(s, p, c);
            && b.mode == LiftedMode(s, p, c) && b.momentum == LiftedMomentum(s, c)
            && b.xRest == b.yRest == b.scrollRest == 0 && b.dyHistory == [] == b.timeHistory
            && !b.wasDouble && !b.wasTriple && b.untouchTime == p.now && b.ignoreAll == s.ignoreAll
            && b.dragLockTemp == LiftedLock(s, p, c)
  {
    var r := Release(s, p, c);
    assert r.untouchTime == p.now && Elapsed(p.now, p.now) == 0;
    assert CancelTaps(r, p, c) == r.(mode := if r.mode == PreDrag && c.maxDragTime == 0 then NoTouch else r.mode);
  }

  lemma {:induction false} NothingAfterwards(s: Pad, p: Packet, c: Config)
    requires p.z < c.zFinger
    ensures AfterMotion(s, p, c) == s.(lastX := p.x, lastY := p.y, lastF := FingerCount(p, c))
  {
  }

  /** Lifting the fingers ends the touch: the mode says what a later touch may become, nothing is carried on, and two
      fingers in motion start momentum scrolling. */
  lemma {:induction false} TouchEnds(s: Pad, p: Packet, c: Config)
    requires Inv(s, c) && s.mode.IsTouch() && !s.mode.InDisableZone() && !s.ignoreAll && p.z < c.zFinger
    ensures var r := Dispatch(s, p, c);
            && r.fate.Handled? && r.scrolls == [] && r.pointer == (0, 0)
            && r.pad.mode == LiftedMode(s, p, c) && r.pad.momentum == LiftedMomentum(s, c)
            && r.pad.xRest == r.pad.yRest == r.pad.scrollRest == 0
            && r.pad.dyHistory == [] == r.pad.timeHistory && !r.pad.wasDouble && !r.pad.wasTriple
            && r.pad.untouchTime == p.now
            && r.pad.dragLockTemp == LiftedLock(s, p, c)
  {
    var s1 := FingerChange(s, p, c);
    assert s1 == s.(ignoreDeltas := s1.ignoreDeltas, lastX := s1.lastX, lastY := s1.lastY);
    ZoneStaysOut(s1, p, c);
    ZoneKeepsDivisors(s, p, c);
    ReleaseIs(s1, p, c);
    ReleaseKeepsDivisors(s1, p, c);
    var b := BeforeMotion(s1, p, c);
    RestThroughMotion(b, p, c);
    NothingAfterwards(b, p, c);
    ZeroUnits(c);
  }

  /** A tap, and a touch soon after it, make a drag. */
  lemma {:induction false} TapThenTouchDrags(s: Pad, up: Packet, down: Packet, c: Config)
    requires Inv(s, c) && s.mode == Move && !s.ignoreAll && c.clicking && c.dragging && !s.wasDouble && !s.wasTriple
    requires up.z < c.zFinger && Elapsed(up.now, s.touchTime) < c.maxTapTime
    requires c.zFinger < down.z < c.zLimit && 2 <= down.w <= c.wLimit && Elapsed(down.now, up.now) < c.maxDragTime
    requires Calm(s, down, c)
    ensures var s1 := Dispatch(s, up, c).pad;
            Inv(s1, c) && s1.mode == PreDrag && Dispatch(s1, down, c).pad.mode == Drag
  {
    TouchEnds(s, up, c);
    DispatchKeeps(s, up, c);
    LiftKeeps(s, up, c);
    TouchDrags(Dispatch(s, up, c).pad, down, c);
  }

  lemma {:induction false} LiftKeeps(s: Pad, p: Packet, c: Config)
    requires Inv(s, c) && Ordinary(s.mode) && !s.ignoreAll && p.z < c.zFinger
    ensures Dispatch(s, p, c).pad.keyTime == s.keyTime && !Dispatch(s, p, c).pad.ignoreAll
  {
    var s1 := FingerChange(s, p, c);
    assert s1.keyTime == s.keyTime && s1.mode == s.mode && !s1.ignoreAll;
    ZoneStaysOut(s1, p, c);
    ZoneKeepsDivisors(s, p, c);
    HandleKeepsSwitch(s1, p, c);
    KeyTimeStays(s1, p, c);
  }

  lemma {:induction false} KeyTimeStays(s: Pad, p: Packet, c: Config)
    requires c.Valid() && DivisorsSet(s, c)
    ensures Handle(s, p, c).pad.keyTime == s.keyTime
  {
    ReleaseKeepsDivisors(s, p, c);
    var b := BeforeMotion(s, p, c);
    KeyTimeAround(s, p, c);
    KeyTimeInMotion(b, p, c);
    KeyTimeAround(Motion(b, p, c).pad, p, c);
  }

  lemma {:induction false} KeyTimeAround(s: Pad, p: Packet, c: Config)
    ensures BeforeMotion(s, p, c).keyTime == s.keyTime && AfterMotion(s, p, c).keyTime == s.keyTime
  {
  }

  lemma {:induction false} KeyTimeInMotion(s: Pad, p: Packet, c: Config)
    requires c.Valid() && DivisorsSet(s, c)
    ensures Motion(s, p, c).pad.keyTime == s.keyTime
  {
    if s.mode == MTouch {
      assert Motion(s, p, c) == MotionMTouch(s, p, c);
    } else if s.mode.Scrolling() {
      assert Motion(s, p, c) == MotionEdge(s, p, c);
    }
  }

  // ----- Packets that do nothing

  /** A touch outside the typing zone shortly after a key changes no mode and reports nothing. */
  lemma {:induction false} TypingDrops(s: Pad, p: Packet, c: Config)
    requires Inv(s, c) && c.outZoneWhenTyping && p.z > c.zFinger && Elapsed(p.now, s.keyTime) < c.maxAfterTyping
    requires p.x < c.typingZone.left || p.x > c.typingZone.right || p.y < c.typingZone.bottom || p.y > c.typingZone.top
    ensures var r := Dispatch(s, p, c);
            && r.fate.Dropped? && r.scrolls == [] && r.pointer == (0, 0)
            && r.pad.mode == s.mode && r.pad.touchTime == s.touchTime
  {
  }

  /** A pad that is off reports nothing, and stays off, outside the disable zone's modes. */
  lemma {:induction false} OffReportsNothing(s: Pad, p: Packet, c: Config)
    requires Inv(s, c) && Ordinary(s.mode) && s.ignoreAll
    ensures var r := Dispatch(s, p, c);
            r.scrolls == [] && r.pointer == (0, 0) && r.pad.ignoreAll && r.pad.mode == s.mode
  {
    var s1 := FingerChange(s, p, c);
    assert s1.mode == s.mode && s1.ignoreAll;
    ZoneStaysOut(s1, p, c);
  }

  /** When the number of fingers changes, the packet moves and two-finger-scrolls nothing; if deltas are to be ignored
      for a while, the count starts, and the position is taken anew. */
  lemma {:induction false} FingerChangeFreezes(s: Pad, p: Packet, c: Config)
    requires Inv(s, c) && Ordinary(s.mode) && !s.mode.Scrolling() && Calm(s, p, c) && !s.ignoreAll && p.z >= c.zFinger
    requires s.lastF > 0 && FingerCount(p, c) > 0 && s.lastF != FingerCount(p, c)
    ensures var r := Dispatch(s, p, c);
            && r.scrolls == [] && r.pointer == (0, 0) && r.pad.lastX == p.x && r.pad.lastY == p.y
            && (c.ignoreDeltasStart > 0 ==> r.pad.ignoreDeltas == c.ignoreDeltasStart - 1)
  {
    var s1 := FingerChange(s, p, c);
    assert s1 == s.(ignoreDeltas := s1.ignoreDeltas, lastX := s1.lastX, lastY := s1.lastY);
    assert c.ignoreDeltasStart > 0 ==> s1.ignoreDeltas == c.ignoreDeltasStart - 1;
    NotWhileTyping(s1, p, c);
    ZoneStaysOut(s1, p, c);
    ZoneKeepsDivisors(s, p, c);
    ReleaseKeepsDivisors(s1, p, c);
    FrozenMotion(s1, p, c);
    AfterKeeps(Motion(BeforeMotion(s1, p, c), p, c).pad, p, c);
    ZeroUnits(c);
  }

  lemma {:induction false} FrozenMotion(s: Pad, p: Packet, c: Config)
    requires c.Valid() && DivisorsSet(BeforeMotion(s, p, c), c) && !s.mode.Scrolling() && s.lastF != FingerCount(p, c)
    requires p.z >= c.zFinger
    ensures var m := Motion(BeforeMotion(s, p, c), p, c);
            m.scrolls == [] && m.dx == 0 == m.dy && m.pad.ignoreDeltas == s.ignoreDeltas
  {
    assert Release(s, p, c) == s;
    var b := BeforeMotion(s, p, c);
    assert b.lastF == s.lastF && b.ignoreDeltas == s.ignoreDeltas && !b.mode.Scrolling();
  }

  /** While deltas are ignored, a packet does what it would do if the finger had not moved, and counts down. */
  lemma {:induction false} IgnoredPacket(s: Pad, p: Packet, c: Config)
    requires Inv(s, c) && s.lastF == FingerCount(p, c) && s.ignoreDeltas > 0
    ensures FingerChange(s, p, c) == s.(lastX := p.x, lastY := p.y, ignoreDeltas := s.ignoreDeltas - 1)
    ensures var still := s.(lastX := p.x, lastY := p.y, ignoreDeltas := 0);
            && Inv(still, c) && FingerChange(still, p, c) == still
  {
    FingersSame(s.(ignoreDeltas := 0), p, c);
  }

  /** Shortly after a key, if palms are to be ignored then, two fingers and edges do not scroll. */
  lemma {:induction false} TypingStopsScrolling(s: Pad, p: Packet, c: Config)
    requires Inv(s, c) && (s.mode == MTouch || s.mode.Scrolling())
    requires c.palmWhenTyping && Elapsed(p.now, s.keyTime) < c.maxAfterTyping
    ensures Dispatch(s, p, c).scrolls == []
  {
    var s1 := FingerChange(s, p, c);
    assert s1.mode == s.mode && s1.keyTime == s.keyTime;
    if !OutsideWhenTyping(s1, p, c) {
      ZoneStaysOut(s1, p, c);
      if !s1.ignoreAll {
        ZoneKeepsDivisors(s, p, c);
        ReleaseKeepsDivisors(s1, p, c);
        TypingMotion(s1, p, c);
      }
    }
  }

  lemma {:induction false} TypingMotion(s: Pad, p: Packet, c: Config)
    requires c.Valid() && DivisorsSet(BeforeMotion(s, p, c), c) && (s.mode == MTouch || s.mode.Scrolling())
    requires Typing(s, p, c)
    ensures Motion(BeforeMotion(s, p, c), p, c).scrolls == []
  {
    var b := BeforeMotion(s, p, c);
    KeyTimeAround(s, p, c);
    assert Typing(b, p, c);
    assert b.mode == s.mode || !b.mode.IsTouch();
  }
}
