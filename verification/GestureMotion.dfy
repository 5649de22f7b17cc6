/** Whole gestures: motion is conserved over runs of packets, and a double tap in the disable zone works. */
module GestureMotion {
  import opened CInt
  import opened Gesture
  import opened GestureProperties

  // ----- Conservation of motion

  /** The pad that the motion stage works on. */
  function AtMotion(s: Pad, p: Packet, c: Config): Pad {
    BeforeMotion(DisableZone(FingerChange(s, p, c), p, c), p, c)
  }

  /** Nothing rejects or ignores the packet before the motion stage. */
  predicate Undisturbed(s: Pad, p: Packet, c: Config)
    requires Inv(s, c)
  {
    Dispatch(s, p, c).fate.Handled? && FingerChange(s, p, c) == s
  }

  /** The packet moves the pointer, by a believable amount. */
  predicate PlainMove(s: Pad, p: Packet, c: Config)
    requires Inv(s, c)
  {
    var b := AtMotion(s, p, c);
    && Undisturbed(s, p, c) && Moves(b, p, c)
    && Abs(p.x - b.lastX + b.xRest) <= c.bogusX && Abs(b.lastY - p.y + b.yRest) <= c.bogusY
  }

  /** The packet scrolls with two fingers. */
  predicate PlainScroll(s: Pad, p: Packet, c: Config)
    requires Inv(s, c)
  {
    Undisturbed(s, p, c) && Scrolls(AtMotion(s, p, c), p, c)
  }

  /** Position and remainders are the same. */
  predicate SameCarry(a: Pad, b: Pad) {
    a.lastX == b.lastX && a.lastY == b.lastY && a.xRest == b.xRest && a.yRest == b.yRest
  }

  lemma {:induction false} ZoneCarries(s: Pad, p: Packet, c: Config)
    ensures SameCarry(DisableZone(s, p, c), s)
  {
  }

  lemma {:induction false} ReleaseCarries(s: Pad, p: Packet, c: Config)
    requires BeforeMotion(s, p, c).mode.IsTouch()
    ensures SameCarry(BeforeMotion(s, p, c), s)
  {
    assert Release(s, p, c) == s;
  }

  /** With a finger mode at the motion stage there was no release, so nothing carried has been lost. */
  lemma {:induction false} CarriedToMotion(s: Pad, p: Packet, c: Config)
    requires FingerChange(s, p, c) == s && AtMotion(s, p, c).mode.IsTouch()
    ensures SameCarry(AtMotion(s, p, c), s)
  {
    ZoneCarries(s, p, c);
    ReleaseCarries(DisableZone(s, p, c), p, c);
  }

  lemma {:induction false} AfterMotionCarries(s: Pad, p: Packet, c: Config)
    ensures var a := AfterMotion(s, p, c);
            a.xRest == s.xRest && a.yRest == s.yRest && a.lastX == p.x && a.lastY == p.y
  {
  }

  /** What the handled packet is made of. */
  lemma {:induction false} DispatchedMotion(s: Pad, p: Packet, c: Config)
    requires Inv(s, c) && Undisturbed(s, p, c)
    ensures DivisorsSet(AtMotion(s, p, c), c)
    ensures var m := Motion(AtMotion(s, p, c), p, c);
            var r := Dispatch(s, p, c);
            && r.pad == AfterMotion(m.pad, p, c) && r.scrolls == m.scrolls
            && r.pointer == (Quot(m.dx, c.divisorX), Quot(m.dy, c.divisorY))
  {
    ZoneKeepsDivisors(s, p, c);
    ReleaseKeepsDivisors(DisableZone(s, p, c), p, c);
  }

  /** From pad `s` to pad `s'` with pointer units `x`, `y`: the finger went to `p`. */
  predicate MoveBalanced(s: Pad, s': Pad, x: int, y: int, p: Packet, c: Config) {
    && x * c.divisorX + s'.xRest == p.x - s.lastX + s.xRest
    && y * c.divisorY + s'.yRest == s.lastY - p.y + s.yRest
    && s'.lastX == p.x && s'.lastY == p.y
    && Abs(s'.xRest) < Abs(c.divisorX) && Abs(s'.yRest) < Abs(c.divisorY)
  }

  /** The motion stage alone: divisor times units and remainder make up the way. */
  lemma {:induction false} PointerBalances(b: Pad, p: Packet, c: Config)
    requires c.Valid()
    requires Abs(p.x - b.lastX + b.xRest) <= c.bogusX && Abs(b.lastY - p.y + b.yRest) <= c.bogusY
    ensures var m := MovePointer(b, p, c);
            MoveBalanced(b, m.pad.(lastX := p.x, lastY := p.y), Quot(m.dx, c.divisorX), Quot(m.dy, c.divisorY), p, c)
  {
    var m := MovePointer(b, p, c);
    RemBelow(m.dx, c.divisorX);
    RemBelow(m.dy, c.divisorY);
  }

  /** The motion stage and what follows it. */
  lemma {:induction false} PointerStage(b: Pad, p: Packet, c: Config)
    requires c.Valid() && DivisorsSet(b, c) && Moves(b, p, c)
    requires Abs(p.x - b.lastX + b.xRest) <= c.bogusX && Abs(b.lastY - p.y + b.yRest) <= c.bogusY
    ensures var m := Motion(b, p, c);
            MoveBalanced(b, AfterMotion(m.pad, p, c), Quot(m.dx, c.divisorX), Quot(m.dy, c.divisorY), p, c)
  {
    PointerBalances(b, p, c);
    AfterMotionCarries(MovePointer(b, p, c).pad, p, c);
  }

  lemma {:induction false} BalanceCarried(b: Pad, s: Pad, a: Pad, x: int, y: int, p: Packet, c: Config)
    requires MoveBalanced(b, a, x, y, p, c) && SameCarry(b, s)
    ensures MoveBalanced(s, a, x, y, p, c)
  {
  }

  /** Seen from the pad that the motion stage works on. */
  lemma {:induction false} MoveFromMotion(s: Pad, p: Packet, c: Config)
    requires Inv(s, c) && PlainMove(s, p, c)
    ensures var r := Dispatch(s, p, c);
            MoveBalanced(AtMotion(s, p, c), r.pad, r.pointer.0, r.pointer.1, p, c)
  {
    DispatchedMotion(s, p, c);
    PointerStage(AtMotion(s, p, c), p, c);
  }

  lemma {:induction false} MoveCarries(s: Pad, p: Packet, c: Config)
    requires FingerChange(s, p, c) == s && Moves(AtMotion(s, p, c), p, c)
    ensures SameCarry(AtMotion(s, p, c), s)
  {
    assert AtMotion(s, p, c).mode.IsTouch();
    CarriedToMotion(s, p, c);
  }

  /** Such a pad, without saying which. */
  lemma {:induction false} MoveFrom(s: Pad, p: Packet, r: Outcome, c: Config) returns (b: Pad)
    requires MovesTo(s, p, r, c)
    ensures SameCarry(b, s) && MoveBalanced(b, r.pad, r.pointer.0, r.pointer.1, p, c)
  {
    MoveFromMotion(s, p, c);
    MoveCarries(s, p, c);
    b := AtMotion(s, p, c);
  }

  /** `r` is what the packet does, and it moves the pointer. */
  ghost predicate MovesTo(s: Pad, p: Packet, r: Outcome, c: Config) {
    Inv(s, c) && PlainMove(s, p, c) && r == Dispatch(s, p, c)
  }

  lemma {:induction false} MoveStep(s: Pad, p: Packet, r: Outcome, c: Config)
    requires MovesTo(s, p, r, c)
    ensures MoveBalanced(s, r.pad, r.pointer.0, r.pointer.1, p, c)
  {
    var b := MoveFrom(s, p, r, c);
    BalanceCarried(b, s, r.pad, r.pointer.0, r.pointer.1, p, c);
  }

  lemma {:induction false} MovesAddUp(s: Pad, s1: Pad, s2: Pad, x: int, y: int, x': int, y': int,
                                      p: Packet, p': Packet, c: Config)
    requires MoveBalanced(s, s1, x, y, p, c) && MoveBalanced(s1, s2, x', y', p', c)
    ensures MoveBalanced(s, s2, x + x', y + y', p', c)
  {
    AddScaled(x, x', c.divisorX);
    AddScaled(y, y', c.divisorY);
  }

  /** `rs` are the outcomes of the packets `ps`, one after the other, all of them moves. */
  ghost predicate MoveRun(s: Pad, ps: seq<Packet>, rs: seq<Outcome>, c: Config)
    decreases |ps|
  {
    |rs| == |ps| && (ps != [] ==> MovesTo(s, ps[0], rs[0], c) && MoveRun(rs[0].pad, ps[1..], rs[1..], c))
  }

  ghost predicate BalancedRun(s: Pad, ps: seq<Packet>, rs: seq<Outcome>, c: Config)
    decreases |ps|
  {
    |rs| == |ps| &&
    (ps != [] ==>
      && MoveBalanced(s, rs[0].pad, rs[0].pointer.0, rs[0].pointer.1, ps[0], c)
      && BalancedRun(rs[0].pad, ps[1..], rs[1..], c))
  }

  lemma {:induction false} MoveRunBalanced(s: Pad, ps: seq<Packet>, rs: seq<Outcome>, c: Config)
    requires MoveRun(s, ps, rs, c)
    ensures BalancedRun(s, ps, rs, c)
    decreases |ps|
  {
    if ps != [] {
      MoveStep(s, ps[0], rs[0], c);
      MoveRunBalanced(rs[0].pad, ps[1..], rs[1..], c);
    }
  }

  /** The sum of the pointer reports. */
  function PointerTotal(rs: seq<Outcome>): (t: (int, int)) {
    if rs == [] then (0, 0)
    else var (x, y) := PointerTotal(rs[1..]); (rs[0].pointer.0 + x, rs[0].pointer.1 + y)
  }

  lemma {:induction false} MovesTelescope(s: Pad, ps: seq<Packet>, rs: seq<Outcome>, c: Config)
    requires ps != [] && BalancedRun(s, ps, rs, c)
    ensures var (x, y) := PointerTotal(rs); MoveBalanced(s, rs[|rs| - 1].pad, x, y, ps[|ps| - 1], c)
    decreases |ps|
  {
    var r := rs[0];
    if |ps| == 1 {
      assert PointerTotal(rs[1..]) == (0, 0);
    } else {
      MovesTelescope(r.pad, ps[1..], rs[1..], c);
      var (x, y) := PointerTotal(rs[1..]);
      MovesAddUp(s, r.pad, rs[|rs| - 1].pad, r.pointer.0, r.pointer.1, x, y, ps[0], ps[|ps| - 1], c);
    }
  }

  /** Over any run of pointer moves, the units reported times the divisor and the remainder carried make up exactly the
      way the finger went and the remainder carried at the start; and the remainder stays below the divisor. */
  lemma {:induction false} MotionConserved(s: Pad, ps: seq<Packet>, rs: seq<Outcome>, c: Config)
    requires ps != [] && MoveRun(s, ps, rs, c)
    ensures var (x, y) := PointerTotal(rs); MoveBalanced(s, rs[|rs| - 1].pad, x, y, ps[|ps| - 1], c)
  {
    MoveRunBalanced(s, ps, rs, c);
    MovesTelescope(s, ps, rs, c);
  }

  // ----- Conservation of two-finger scrolling

  /** What a scroll axis reports and carries is what it was given. */
  lemma {:induction false} AxisConserves(d: int, divisor: int, thresh: int)
    requires divisor != 0
    ensures AxisReport(true, d, divisor, thresh) * divisor + AxisRest(true, d, divisor, thresh) == d
    ensures Abs(AxisRest(true, d, divisor, thresh)) < Abs(divisor) || Abs(AxisRest(true, d, divisor, thresh)) < thresh
  {
    RemBelow(d, divisor);
  }

  /** The vertical and horizontal units of the scroll reports of one packet. */
  function Units(scrolls: seq<(int, int)>): (int, int) {
    if scrolls == [] then (0, 0) else scrolls[0]
  }

  /** An axis that is on: the units reported times the divisor and what is carried make up the way. */
  predicate AxisBalanced(on: bool, units: int, divisor: int, rest: int, way: int, thresh: int) {
    on ==> units * divisor + rest == way && (Abs(rest) < Abs(divisor) || Abs(rest) < thresh)
  }

  /** The same for both scroll axes: units `u`, first vertical and then horizontal. */
  predicate ScrollBalanced(s: Pad, s': Pad, u: (int, int), p: Packet, c: Config) {
    && AxisBalanced(c.wvDivisor != 0, u.0, c.wvDivisor, s'.yRest, p.y - s.lastY + s.yRest, c.scrollYThresh)
    && AxisBalanced(c.HorizontalOn(), u.1, c.whDivisor, s'.xRest, s.lastX - p.x + s.xRest, c.scrollXThresh)
    && s'.lastX == p.x && s'.lastY == p.y
  }

  /** An axis that did not move reports nothing either way. */
  lemma {:induction false} AxisStage(on: bool, d: int, divisor: int, thresh: int)
    requires on ==> divisor != 0
    ensures AxisBalanced(on, AxisReport(on, d, divisor, thresh), divisor, AxisRest(on, d, divisor, thresh), d, thresh)
    ensures Abs(d) < thresh || d == 0 ==> AxisReport(on, d, divisor, thresh) == 0
  {
    if on {
      AxisConserves(d, divisor, thresh);
      RemBelow(0, divisor);
    }
  }

  lemma {:induction false} ScrollStage(b: Pad, p: Packet, c: Config)
    ensures var m := ScrollBoth(b, p, c);
            ScrollBalanced(b, m.pad.(lastX := p.x, lastY := p.y), Units(m.scrolls), p, c)
  {
    var dy := AxisDelta(c.wvDivisor != 0, p.y - b.lastY, b.yRest);
    var dx := AxisDelta(c.HorizontalOn(), b.lastX - p.x, b.xRest);
    AxisStage(c.wvDivisor != 0, dy, c.wvDivisor, c.scrollYThresh);
    AxisStage(c.HorizontalOn(), dx, c.whDivisor, c.scrollXThresh);
  }

  lemma {:induction false} ScrollFromMotion(s: Pad, p: Packet, c: Config)
    requires Inv(s, c) && PlainScroll(s, p, c)
    ensures var r := Dispatch(s, p, c); ScrollBalanced(AtMotion(s, p, c), r.pad, Units(r.scrolls), p, c)
  {
    var b := AtMotion(s, p, c);
    DispatchedMotion(s, p, c);
    ScrollMotion(b, p, c);
  }

  /** The motion stage and what follows it. */
  lemma {:induction false} ScrollMotion(b: Pad, p: Packet, c: Config)
    requires c.Valid() && DivisorsSet(b, c) && Scrolls(b, p, c)
    ensures var m := Motion(b, p, c); ScrollBalanced(b, AfterMotion(m.pad, p, c), Units(m.scrolls), p, c)
  {
    ScrollStage(b, p, c);
    AfterMotionCarries(ScrollBoth(b, p, c).pad, p, c);
  }

  lemma {:induction false} ScrollCarried(b: Pad, s: Pad, a: Pad, u: (int, int), p: Packet, c: Config)
    requires ScrollBalanced(b, a, u, p, c) && SameCarry(b, s)
    ensures ScrollBalanced(s, a, u, p, c)
  {
  }

  lemma {:induction false} ScrollCarries(s: Pad, p: Packet, c: Config)
    requires FingerChange(s, p, c) == s && Scrolls(AtMotion(s, p, c), p, c)
    ensures SameCarry(AtMotion(s, p, c), s)
  {
    assert AtMotion(s, p, c).mode == MTouch;
    CarriedToMotion(s, p, c);
  }

  lemma {:induction false} ScrollFrom(s: Pad, p: Packet, r: Outcome, c: Config) returns (b: Pad)
    requires ScrollsTo(s, p, r, c)
    ensures SameCarry(b, s) && ScrollBalanced(b, r.pad, Units(r.scrolls), p, c)
  {
    ScrollFromMotion(s, p, c);
    ScrollCarries(s, p, c);
    b := AtMotion(s, p, c);
  }

  ghost predicate ScrollsTo(s: Pad, p: Packet, r: Outcome, c: Config) {
    Inv(s, c) && PlainScroll(s, p, c) && r == Dispatch(s, p, c)
  }

  lemma {:induction false} ScrollStep(s: Pad, p: Packet, r: Outcome, c: Config)
    requires ScrollsTo(s, p, r, c)
    ensures ScrollBalanced(s, r.pad, Units(r.scrolls), p, c)
  {
    var b := ScrollFrom(s, p, r, c);
    ScrollCarried(b, s, r.pad, Units(r.scrolls), p, c);
  }

  function Plus(u: (int, int), v: (int, int)): (int, int) {
    (u.0 + v.0, u.1 + v.1)
  }

  lemma {:induction false} ScrollsAddUp(s: Pad, s1: Pad, s2: Pad, u: (int, int), u': (int, int),
                                        p: Packet, p': Packet, c: Config)
    requires ScrollBalanced(s, s1, u, p, c) && ScrollBalanced(s1, s2, u', p', c)
    ensures ScrollBalanced(s, s2, Plus(u, u'), p', c)
  {
    AddScaled(u.0, u'.0, c.wvDivisor);
    AddScaled(u.1, u'.1, c.whDivisor);
  }

  ghost predicate ScrollRun(s: Pad, ps: seq<Packet>, rs: seq<Outcome>, c: Config)
    decreases |ps|
  {
    |rs| == |ps| && (ps != [] ==> ScrollsTo(s, ps[0], rs[0], c) && ScrollRun(rs[0].pad, ps[1..], rs[1..], c))
  }

  ghost predicate BalancedScrolls(s: Pad, ps: seq<Packet>, rs: seq<Outcome>, c: Config)
    decreases |ps|
  {
    |rs| == |ps| &&
    (ps != [] ==>
      && ScrollBalanced(s, rs[0].pad, Units(rs[0].scrolls), ps[0], c)
      && BalancedScrolls(rs[0].pad, ps[1..], rs[1..], c))
  }

  lemma {:induction false} ScrollRunBalanced(s: Pad, ps: seq<Packet>, rs: seq<Outcome>, c: Config)
    requires ScrollRun(s, ps, rs, c)
    ensures BalancedScrolls(s, ps, rs, c)
    decreases |ps|
  {
    if ps != [] {
      ScrollStep(s, ps[0], rs[0], c);
      ScrollRunBalanced(rs[0].pad, ps[1..], rs[1..], c);
    }
  }

  /** The sum of the scroll reports. */
  function ScrollTotal(rs: seq<Outcome>): (t: (int, int)) {
    if rs == [] then (0, 0) else Plus(Units(rs[0].scrolls), ScrollTotal(rs[1..]))
  }

  lemma {:induction false} ScrollsTelescope(s: Pad, ps: seq<Packet>, rs: seq<Outcome>, c: Config)
    requires ps != [] && BalancedScrolls(s, ps, rs, c)
    ensures ScrollBalanced(s, rs[|rs| - 1].pad, ScrollTotal(rs), ps[|ps| - 1], c)
    decreases |ps|
  {
    var r := rs[0];
    if |ps| == 1 {
      assert ScrollTotal(rs[1..]) == (0, 0);
    } else {
      ScrollsTelescope(r.pad, ps[1..], rs[1..], c);
      ScrollsAddUp(s, r.pad, rs[|rs| - 1].pad, Units(r.scrolls), ScrollTotal(rs[1..]), ps[0], ps[|ps| - 1], c);
    }
  }

  /** The same for both axes of two-finger scrolling: small movements are carried, not lost, and the remainder stays
      below the divisor or the small-movement threshold. */
  lemma {:induction false} ScrollConserved(s: Pad, ps: seq<Packet>, rs: seq<Outcome>, c: Config)
    requires ps != [] && ScrollRun(s, ps, rs, c)
    ensures ScrollBalanced(s, rs[|rs| - 1].pad, ScrollTotal(rs), ps[|ps| - 1], c)
  {
    ScrollRunBalanced(s, ps, rs, c);
    ScrollsTelescope(s, ps, rs, c);
  }

  // ----- The double tap works

  /** The pad after a list of packets. */
  function Feed(s: Pad, ps: seq<Packet>, c: Config): (s': Pad)
    requires Inv(s, c)
    ensures Inv(s', c)
    decreases |ps|
  {
    if ps == [] then s
    else
      DispatchKeeps(s, ps[0], c);
      Feed(Dispatch(s, ps[0], c).pad, ps[1..], c)
  }

  lemma {:induction false} FeedConcat(s: Pad, ps: seq<Packet>, qs: seq<Packet>, c: Config)
    requires Inv(s, c)
    ensures Feed(s, ps + qs, c) == Feed(Feed(s, ps, c), qs, c)
    decreases |ps|
  {
    if ps == [] {
      assert ps + qs == qs;
    } else {
      assert (ps + qs)[0] == ps[0] && (ps + qs)[1..] == ps[1..] + qs;
      DispatchKeeps(s, ps[0], c);
      FeedConcat(Dispatch(s, ps[0], c).pad, ps[1..], qs, c);
    }
  }

  lemma {:induction false} FeedOne(s: Pad, p: Packet, c: Config)
    requires Inv(s, c)
    ensures Feed(s, [p], c) == Dispatch(s, p, c).pad
  {
    DispatchKeeps(s, p, c);
    assert [p][1..] == [];
    assert Feed(Dispatch(s, p, c).pad, [], c) == Dispatch(s, p, c).pad;
  }

  /** The typing guard lets the packets pass; no packet changes the time of the last key. */
  predicate Noticed(s: Pad, ps: seq<Packet>, c: Config) {
    forall p :: p in ps ==> !OutsideWhenTyping(s, p, c)
  }

  /** From pad `s` the zone's logic has got to `mode` with these times; the switch and the last key are as they were. */
  predicate Reached(s: Pad, s': Pad, mode: Mode, touchTime: nat, untouchTime: nat) {
    && s'.mode == mode && s'.touchTime == touchTime && s'.untouchTime == untouchTime
    && s'.ignoreAll == s.ignoreAll && s'.keyTime == s.keyTime
  }

  lemma {:induction false} ReachedNoticed(s: Pad, s': Pad, ps: seq<Packet>, c: Config)
    requires Reached(s, s', s'.mode, s'.touchTime, s'.untouchTime) && Noticed(s, ps, c)
    ensures Noticed(s', ps, c)
  {
  }

  /** A packet that the disable zone takes for itself. */
  lemma {:induction false} Zoned(s: Pad, p: Packet, c: Config)
    requires Inv(s, c) && c.zoneEnabled && !OutsideWhenTyping(s, p, c)
    requires DisableZone(FingerChange(s, p, c), p, c).mode.InDisableZone()
    ensures Dispatch(s, p, c).pad == DisableZone(FingerChange(s, p, c), p, c)
    ensures Dispatch(s, p, c).pad.keyTime == s.keyTime
  {
    assert FingerChange(s, p, c).keyTime == s.keyTime;
  }

  predicate Held(ps: seq<Packet>, c: Config) {
    forall i :: 0 <= i < |ps| ==> ps[i].z >= c.zFinger && c.zone.Contains(ps[i].x, ps[i].y)
  }

  predicate Idle(ps: seq<Packet>, c: Config) {
    forall i :: 0 <= i < |ps| ==> !c.FingerTouch(ps[i].z)
  }

  /** The count of fingers does not matter to the zone. */
  lemma {:induction false} ZoneSees(s: Pad, p: Packet, c: Config)
    ensures Reached(s, FingerChange(s, p, c), s.mode, s.touchTime, s.untouchTime)
  {
  }

  lemma {:induction false} ZoneWaits(s: Pad, p: Packet, c: Config)
    requires c.zoneEnabled
    requires || ((s.mode.Wait1Release? || s.mode.Wait2Release?) && Held([p], c))
             || (s.mode.Wait2Tap? && Idle([p], c))
    ensures Reached(s, DisableZone(FingerChange(s, p, c), p, c), s.mode, s.touchTime, s.untouchTime)
  {
    assert [p][0] == p;
    ZoneSees(s, p, c);
  }

  /** A packet during a tap, or without a finger between the taps, changes nothing for the zone. */
  lemma {:induction false} WaitGoesOn(s: Pad, p: Packet, c: Config)
    requires Inv(s, c) && c.zoneEnabled && !OutsideWhenTyping(s, p, c)
    requires || ((s.mode.Wait1Release? || s.mode.Wait2Release?) && Held([p], c))
             || (s.mode.Wait2Tap? && Idle([p], c))
    ensures Inv(Dispatch(s, p, c).pad, c)
    ensures Reached(s, Dispatch(s, p, c).pad, s.mode, s.touchTime, s.untouchTime)
  {
    ZoneWaits(s, p, c);
    Zoned(s, p, c);
    DispatchKeeps(s, p, c);
  }

  lemma {:induction false} HoldKeeps(s: Pad, ps: seq<Packet>, c: Config)
    requires Inv(s, c) && c.zoneEnabled && Noticed(s, ps, c)
    requires || ((s.mode.Wait1Release? || s.mode.Wait2Release?) && Held(ps, c))
             || (s.mode.Wait2Tap? && Idle(ps, c))
    ensures Reached(s, Feed(s, ps, c), s.mode, s.touchTime, s.untouchTime)
    decreases |ps|
  {
    if ps != [] {
      WaitGoesOn(s, ps[0], c);
      var s1 := Dispatch(s, ps[0], c).pad;
      assert forall p :: p in ps[1..] ==> p in ps;
      ReachedNoticed(s, s1, ps[1..], c);
      HoldKeeps(s1, ps[1..], c);
    }
  }

  /** The zone's own part of that, and of what follows. */
  lemma {:induction false} ZoneTouched(s: Pad, first: Packet, c: Config)
    requires c.zoneEnabled && StartsTap(first, c)
    requires s.mode.NoTouch? || (s.mode.Wait2Tap? && Since(first.now, s.untouchTime) < c.maxDragTime)
    ensures Reached(s, DisableZone(FingerChange(s, first, c), first, c),
                    if s.mode.NoTouch? then Wait1Release else Wait2Release, first.now, s.untouchTime)
  {
    ZoneSees(s, first, c);
  }

  lemma {:induction false} ZoneLifted(s: Pad, up: Packet, c: Config)
    requires c.zoneEnabled && up.z < c.zFinger
    requires s.mode.Wait1Release? && Since(up.now, s.touchTime) < c.maxTapTime
    ensures Reached(s, DisableZone(FingerChange(s, up, c), up, c), Wait2Tap, s.touchTime, up.now)
  {
    ZoneSees(s, up, c);
  }

  /** A touch in the zone starts the first or the second tap. */
  lemma {:induction false} TouchAdvances(s: Pad, first: Packet, c: Config)
    requires Inv(s, c) && c.zoneEnabled && !OutsideWhenTyping(s, first, c) && StartsTap(first, c)
    requires s.mode.NoTouch? || (s.mode.Wait2Tap? && Since(first.now, s.untouchTime) < c.maxDragTime)
    ensures Reached(s, Dispatch(s, first, c).pad, if s.mode.NoTouch? then Wait1Release else Wait2Release,
                    first.now, s.untouchTime)
  {
    ZoneTouched(s, first, c);
    Zoned(s, first, c);
  }

  lemma {:induction false} TapAdvances(s: Pad, first: Packet, hold: seq<Packet>, c: Config)
    requires Inv(s, c) && c.zoneEnabled && Noticed(s, [first] + hold, c) && StartsTap(first, c) && Held(hold, c)
    requires s.mode.NoTouch? || (s.mode.Wait2Tap? && Since(first.now, s.untouchTime) < c.maxDragTime)
    ensures Reached(s, Feed(s, [first] + hold, c), if s.mode.NoTouch? then Wait1Release else Wait2Release,
                    first.now, s.untouchTime)
  {
    assert first in [first] + hold;
    TouchAdvances(s, first, c);
    DispatchKeeps(s, first, c);
    var s1 := Dispatch(s, first, c).pad;
    assert ([first] + hold)[1..] == hold;
    ReachedNoticed(s, s1, hold, c);
    HoldKeeps(s1, hold, c);
  }

  /** Lifting the finger in time: after the first touch the pad waits for the second. */
  lemma {:induction false} FirstLift(s: Pad, up: Packet, c: Config)
    requires Inv(s, c) && c.zoneEnabled && !OutsideWhenTyping(s, up, c) && up.z < c.zFinger
    requires s.mode.Wait1Release? && Since(up.now, s.touchTime) < c.maxTapTime
    ensures Reached(s, Dispatch(s, up, c).pad, Wait2Tap, s.touchTime, up.now)
  {
    ZoneLifted(s, up, c);
    Zoned(s, up, c);
  }

  /** After the second, it switches. */
  lemma {:induction false} SecondLift(s: Pad, up: Packet, c: Config)
    requires Inv(s, c) && c.zoneEnabled && !OutsideWhenTyping(s, up, c) && up.z < c.zFinger
    requires s.mode.Wait2Release? && Since(up.now, s.touchTime) < c.maxTapTime
    ensures Dispatch(s, up, c).pad.ignoreAll == !s.ignoreAll
  {
    var s1 := FingerChange(s, up, c);
    assert s1.keyTime == s.keyTime;
    assert DisableZone(s1, up, c).ignoreAll == !s.ignoreAll;
    DispatchZone(s, up, c);
    assert !OutsideWhenTyping(s1, up, c);
  }

  /** A tap: the first packet of a touch in the zone, any more of that touch, and the packet that ends it in time. */
  datatype Tap = Tap(first: Packet, hold: seq<Packet>, up: Packet) {
    predicate Short(c: Config) {
      StartsTap(first, c) && Held(hold, c) && up.z < c.zFinger && Since(up.now, first.now) < c.maxTapTime
    }

    function Packets(): seq<Packet> {
      [first] + hold + [up]
    }
  }

  /** From rest or between the taps, up to the packet that ends the touch. */
  lemma {:induction false} FeedTap(s: Pad, tap: Tap, c: Config)
    requires Inv(s, c) && c.zoneEnabled && Noticed(s, tap.Packets(), c) && tap.Short(c)
    requires s.mode.NoTouch? || (s.mode.Wait2Tap? && Since(tap.first.now, s.untouchTime) < c.maxDragTime)
    ensures var s' := Feed(s, tap.Packets(), c);
            if s.mode.NoTouch? then Reached(s, s', Wait2Tap, tap.first.now, tap.up.now)
            else s'.ignoreAll == !s.ignoreAll
  {
    var down := [tap.first] + tap.hold;
    assert forall p :: p in down ==> p in tap.Packets();
    assert tap.up in tap.Packets();
    TapAdvances(s, tap.first, tap.hold, c);
    FeedConcat(s, down, [tap.up], c);
    var s1 := Feed(s, down, c);
    FeedOne(s1, tap.up, c);
    if s.mode.NoTouch? {
      FirstLift(s1, tap.up, c);
    } else {
      SecondLift(s1, tap.up, c);
    }
  }

  /** From rest, two short taps in the zone, soon after each other and with any packets without a finger between them,
      switch the pad off if it was on, and on if it was off. */
  lemma {:induction false} DoubleTapSwitches(s: Pad, one: Tap, idle: seq<Packet>, two: Tap, c: Config)
    requires Inv(s, c) && c.zoneEnabled && s.mode.NoTouch?
    requires Noticed(s, one.Packets() + idle + two.Packets(), c)
    requires one.Short(c) && Idle(idle, c) && two.Short(c) && Since(two.first.now, one.up.now) < c.maxDragTime
    ensures Feed(s, one.Packets() + idle + two.Packets(), c).ignoreAll == !s.ignoreAll
  {
    var all := one.Packets() + idle + two.Packets();
    assert forall p :: p in one.Packets() || p in idle || p in two.Packets() ==> p in all;
    FeedTap(s, one, c);
    var s1 := Feed(s, one.Packets(), c);
    ReachedNoticed(s, s1, idle, c);
    HoldKeeps(s1, idle, c);
    var s2 := Feed(s1, idle, c);
    ReachedNoticed(s, s2, two.Packets(), c);
    FeedTap(s2, two, c);
    FeedConcat(s, one.Packets(), idle, c);
    FeedConcat(s, one.Packets() + idle, two.Packets(), c);
  }
}
