/** What the gesture machine keeps over every run of packets, timers, keys and settings. */
module GestureProperties {
  import opened CInt
  import opened Gesture
  import Filters
  import MomentumScroll

  // ----- Parity: odd modes with a finger down, even modes without

  lemma {:induction false} BeforeMotionParity(s: Pad, p: Packet, c: Config)
    ensures var m := BeforeMotion(s, p, c).mode;
            && (p.z < c.zFinger ==> !m.IsTouch())
            && (s.mode.InDisableZone() || !m.InDisableZone())
  {
  }

  lemma {:induction false} MotionMode(s: Pad, p: Packet, c: Config)
    requires c.Valid() && DivisorsSet(s, c)
    ensures var m := Motion(s, p, c).pad.mode;
            m == s.mode || (s.mode.IsTouch() && (m.NoTouch? || m.Move?))
  {
  }

  lemma {:induction false} AfterMotionParity(s: Pad, p: Packet, c: Config)
    ensures var m := AfterMotion(s, p, c).mode;
            && (p.z < c.zFinger ==> m == s.mode)
            && (c.FingerTouch(p.z) && !s.mode.InDisableZone() ==> m.IsTouch())
            && (m.InDisableZone() ==> s.mode.InDisableZone())
  {
    assert Touch(s, p, c).mode == s.mode;
  }

  lemma {:induction false} HandleParity(s: Pad, p: Packet, c: Config)
    requires c.Valid() && DivisorsSet(s, c) && !s.mode.InDisableZone()
    ensures var m := Handle(s, p, c).pad.mode;
            && (p.z < c.zFinger ==> !m.IsTouch())
            && (c.FingerTouch(p.z) ==> m.IsTouch())
            && !m.InDisableZone()
  {
    ReleaseKeepsDivisors(s, p, c);
    BeforeMotionParity(s, p, c);
    var b := BeforeMotion(s, p, c);
    MotionMode(b, p, c);
    AfterMotionParity(Motion(b, p, c).pad, p, c);
  }

  lemma {:induction false} ZoneParity(s: Pad, p: Packet, c: Config)
    requires c.zoneEnabled
    ensures var m := DisableZone(s, p, c).mode;
            m.InDisableZone() ==>
              && (p.z < c.zFinger ==> !m.IsTouch())
              && (c.FingerTouch(p.z) ==> m.IsTouch())
  {
  }

  predicate ZoneModesEnabled(s: Pad, c: Config) {
    s.mode.InDisableZone() ==> c.zoneEnabled
  }

  /** The mode is even if no finger is down, and odd if one is. */
  predicate Agrees(m: Mode, p: Packet, c: Config) {
    (p.z < c.zFinger ==> !m.IsTouch()) && (c.FingerTouch(p.z) ==> m.IsTouch())
  }

  /** The packet goes no further than the typing guard, or than the off switch behind the disable zone. */
  predicate Skipped(s: Pad, p: Packet, c: Config) {
    var zoned := DisableZone(FingerChange(s, p, c), p, c);
    OutsideWhenTyping(s, p, c) || (!KeptByZone(zoned, c) && zoned.ignoreAll)
  }

  /** The mode that a skipped packet leaves standing. */
  function Standing(s: Pad, p: Packet, c: Config): Mode {
    if OutsideWhenTyping(s, p, c) then s.mode else DisableZone(FingerChange(s, p, c), p, c).mode
  }

  lemma {:induction false} ParityTracksFinger(s: Pad, p: Packet, c: Config)
    requires c.Valid() && DivisorsSet(s, c) && ZoneModesEnabled(s, c) && !Skipped(s, p, c)
    ensures Agrees(Dispatch(s, p, c).pad.mode, p, c)
  {
    var s1 := FingerChange(s, p, c);
    assert s1.mode == s.mode && s1.keyTime == s.keyTime;
    var s2 := DisableZone(s1, p, c);
    if KeptByZone(s2, c) {
      ZoneParity(s1, p, c);
    } else {
      ZoneKeepsDivisors(s, p, c);
      HandleParity(s2, p, c);
    }
  }

  /** After a packet the mode agrees with the finger if and only if the packet is not skipped, or the mode that it
      leaves standing agrees already. */
  lemma {:induction false} ParityIff(s: Pad, p: Packet, c: Config)
    requires c.Valid() && DivisorsSet(s, c) && ZoneModesEnabled(s, c)
    ensures Agrees(Dispatch(s, p, c).pad.mode, p, c) <==> !Skipped(s, p, c) || Agrees(Standing(s, p, c), p, c)
  {
    if !Skipped(s, p, c) {
      ParityTracksFinger(s, p, c);
    } else {
      SkippedStands(s, p, c);
    }
  }

  lemma {:induction false} SkippedStands(s: Pad, p: Packet, c: Config)
    requires c.Valid() && DivisorsSet(s, c) && Skipped(s, p, c)
    ensures Dispatch(s, p, c).pad.mode == Standing(s, p, c)
  {
    var s1 := FingerChange(s, p, c);
    assert s1.mode == s.mode && s1.keyTime == s.keyTime;
  }

  // ----- Momentum and its histories

  /** Entries that are negative do not mix with entries that are not. */
  predicate OneSided(xs: seq<int>) {
    forall i, j :: 0 <= i < |xs| && 0 <= j < |xs| ==> (xs[i] < 0) == (xs[j] < 0)
  }

  /** A moving momentum has a time base and one direction; two fingers on the pad mean no momentum; and the two
      histories go together, in one direction. */
  predicate MomentumOk(s: Pad) {
    && (s.momentum.current != 0 ==> s.momentum.interval != 0 && MomentumScroll.Aligned(s.momentum))
    && (s.mode.MTouch? ==> s.momentum.current == 0)
    && |s.dyHistory| == |s.timeHistory| <= 32
    && OneSided(s.dyHistory)
  }

  lemma {:induction false} StartMomentumOk(s: Pad, c: Config)
    requires MomentumOk(s)
    ensures var m := StartMomentum(s, c); m.current != 0 ==> m.interval != 0 && MomentumScroll.Aligned(m)
  {
  }

  /** Momentum goes on in the direction of every movement in the history. */
  lemma {:induction false} MomentumFollowsHistory(s: Pad, c: Config, i: nat)
    requires MomentumOk(s) && s.momentum.current == 0 && StartMomentum(s, c).current != 0 && i < |s.dyHistory|
    ensures (StartMomentum(s, c).current < 0) == (s.dyHistory[i] < 0)
  {
    var xs := s.dyHistory;
    var sum := Filters.Sum(xs);
    if xs[i] < 0 {
      NegativeSum(xs);
      Scale(sum, -1, c.momentumTimer);
    } else {
      NonNegativeSum(xs);
      Scale(0, sum, c.momentumTimer);
    }
  }

  lemma {:induction false} NegativeSum(xs: seq<int>)
    requires xs != [] && forall i :: 0 <= i < |xs| ==> xs[i] < 0
    ensures Filters.Sum(xs) < 0
  {
    if |xs| > 1 {
      NegativeSum(xs[1..]);
    }
  }

  lemma {:induction false} NonNegativeSum(xs: seq<int>)
    requires forall i :: 0 <= i < |xs| ==> xs[i] >= 0
    ensures Filters.Sum(xs) >= 0
  {
    if xs != [] {
      NonNegativeSum(xs[1..]);
    }
  }

  lemma {:induction false} BeforeMotionMomentum(s: Pad, p: Packet, c: Config)
    requires MomentumOk(s)
    ensures MomentumOk(BeforeMotion(s, p, c))
  {
    StartMomentumOk(s, c);
    var r := Release(s, p, c);
    assert MomentumOk(r);
    var b := CancelTaps(r, p, c);
    assert b.momentum == r.momentum && b.dyHistory == r.dyHistory && b.timeHistory == r.timeHistory;
  }

  lemma {:induction false} HistoryOk(deltas: seq<int>, times: seq<int>, dy: int, now: nat)
    requires |deltas| == |times| <= 32 && OneSided(deltas)
    ensures var (ds, ts) := History(deltas, times, dy, now); |ds| == |ts| <= 32 && OneSided(ds)
  {
    var (ds, ts) := History(deltas, times, dy, now);
    forall i | 0 <= i < |ds| ensures (ds[i] < 0) == (dy < 0) {
      if i < |ds| - 1 {
        assert ds[i] in deltas;
        var k :| 0 <= k < |deltas| && deltas[k] == ds[i];
        assert (deltas[k] < 0) == (deltas[|deltas| - 1] < 0);
      }
    }
  }

  /** Only two-finger motion touches the histories; no motion touches the momentum. */
  lemma {:induction false} MotionHistories(s: Pad, p: Packet, c: Config)
    requires c.Valid() && DivisorsSet(s, c)
    ensures var m := Motion(s, p, c).pad;
            && m.momentum == s.momentum && m.ignoreAll == s.ignoreAll
            && (!s.mode.MTouch? ==> m.dyHistory == s.dyHistory && m.timeHistory == s.timeHistory && !m.mode.MTouch?)
  {
    if s.mode.MTouch? {
      assert Motion(s, p, c) == MotionMTouch(s, p, c);
    } else if s.mode.Scrolling() {
      assert Motion(s, p, c) == MotionEdge(s, p, c);
    }
  }

  lemma {:induction false} MotionMomentum(s: Pad, p: Packet, c: Config)
    requires c.Valid() && DivisorsSet(s, c) && MomentumOk(s)
    ensures MomentumOk(Motion(s, p, c).pad)
  {
    MotionHistories(s, p, c);
    if s.mode.MTouch? && Scrolls(s, p, c) {
      HistoryOk(s.dyHistory, s.timeHistory, AxisDelta(c.wvDivisor != 0, p.y - s.lastY, s.yRest), p.now);
    }
  }

  lemma {:induction false} AfterMotionMomentum(s: Pad, p: Packet, c: Config)
    requires MomentumOk(s)
    ensures MomentumOk(AfterMotion(s, p, c))
  {
    var t := Touch(s, p, c);
    assert t.momentum == if c.FingerTouch(p.z) then s.momentum.(current := 0) else s.momentum;
    var a := AfterMotion(s, p, c);
    assert a.momentum == t.momentum && a.dyHistory == s.dyHistory && a.timeHistory == s.timeHistory;
    assert a.mode.MTouch? ==> t.mode.MTouch? || c.FingerTouch(p.z);
  }

  lemma {:induction false} AfterMotionDivisors(s: Pad, p: Packet, c: Config)
    requires DivisorsSet(s, c)
    ensures DivisorsSet(AfterMotion(s, p, c), c)
  {
    assert Touch(s, p, c).mode == s.mode;
  }

  lemma {:induction false} HandleKeeps(s: Pad, p: Packet, c: Config)
    requires c.Valid() && DivisorsSet(s, c) && MomentumOk(s)
    ensures MomentumOk(Handle(s, p, c).pad) && DivisorsSet(Handle(s, p, c).pad, c)
  {
    ReleaseKeepsDivisors(s, p, c);
    BeforeMotionMomentum(s, p, c);
    var b := BeforeMotion(s, p, c);
    MotionMomentum(b, p, c);
    var m := Motion(b, p, c).pad;
    MotionMode(b, p, c);
    AfterMotionMomentum(m, p, c);
    AfterMotionDivisors(m, p, c);
  }

  /** What holds between any two events. */
  predicate Inv(s: Pad, c: Config) {
    c.Valid() && DivisorsSet(s, c) && ZoneModesEnabled(s, c) && MomentumOk(s)
  }

  /** Nothing that the momentum depends on has changed; at most, two-finger mode was left. */
  predicate SameMomentum(s: Pad, t: Pad) {
    && t.momentum == s.momentum && t.dyHistory == s.dyHistory && t.timeHistory == s.timeHistory
    && (t.mode.MTouch? ==> s.mode.MTouch?)
  }

  lemma {:induction false} SameMomentumOk(s: Pad, t: Pad)
    requires MomentumOk(s) && SameMomentum(s, t)
    ensures MomentumOk(t)
  {
  }

  lemma {:induction false} ZoneSame(s: Pad, p: Packet, c: Config)
    ensures SameMomentum(s, FingerChange(s, p, c)) && FingerChange(s, p, c).mode == s.mode
    ensures SameMomentum(s, DisableZone(s, p, c))
    ensures DisableZone(s, p, c).mode.InDisableZone() ==> s.mode.InDisableZone() || c.zoneEnabled
  {
  }

  lemma {:induction false} ZoneKeeps(s: Pad, p: Packet, c: Config)
    requires Inv(s, c)
    ensures Inv(FingerChange(s, p, c), c) && Inv(DisableZone(FingerChange(s, p, c), p, c), c)
  {
    var s1 := FingerChange(s, p, c);
    ZoneSame(s, p, c);
    ZoneSame(s1, p, c);
    SameMomentumOk(s, s1);
    SameMomentumOk(s1, DisableZone(s1, p, c));
    ZoneKeepsDivisors(s, p, c);
  }

  lemma {:induction false} DispatchKeeps(s: Pad, p: Packet, c: Config)
    requires Inv(s, c)
    ensures Inv(Dispatch(s, p, c).pad, c)
  {
    ZoneKeeps(s, p, c);
    var s1 := FingerChange(s, p, c);
    var s2 := DisableZone(s1, p, c);
    if !OutsideWhenTyping(s1, p, c) && !KeptByZone(s2, c) && !s2.ignoreAll {
      HandleKeeps(s2, p, c);
      HandleParity(s2, p, c);
    }
  }

  // ----- Runs

  /** Packets, the two timers, keys, and what other parts of the system do to the pad.  New settings reset the mode. */
  datatype Event =
    | PacketArrives(packet: Packet)
    | ScrollTimer
    | DragTimer
    | KeyPressed(now: nat)
    | ModifierReleased(now: nat)
    | SetIgnored(ignore: bool)
    | Configured(config: Config)

  /** `seen` logs the packets that reach the disable zone's logic. */
  datatype World = World(pad: Pad, config: Config, seen: seq<Packet>)

  predicate Allowed(e: Event) {
    e.Configured? ==> e.config.Valid()
  }

  function Next(w: World, e: Event): (w': World)
    requires Inv(w.pad, w.config)
  {
    match e
    case PacketArrives(p) =>
      var r := Dispatch(w.pad, p, w.config);
      World(r.pad, w.config, if r.fate.Dropped? then w.seen else w.seen + [p])
    case ScrollTimer =>
      w.(pad := w.pad.(momentum := MomentumScroll.Tick(w.pad.momentum, w.config.momentumSettings).after))
    case DragTimer => w.(pad := w.pad.(mode := NoTouch))
    case KeyPressed(now) => w.(pad := w.pad.(keyTime := now, momentum := w.pad.momentum.(current := 0)))
    case ModifierReleased(now) => w.(pad := w.pad.(keyTime := now))
    case SetIgnored(b) => w.(pad := w.pad.(ignoreAll := b))
    case Configured(c) => World(w.pad.(mode := NoTouch), c, w.seen)
  }

  lemma {:induction false} TickKeeps(s: Pad, c: Config)
    requires Inv(s, c)
    ensures Inv(s.(momentum := MomentumScroll.Tick(s.momentum, c.momentumSettings).after), c)
  {
    if s.momentum.current != 0 {
      MomentumScroll.TickLosesEnergy(s.momentum, c.momentumSettings);
    }
  }

  lemma {:induction false} NextKeeps(w: World, e: Event)
    requires Inv(w.pad, w.config) && Allowed(e)
    ensures Inv(Next(w, e).pad, Next(w, e).config)
  {
    match e
    case PacketArrives(p) => DispatchKeeps(w.pad, p, w.config);
    case ScrollTimer => TickKeeps(w.pad, w.config);
    case _ =>
  }

  function After(w: World, es: seq<Event>): (w': World)
    requires Inv(w.pad, w.config) && forall i :: 0 <= i < |es| ==> Allowed(es[i])
    decreases |es|
  {
    if es == [] then w
    else
      NextKeeps(w, es[0]);
      After(Next(w, es[0]), es[1..])
  }

  /** In every run the timer never divides by zero, momentum has one direction, two fingers stop it, and the histories
      agree; scroll modes have divisors, and the zone's modes occur only while the zone is on. */
  lemma {:induction false} RunKeeps(w: World, es: seq<Event>)
    requires Inv(w.pad, w.config) && forall i :: 0 <= i < |es| ==> Allowed(es[i])
    ensures Inv(After(w, es).pad, After(w, es).config)
    decreases |es|
  {
    if es != [] {
      NextKeeps(w, es[0]);
      RunKeeps(Next(w, es[0]), es[1..]);
    }
  }

  lemma {:induction false} StartIsSound(c: Config)
    requires c.Valid()
    ensures Inv(START, c)
  {
  }

  /** Parity is lost in a run: two fingers touch, something else switches the pad off, and the fingers leave.  The last
      packet is skipped, and two-finger mode stays. */
  lemma {:induction false} SkippedPacketLosesParity(c: Config)
    requires c.Valid() && c.zFinger >= 1 && c.zFinger + 1 < c.zLimit && !c.outZoneWhenTyping
    ensures Inv(START, c)
    ensures var down := Packet(0, 0, 0, 0, c.zFinger + 1, c.zFinger + 1, 0, 0, 0);
            var up := down.(z := 0, zraw := 0);
            var w := After(World(START, c, []), [PacketArrives(down), SetIgnored(true)]);
            && w.config == c && Inv(w.pad, c) && Skipped(w.pad, up, c)
            && Next(w, PacketArrives(up)).pad.mode == MTouch && !Agrees(MTouch, up, c)
  {
    StartIsSound(c);
    var down := Packet(0, 0, 0, 0, c.zFinger + 1, c.zFinger + 1, 0, 0, 0);
    TwoFingersDown(c, down);
    AfterTwo(World(START, c, []), PacketArrives(down), SetIgnored(true));
    var w := After(World(START, c, []), [PacketArrives(down), SetIgnored(true)]);
    OffWithTwoFingers(w.pad, down.(z := 0, zraw := 0), c);
  }

  lemma {:induction false} AfterTwo(w: World, e1: Event, e2: Event)
    requires Inv(w.pad, w.config) && Allowed(e1) && Allowed(e2)
    ensures Inv(Next(w, e1).pad, Next(w, e1).config)
    ensures After(w, [e1, e2]) == Next(Next(w, e1), e2)
    ensures Inv(After(w, [e1, e2]).pad, After(w, [e1, e2]).config)
  {
    NextKeeps(w, e1);
    var w1 := Next(w, e1);
    NextKeeps(w1, e2);
    assert [e1, e2][1..] == [e2] && [e2][1..] == [];
    assert After(w1, [e2]) == After(Next(w1, e2), []);
  }

  lemma {:induction false} OffWithTwoFingers(s: Pad, up: Packet, c: Config)
    requires Inv(s, c) && s.mode == MTouch && s.ignoreAll && !c.outZoneWhenTyping
    ensures Skipped(s, up, c) && Dispatch(s, up, c).pad.mode == MTouch
  {
    var s1 := FingerChange(s, up, c);
    assert s1.mode == MTouch && s1.ignoreAll;
    SkippedStands(s, up, c);
  }

  lemma {:induction false} TwoFingersDown(c: Config, down: Packet)
    requires c.Valid() && c.FingerTouch(down.z) && down.w == 0 && !c.outZoneWhenTyping
    ensures Inv(START, c) && Dispatch(START, down, c).pad.mode == MTouch
  {
    StartIsSound(c);
    var s1 := FingerChange(START, down, c);
    assert DisableZone(s1, down, c) == s1 && s1.mode == NoTouch && !s1.ignoreAll;
    var b := BeforeMotion(s1, down, c);
    assert b.mode == NoTouch;
    assert Motion(b, down, c).pad.mode == NoTouch;
  }

  // ----- The disable zone: what it takes to switch the pad off or on

  /** The last packets seen are one touch that began with a tap in the zone at `t0`, and never left it. */
  predicate Holding(log: seq<Packet>, t0: nat, c: Config) {
    log != [] &&
    var p := log[|log| - 1];
    && p.z >= c.zFinger && c.zone.Contains(p.x, p.y)
    && ((StartsTap(p, c) && p.now == t0) || Holding(log[..|log| - 1], t0, c))
  }

  /** A short touch of that kind ended at `t1`, and no finger has been seen since. */
  ghost predicate Tapped(log: seq<Packet>, t1: nat, c: Config) {
    log != [] &&
    var p := log[|log| - 1];
    var before := log[..|log| - 1];
    || (p.z < c.zFinger && p.now == t1 && exists t0: nat :: Holding(before, t0, c) && Since(t1, t0) < c.maxTapTime)
    || (!c.FingerTouch(p.z) && Tapped(before, t1, c))
  }

  /** A second such touch began at `t2`, soon after the first. */
  ghost predicate HoldingAgain(log: seq<Packet>, t2: nat, c: Config) {
    log != [] &&
    var p := log[|log| - 1];
    var before := log[..|log| - 1];
    && p.z >= c.zFinger && c.zone.Contains(p.x, p.y)
    && (|| (StartsTap(p, c) && p.now == t2 && exists t1: nat :: Tapped(before, t1, c) && Since(t2, t1) < c.maxDragTime)
        || HoldingAgain(before, t2, c))
  }

  /** The second touch has just ended, and was short. */
  ghost predicate DoubleTapped(log: seq<Packet>, c: Config) {
    log != [] &&
    var p := log[|log| - 1];
    p.z < c.zFinger && exists t2: nat :: HoldingAgain(log[..|log| - 1], t2, c) && Since(p.now, t2) < c.maxTapTime
  }

  /** The zone's modes and times say what has been seen. */
  ghost predicate Explained(s: Pad, log: seq<Packet>, c: Config) {
    && (s.mode.Wait1Release? ==> Holding(log, s.touchTime, c))
    && (s.mode.Wait2Tap? ==> Tapped(log, s.untouchTime, c))
    && (s.mode.Wait2Release? ==> HoldingAgain(log, s.touchTime, c))
  }

  lemma {:induction false} ZoneExplained(s: Pad, p: Packet, log: seq<Packet>, c: Config)
    requires c.zoneEnabled && Explained(s, log, c)
    ensures Explained(DisableZone(s, p, c), log + [p], c)
    ensures DisableZone(s, p, c).ignoreAll != s.ignoreAll ==> DoubleTapped(log + [p], c)
  {
    var log' := log + [p];
    assert log'[|log'| - 1] == p && log'[..|log'| - 1] == log;
  }

  /** Past the zone's logic nothing switches the pad, and no mode of the zone is entered. */
  lemma {:induction false} HandleKeepsSwitch(s: Pad, p: Packet, c: Config)
    requires c.Valid() && DivisorsSet(s, c)
    ensures Handle(s, p, c).pad.ignoreAll == s.ignoreAll
  {
    ReleaseKeepsDivisors(s, p, c);
    MotionHistories(BeforeMotion(s, p, c), p, c);
  }

  /** As far as the zone is concerned a packet ends with the zone's own logic. */
  lemma {:induction false} DispatchZone(s: Pad, p: Packet, c: Config)
    requires Inv(s, c)
    ensures ZoneStep(s, p, c, Dispatch(s, p, c))
  {
    ZoneKeeps(s, p, c);
    var s1 := FingerChange(s, p, c);
    var s2 := DisableZone(s1, p, c);
    if !OutsideWhenTyping(s1, p, c) && !KeptByZone(s2, c) && !s2.ignoreAll {
      HandleParity(s2, p, c);
      HandleKeepsSwitch(s2, p, c);
    }
  }

  /** The zone's logic, as far as packets are seen by it. */
  ghost predicate ZoneStep(s: Pad, p: Packet, c: Config, r: Outcome) {
    var s1 := FingerChange(s, p, c);
    var s2 := DisableZone(s1, p, c);
    if r.fate.Dropped? then r.pad == s1
    else r.pad.ignoreAll == s2.ignoreAll && (r.pad == s2 || !r.pad.mode.InDisableZone())
  }

  lemma {:induction false} StepExplained(s: Pad, p: Packet, log: seq<Packet>, c: Config, r: Outcome)
    requires ZoneModesEnabled(s, c) && Explained(s, log, c) && ZoneStep(s, p, c, r)
    ensures var log' := if r.fate.Dropped? then log else log + [p];
            && Explained(r.pad, log', c)
            && (r.pad.ignoreAll != s.ignoreAll ==> DoubleTapped(log', c))
  {
    var s1 := FingerChange(s, p, c);
    assert s1.mode == s.mode && s1.touchTime == s.touchTime && s1.untouchTime == s.untouchTime;
    assert s1.ignoreAll == s.ignoreAll;
    assert Explained(s1, log, c);
    if c.zoneEnabled {
      ZoneExplained(s1, p, log, c);
    } else {
      assert DisableZone(s1, p, c) == s1 && !s1.mode.InDisableZone();
    }
  }

  lemma {:induction false} PacketExplained(s: Pad, p: Packet, log: seq<Packet>, c: Config)
    requires Inv(s, c) && Explained(s, log, c)
    ensures var r := Dispatch(s, p, c);
            var log' := if r.fate.Dropped? then log else log + [p];
            && Explained(r.pad, log', c)
            && (r.pad.ignoreAll != s.ignoreAll ==> DoubleTapped(log', c))
  {
    var r := Dispatch(s, p, c);
    DispatchZone(s, p, c);
    StepExplained(s, p, log, c, r);
  }

  lemma {:induction false} NextExplained(w: World, e: Event)
    requires Inv(w.pad, w.config) && Allowed(e) && Explained(w.pad, w.seen, w.config)
    ensures Explained(Next(w, e).pad, Next(w, e).seen, Next(w, e).config)
  {
    if e.PacketArrives? {
      PacketExplained(w.pad, e.packet, w.seen, w.config);
    }
  }

  lemma {:induction false} RunExplained(w: World, es: seq<Event>)
    requires Inv(w.pad, w.config) && Explained(w.pad, w.seen, w.config) && forall i :: 0 <= i < |es| ==> Allowed(es[i])
    ensures Explained(After(w, es).pad, After(w, es).seen, After(w, es).config)
    decreases |es|
  {
    if es != [] {
      NextKeeps(w, es[0]);
      NextExplained(w, es[0]);
      RunExplained(Next(w, es[0]), es[1..]);
    }
  }

  /** In every run, a packet switches the pad off or on only as the end of a double tap in the zone: two short touches
      that begin there with one finger, are never seen outside, and follow each other soon. */
  lemma {:induction false} SwitchNeedsDoubleTap(c: Config, es: seq<Event>, p: Packet)
    requires c.Valid() && forall i :: 0 <= i < |es| ==> Allowed(es[i])
    ensures Inv(START, c)
    ensures var w := After(World(START, c, []), es);
            && Inv(w.pad, w.config)
            && var w' := Next(w, PacketArrives(p));
            w'.pad.ignoreAll != w.pad.ignoreAll ==> DoubleTapped(w'.seen, w'.config)
  {
    StartIsSound(c);
    var w0 := World(START, c, []);
    RunKeeps(w0, es);
    RunExplained(w0, es);
    var w := After(w0, es);
    PacketExplained(w.pad, p, w.seen, w.config);
  }
}
