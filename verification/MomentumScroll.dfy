/** Momentum scrolling: the timer keeps scrolling after the fingers have left, ever more slowly. */
module MomentumScroll {
  import opened CInt

  datatype Settings = Settings(thresh: int, multiplier: int, divisor: int, wvdivisor: int) {
    predicate Valid() {
      0 <= multiplier < divisor && wvdivisor >= 0
    }
  }

  /** `current` is the momentum, `rest1` the remainder of its decay, `rest2` that of the dispatched scroll. */
  datatype Momentum = Momentum(current: int, rest1: int, rest2: int, interval: nat) {
    function Negated(): Momentum {
      Momentum(-current, -rest1, -rest2, interval)
    }
  }

  /** One timer event: the new momentum, whether the timer was started again, and the scroll delta in that case. */
  datatype Ticked = Ticked(after: Momentum, again: bool, delta: int)

  function Tick(m: Momentum, c: Settings): (r: Ticked)
    requires c.divisor != 0 && (m.current != 0 ==> m.interval != 0)
  {
    if m.current == 0 then Ticked(m, false, 0)
    else
      var dy := Quot(m.current, m.interval) + m.rest2;
      if Abs(dy) > c.thresh then
        var raw := m.current * c.multiplier + m.rest1;
        Ticked(Momentum(Quot(raw, c.divisor), Rem(raw, c.divisor),
                        if c.wvdivisor != 0 then Rem(dy, c.wvdivisor) else 0, m.interval),
               true, if c.wvdivisor != 0 then Quot(dy, c.wvdivisor) else 0)
      else Ticked(m.(current := 0), false, 0)
  }

  /** What is left to give, in units of one decay step. */
  function Energy(m: Momentum, c: Settings): (e: int) {
    Abs(m.current) * c.divisor + Abs(m.rest1)
  }

  predicate Forward(m: Momentum) {
    m.current >= 0 && m.rest1 >= 0 && m.rest2 >= 0 && m.interval > 0
  }

  /** All parts point the same way. */
  predicate Aligned(m: Momentum) {
    Forward(m) || Forward(m.Negated())
  }

  // ----- Symmetry: scrolling up is the mirror image of scrolling down

  lemma {:induction false} QuotNegated(a: int, b: int)
    requires b > 0
    ensures Quot(-a, b) == -Quot(a, b) && Rem(-a, b) == -Rem(a, b)
  {
    Negate(Quot(a, b), b);
    if a == 0 {
      assert 0 / b == 0;
    }
  }

  lemma {:induction false} TickNegated(m: Momentum, c: Settings)
    requires c.Valid() && m.interval > 0
    ensures Tick(m.Negated(), c) == Ticked(Tick(m, c).after.Negated(), Tick(m, c).again, -Tick(m, c).delta)
  {
    QuotNegated(m.current, m.interval);
    var dy := Quot(m.current, m.interval) + m.rest2;
    var raw := m.current * c.multiplier + m.rest1;
    Negate(m.current, c.multiplier);
    QuotNegated(raw, c.divisor);
    if c.wvdivisor > 0 {
      QuotNegated(dy, c.wvdivisor);
    }
  }

  // ----- One tick

  lemma {:induction false} DecayStep(current: nat, rest: nat, multiplier: nat, divisor: int)
    requires multiplier < divisor
    ensures var raw := current * multiplier + rest;
            && raw >= 0 && Quot(raw, divisor) >= 0 && Rem(raw, divisor) >= 0
            && Quot(raw, divisor) * divisor + Rem(raw, divisor) ==
               current * divisor + rest - (divisor - multiplier) * current
  {
    Scale(0, current, multiplier);
    QuotRem(current * multiplier + rest, divisor);
    AddScaled(divisor - multiplier, multiplier, current);
  }

  /** A forward tick stays forward and never scrolls back; if it is active, the energy drops by the momentum times
      the part that decays, and the scroll it adds is what the momentum gives in one interval. */
  lemma {:induction false} ForwardTick(m: Momentum, c: Settings)
    requires c.Valid() && Forward(m) && m.current != 0
    ensures var t := Tick(m, c);
            && Forward(t.after) && t.delta >= 0 && t.after.interval == m.interval
            && (t.again ==> Energy(t.after, c) == Energy(m, c) - (c.divisor - c.multiplier) * m.current)
            && (t.again && c.wvdivisor > 0 ==>
                 t.delta * c.wvdivisor + t.after.rest2 == Quot(m.current, m.interval) + m.rest2)
  {
    QuotRem(m.current, m.interval);
    DecayStep(m.current, m.rest1, c.multiplier, c.divisor);
    if c.wvdivisor > 0 {
      QuotRem(Quot(m.current, m.interval) + m.rest2, c.wvdivisor);
    }
  }

  /** Every active tick takes energy away, in either direction. */
  lemma {:induction false} TickLosesEnergy(m: Momentum, c: Settings)
    requires c.Valid() && Aligned(m) && m.current != 0
    ensures Aligned(Tick(m, c).after)
    ensures Tick(m, c).again ==> Energy(Tick(m, c).after, c) < Energy(m, c)
    ensures !Tick(m, c).again ==> Tick(m, c).after.current == 0
    ensures if m.current > 0 then Tick(m, c).delta >= 0 else Tick(m, c).delta <= 0
  {
    var f := if Forward(m) then m else m.Negated();
    TickNegated(m, c);
    ForwardTick(f, c);
    Scale(1, c.divisor - c.multiplier, f.current);
  }

  // ----- The whole coast

  /** The deltas dispatched from now on, and the momentum when the timer stops. */
  function Coast(m: Momentum, c: Settings): (r: (seq<int>, Momentum))
    requires c.Valid() && Aligned(m)
    decreases Energy(m, c), m.current != 0
  {
    if m.current == 0 then ([], m)
    else
      TickLosesEnergy(m, c);
      var t := Tick(m, c);
      if !t.again then ([], t.after)
      else
        var (deltas, fin) := Coast(t.after, c);
        ([t.delta] + deltas, fin)
  }

  /** The scroll of one interval, with what was carried, exceeds the threshold. */
  predicate Moving(m: Momentum, c: Settings)
    requires m.current != 0 ==> m.interval != 0
  {
    m.current != 0 && Abs(Quot(m.current, m.interval) + m.rest2) > c.thresh
  }

  /** The momentum after `n` timer events. */
  function Later(m: Momentum, c: Settings, n: nat): (m': Momentum)
    requires c.Valid() && Aligned(m)
    ensures Aligned(m')
    decreases n
  {
    if n == 0 || m.current == 0 then m
    else
      TickLosesEnergy(m, c);
      Later(Tick(m, c).after, c, n - 1)
  }

  /** The timer goes on exactly as long as the step exceeds the threshold: the coast has an n-th delta if and only if
      the momentum is still moving after n timer events. */
  lemma {:induction false} CoastGoesOnIff(m: Momentum, c: Settings, n: nat)
    requires c.Valid() && Aligned(m)
    ensures n < |Coast(m, c).0| <==> Moving(Later(m, c, n), c)
    decreases n
  {
    if m.current != 0 {
      TickLosesEnergy(m, c);
      var t := Tick(m, c);
      if n > 0 && t.again {
        CoastGoesOnIff(t.after, c, n - 1);
      } else if n > 0 {
        assert Later(m, c, n) == t.after;
      }
    }
  }

  function Total(xs: seq<int>): (s: int) {
    if xs == [] then 0 else xs[0] + Total(xs[1..])
  }

  /** How far the coast has gone in raw units, remainder included. */
  function Distance(m: Momentum, c: Settings): int
    requires c.Valid() && Aligned(m)
  {
    var (deltas, fin) := Coast(m, c);
    Total(deltas) * c.wvdivisor + fin.rest2
  }

  lemma {:induction false} DistanceStep(m: Momentum, c: Settings)
    requires c.Valid() && Forward(m)
    ensures Forward(Tick(m, c).after)
    ensures var t := Tick(m, c);
            Distance(m, c) == if t.again then t.delta * c.wvdivisor + Distance(t.after, c) else m.rest2
  {
    if m.current != 0 {
      ForwardTick(m, c);
      TickLosesEnergy(m, c);
      var t := Tick(m, c);
      if t.again {
        var (deltas, fin) := Coast(t.after, c);
        assert ([t.delta] + deltas)[1..] == deltas;
        AddScaled(t.delta, Total(deltas), c.wvdivisor);
      }
    }
  }

  /** The arithmetic of one step of the bound: `k` is the interval and `gap` the divisor less the multiplier. */
  lemma {:induction false} BoundStep(distance: int, further: int, gain: int, rest: int, rest': int, moved: int,
                                     energy: int, energy': int, current: int, k: int, gap: int)
    requires k > 0 && gap > 0 && gain * k <= current
    requires moved + rest' == gain + rest && distance == moved + further
    requires energy' == energy - gap * current
    requires further * (k * gap) <= energy' + rest' * (k * gap)
    ensures distance * (k * gap) <= energy + rest * (k * gap)
  {
    var u := k * gap;
    AddScaled(moved, further, u);
    AddScaled(moved, rest', u);
    AddScaled(gain, rest, u);
    assert gain * u <= gap * current by {
      assert gain * u == (gain * k) * gap;
      Scale(gain * k, current, gap);
    }
  }

  ghost predicate WithinBound(m: Momentum, c: Settings)
    requires c.Valid() && Forward(m)
  {
    var u := m.interval * (c.divisor - c.multiplier);
    0 <= Distance(m, c) && Distance(m, c) * u <= Energy(m, c) + m.rest2 * u
  }

  lemma {:induction false} BoundBackwards(m: Momentum, c: Settings)
    requires c.Valid() && c.wvdivisor > 0 && Forward(m) && Tick(m, c).again && Forward(Tick(m, c).after)
    requires WithinBound(Tick(m, c).after, c)
    ensures WithinBound(m, c)
  {
    var t := Tick(m, c);
    DistanceStep(m, c);
    ForwardTick(m, c);
    Scale(0, t.delta, c.wvdivisor);
    QuotRem(m.current, m.interval);
    BoundStep(Distance(m, c), Distance(t.after, c), Quot(m.current, m.interval), m.rest2, t.after.rest2,
              t.delta * c.wvdivisor, Energy(m, c), Energy(t.after, c), m.current, m.interval, c.divisor - c.multiplier);
  }

  lemma {:induction false} ForwardBound(m: Momentum, c: Settings)
    requires c.Valid() && Forward(m)
    ensures WithinBound(m, c)
    decreases Energy(m, c), m.current != 0
  {
    DistanceStep(m, c);
    var t := Tick(m, c);
    Scale(0, m.current, c.divisor);
    Scale(0, m.rest2, m.interval * (c.divisor - c.multiplier));
    if t.again {
      TickLosesEnergy(m, c);
      if c.wvdivisor > 0 {
        ForwardBound(t.after, c);
        BoundBackwards(m, c);
      } else {
        Unscaled(m, c);
      }
    }
  }

  /** Without a scroll divisor nothing is dispatched and nothing carried. */
  lemma {:induction false} Unscaled(m: Momentum, c: Settings)
    requires c.Valid() && c.wvdivisor == 0 && Forward(m) && Tick(m, c).again
    ensures Forward(Tick(m, c).after) && Distance(Tick(m, c).after, c) == 0
    decreases Energy(m, c), m.current != 0
  {
    var t := Tick(m, c);
    TickLosesEnergy(m, c);
    DistanceStep(m, c);
    DistanceStep(t.after, c);
    if Tick(t.after, c).again {
      Unscaled(t.after, c);
    }
  }

  function Mirrored(xs: seq<int>): (r: seq<int>)
    ensures |r| == |xs| && forall i :: 0 <= i < |xs| ==> r[i] == -xs[i]
  {
    seq(|xs|, i requires 0 <= i < |xs| => -xs[i])
  }

  lemma {:induction false} TotalMirrored(xs: seq<int>)
    ensures Total(Mirrored(xs)) == -Total(xs)
  {
    if xs != [] {
      assert Mirrored(xs)[1..] == Mirrored(xs[1..]);
      TotalMirrored(xs[1..]);
    }
  }

  lemma {:induction false} CoastNegated(m: Momentum, c: Settings)
    requires c.Valid() && Aligned(m)
    ensures Coast(m.Negated(), c) == (Mirrored(Coast(m, c).0), Coast(m, c).1.Negated())
    decreases Energy(m, c), m.current != 0
  {
    if m.current != 0 {
      TickNegated(m, c);
      TickLosesEnergy(m, c);
      var t := Tick(m, c);
      if t.again {
        CoastNegated(t.after, c);
        var d := Coast(t.after, c).0;
        assert Mirrored([t.delta] + d) == [-t.delta] + Mirrored(d);
      }
    }
  }

  lemma {:induction false} DistanceNegated(m: Momentum, c: Settings)
    requires c.Valid() && Aligned(m)
    ensures Distance(m.Negated(), c) == -Distance(m, c)
  {
    CoastNegated(m, c);
    TotalMirrored(Coast(m, c).0);
    Negate(Total(Coast(m, c).0), c.wvdivisor);
  }

  lemma {:induction false} ForwardDeltas(m: Momentum, c: Settings)
    requires c.Valid() && Forward(m)
    ensures forall i :: 0 <= i < |Coast(m, c).0| ==> Coast(m, c).0[i] >= 0
    decreases Energy(m, c), m.current != 0
  {
    if m.current != 0 {
      ForwardTick(m, c);
      TickLosesEnergy(m, c);
      if Tick(m, c).again {
        ForwardDeltas(Tick(m, c).after, c);
      }
    }
  }

  /** A coast that starts with momentum `c0` and empty remainders ends (every active tick loses energy), never turns
      round, and goes no further than c0 * divisor / ((divisor - multiplier) * interval). */
  lemma {:induction false} CoastBounded(c0: int, interval: nat, c: Settings)
    requires c.Valid() && interval > 0
    ensures var m := Momentum(c0, 0, 0, interval);
            && Aligned(m)
            && Coast(m, c).1.current == 0
            && (forall i :: 0 <= i < |Coast(m, c).0| ==>
                 if c0 >= 0 then Coast(m, c).0[i] >= 0 else Coast(m, c).0[i] <= 0)
            && Abs(Distance(m, c)) * (interval * (c.divisor - c.multiplier)) <= Abs(c0) * c.divisor
  {
    var m := Momentum(c0, 0, 0, interval);
    var f := if c0 >= 0 then m else m.Negated();
    assert 0 * (interval * (c.divisor - c.multiplier)) == 0;
    ForwardBound(f, c);
    ForwardDeltas(f, c);
    CoastStops(m, c);
    if c0 < 0 {
      assert f.Negated() == m;
      CoastNegated(f, c);
      DistanceNegated(f, c);
    }
  }

  lemma {:induction false} CoastStops(m: Momentum, c: Settings)
    requires c.Valid() && Aligned(m)
    ensures Coast(m, c).1.current == 0
    decreases Energy(m, c), m.current != 0
  {
    if m.current != 0 {
      TickLosesEnergy(m, c);
      if Tick(m, c).again {
        CoastStops(Tick(m, c).after, c);
      }
    }
  }
}
