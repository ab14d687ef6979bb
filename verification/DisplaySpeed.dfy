/** The displayed speed follows its target at a limited rate (smoothDisplaySpeed of
    src/services/trackingFilter.service.ts). */
module DisplaySpeed {
  import opened Rounding

  /** Speed changes in km/h per second. */
  datatype Rates = Rates(accel: real, decel: real, strongBrake: real)

  predicate Positive(r: Rates) {
    r.accel > 0.0 && r.decel > 0.0 && r.strongBrake > 0.0
  }

  /** The LOCATION_* defaults (src/config/env.ts:92-94). */
  const DEFAULT_RATES := Rates(8.0, 12.0, 20.0)

  function Dt(elapsedSeconds: real): real {
    Max(0.2, Min(elapsedSeconds, 4.0))
  }

  /** How far, in km/h, one step may go. */
  function Reach(rates: Rates, rising: bool, strongBrake: bool, elapsedSeconds: real): real {
    (if rising then rates.accel else if strongBrake then rates.strongBrake else rates.decel) * Dt(elapsedSeconds)
  }

  /** smoothDisplaySpeed */
  function Smooth(
      rates: Rates, prev: real, target: real, elapsedSeconds: real, isStationary: bool, strongBrake: bool): real
  {
    if isStationary then
      var next := Max(0.0, prev - Reach(rates, false, true, elapsedSeconds));
      if next <= 0.3 then 0.0 else Round1(next)
    else if target > prev then Round1(Min(target, prev + Reach(rates, true, strongBrake, elapsedSeconds)))
    else Round1(Max(target, prev - Reach(rates, false, strongBrake, elapsedSeconds)))
  }

  lemma ReachIsPositive(rates: Rates, rising: bool, strongBrake: bool, elapsedSeconds: real)
    requires Positive(rates)
    ensures Reach(rates, rising, strongBrake, elapsedSeconds) > 0.0
  {
    var rate, dt := if rising then rates.accel else if strongBrake then rates.strongBrake else rates.decel,
      Dt(elapsedSeconds);
    assert rate > 0.0 && dt > 0.0;
    assert rate * dt > 0.0;
  }

  /** Smoothing keeps within bounds that are themselves one-decimal speeds. */
  lemma SmoothStaysWithin(
      rates: Rates, prev: real, target: real, elapsedSeconds: real, isStationary: bool, strongBrake: bool, n: int)
    requires Positive(rates) && n >= 0
    requires 0.0 <= prev <= Tenths(n) && 0.0 <= target <= Tenths(n)
    ensures 0.0 <= Smooth(rates, prev, target, elapsedSeconds, isStationary, strongBrake) <= Tenths(n)
  {
    ReachIsPositive(rates, true, strongBrake, elapsedSeconds);
    ReachIsPositive(rates, false, strongBrake || isStationary, elapsedSeconds);
    hide Reach, Round1;
    RoundWithin(Max(0.0, prev - Reach(rates, false, true, elapsedSeconds)), n);
    RoundWithin(Min(target, prev + Reach(rates, true, strongBrake, elapsedSeconds)), n);
    RoundWithin(Max(target, prev - Reach(rates, false, strongBrake, elapsedSeconds)), n);
  }

  lemma RoundWithin(x: real, n: int)
    ensures 0.0 <= x <= Tenths(n) ==> 0.0 <= Round1(x) <= Tenths(n)
  {
    hide Round1;
    Round1Exact(0);
    Round1Exact(n);
    if 0.0 <= x { Round1Monotone(0.0, x); }
    if x <= Tenths(n) { Round1Monotone(x, Tenths(n)); }
  }

  // ---- Steps in tenths ----

  /** How many tenths one step moves, at most. */
  function Stride(reach: real, rising: bool): int {
    if rising then MathRound(reach * 10.0) else -MathRound(-reach * 10.0)
  }

  function Toward(p: int, q: int, stride: int): int {
    if q > p then (if p + stride < q then p + stride else q)
    else if p - stride > q then p - stride
    else q
  }

  lemma RoundShifted(p: int, x: real)
    ensures Round1(Tenths(p) + x) == Tenths(p + MathRound(x * 10.0))
  {
    assert (Tenths(p) + x) * 10.0 == p as real + x * 10.0;
    FloorShifted(p, x * 10.0 + 0.5);
  }

  lemma FloorShifted(p: int, y: real)
    ensures (p as real + y).Floor == p + y.Floor
  {}

  lemma TenthsOrdered(p: int, q: int)
    ensures Tenths(p) <= Tenths(q) <==> p <= q
  {}

  lemma RisingStep(p: int, q: int, reach: real)
    requires q > p
    ensures Round1(Min(Tenths(q), Tenths(p) + reach)) == Tenths(Toward(p, q, Stride(reach, true)))
  {
    hide Round1, MathRound, Tenths;
    RoundShifted(p, reach);
    Round1Exact(q);
    RoundsBeyond(q, Tenths(p) + reach, p + MathRound(reach * 10.0));
  }

  lemma FallingStep(p: int, q: int, reach: real)
    requires q <= p
    ensures Round1(Max(Tenths(q), Tenths(p) - reach)) == Tenths(Toward(p, q, Stride(reach, false)))
  {
    hide Round1, MathRound, Tenths;
    assert Tenths(p) - reach == Tenths(p) + -reach;
    RoundShifted(p, -reach);
    Round1Exact(q);
    RoundsBeyond(q, Tenths(p) - reach, p + MathRound(-reach * 10.0));
  }

  /** Rounding keeps a value on its side of a one-decimal number. */
  lemma RoundsBeyond(q: int, x: real, n: int)
    requires Round1(x) == Tenths(n)
    ensures x >= Tenths(q) ==> n >= q
    ensures x <= Tenths(q) ==> n <= q
  {
    Round1Exact(q);
    TenthsOrdered(q, n);
    TenthsOrdered(n, q);
    hide Round1, Tenths;
    if x >= Tenths(q) { Round1Monotone(Tenths(q), x); }
    if x <= Tenths(q) { Round1Monotone(x, Tenths(q)); }
  }

  /** Between one-decimal speeds a step moves toward the target by a whole number of tenths and never past it. */
  lemma StepInTenths(rates: Rates, p: int, q: int, elapsedSeconds: real, strongBrake: bool)
    ensures
      Smooth(rates, Tenths(p), Tenths(q), elapsedSeconds, false, strongBrake)
      == Tenths(Toward(p, q, Stride(Reach(rates, q > p, strongBrake, elapsedSeconds), q > p)))
  {
    TenthsOrdered(p, q);
    TenthsOrdered(q, p);
    var reach := Reach(rates, q > p, strongBrake, elapsedSeconds);
    if q > p { RisingStep(p, q, reach); } else { FallingStep(p, q, reach); }
    hide Round1, Reach, Tenths, Toward, Stride;
  }

  /** A step lands between the previous speed and the target and moves no further than the rate allows, up to rounding.
      */
  lemma StepIsBounded(rates: Rates, p: int, q: int, elapsedSeconds: real, strongBrake: bool)
    requires Positive(rates)
    ensures
      var reach := Reach(rates, q > p, strongBrake, elapsedSeconds);
      var r := Smooth(rates, Tenths(p), Tenths(q), elapsedSeconds, false, strongBrake);
      && (q > p ==> Tenths(p) <= r <= Tenths(q) && r - Tenths(p) <= reach + 0.05)
      && (q <= p ==> Tenths(q) <= r <= Tenths(p) && Tenths(p) - r <= reach + 0.05)
  {
    var rising := q > p;
    var reach := Reach(rates, rising, strongBrake, elapsedSeconds);
    StepInTenths(rates, p, q, elapsedSeconds, strongBrake);
    ReachIsPositive(rates, rising, strongBrake, elapsedSeconds);
    hide Reach, Smooth;
    StrideNearReach(reach, rising);
    hide Stride;
    TowardIsBetween(p, q, Stride(reach, rising));
  }

  lemma StrideNearReach(reach: real, rising: bool)
    requires reach > 0.0
    ensures 0 <= Stride(reach, rising) && Tenths(Stride(reach, rising)) <= reach + 0.05
  {}

  lemma TowardIsBetween(p: int, q: int, stride: nat)
    ensures q > p ==> p <= Toward(p, q, stride) <= q && Toward(p, q, stride) - p <= stride
    ensures q <= p ==> q <= Toward(p, q, stride) <= p && p - Toward(p, q, stride) <= stride
  {}

  /** A step toward a different target stalls exactly when its reach rounds to no tenth at all. */
  lemma StallsExactly(rates: Rates, p: int, q: int, elapsedSeconds: real, strongBrake: bool)
    requires Positive(rates) && p != q
    ensures
      var reach := Reach(rates, q > p, strongBrake, elapsedSeconds);
      Smooth(rates, Tenths(p), Tenths(q), elapsedSeconds, false, strongBrake) == Tenths(p)
      <==> (if q > p then reach < 0.05 else reach <= 0.05)
  {
    var rising := q > p;
    var reach := Reach(rates, rising, strongBrake, elapsedSeconds);
    StepInTenths(rates, p, q, elapsedSeconds, strongBrake);
    ReachIsPositive(rates, rising, strongBrake, elapsedSeconds);
    hide Reach, Smooth;
    ZeroStride(reach, rising);
    StrideNearReach(reach, rising);
  }

  lemma ZeroStride(reach: real, rising: bool)
    ensures reach > 0.0 ==> (Stride(reach, rising) == 0 <==> if rising then reach < 0.05 else reach <= 0.05)
  {}

  // ---- Runs toward a fixed target ----

  datatype Tick = Tick(elapsedSeconds: real, strongBrake: bool)

  function Follow(rates: Rates, prev: real, target: real, ticks: seq<Tick>): real
    decreases |ticks|
  {
    if ticks == [] then prev
    else
      var t := ticks[0];
      Follow(rates, Smooth(rates, prev, target, t.elapsedSeconds, false, t.strongBrake), target, ticks[1..])
  }

  /** Every step can move at least m tenths. */
  ghost predicate StridesAtLeast(rates: Rates, rising: bool, ticks: seq<Tick>, m: nat) {
    forall i :: 0 <= i < |ticks| ==>
      Stride(Reach(rates, rising, ticks[i].strongBrake, ticks[i].elapsedSeconds), rising) >= m
  }

  function Gap(p: int, q: int): nat { if p < q then q - p else p - q }

  lemma TowardCloses(p: int, q: int, stride: int, m: nat)
    requires stride >= m
    ensures Gap(Toward(p, q, stride), q) <= (if Gap(p, q) > m then Gap(p, q) - m else 0)
    ensures p < q ==> Toward(p, q, stride) <= q
    ensures p >= q ==> Toward(p, q, stride) >= q
  {}

  /** Once enough steps were taken to cover the gap, the displayed speed is exactly its target, and stays there. */
  lemma {:induction false} FollowReachesTarget(rates: Rates, p: int, q: int, ticks: seq<Tick>, m: nat)
    requires Positive(rates) && StridesAtLeast(rates, p < q, ticks, m)
    requires Gap(p, q) <= m * |ticks|
    ensures Follow(rates, Tenths(p), Tenths(q), ticks) == Tenths(q)
    decreases |ticks|
  {
    hide Smooth, Reach, Stride, Toward, Tenths;
    if ticks == [] {
      assert m * 0 == 0;
    } else if p == q {
      AtTargetStays(rates, q, ticks);
    } else {
      var t, rest := ticks[0], ticks[1..];
      var stride := Stride(Reach(rates, q > p, t.strongBrake, t.elapsedSeconds), q > p);
      var next := Toward(p, q, stride);
      StepInTenths(rates, p, q, t.elapsedSeconds, t.strongBrake);
      TowardCloses(p, q, stride, m);
      assert m * |ticks| == m * |rest| + m;
      if next == q {
        AtTargetStays(rates, q, rest);
      } else {
        assert StridesAtLeast(rates, next < q, rest, m);
        FollowReachesTarget(rates, next, q, rest, m);
      }
    }
  }

  lemma {:induction false} AtTargetStays(rates: Rates, q: int, ticks: seq<Tick>)
    requires Positive(rates)
    ensures Follow(rates, Tenths(q), Tenths(q), ticks) == Tenths(q)
    decreases |ticks|
  {
    hide Smooth, Reach, Stride, Tenths;
    if ticks != [] {
      var t := ticks[0];
      var reach := Reach(rates, false, t.strongBrake, t.elapsedSeconds);
      StepInTenths(rates, q, q, t.elapsedSeconds, t.strongBrake);
      ReachIsPositive(rates, false, t.strongBrake, t.elapsedSeconds);
      StrideNearReach(reach, false);
      AtTargetStays(rates, q, ticks[1..]);
    }
  }

  /** With the default rates every step covers at least 16 tenths, so the target is reached in a sixteenth of the gap.
      */
  lemma DefaultsReachTarget(p: int, q: int, ticks: seq<Tick>)
    requires Gap(p, q) <= 16 * |ticks|
    ensures Follow(DEFAULT_RATES, Tenths(p), Tenths(q), ticks) == Tenths(q)
  {
    hide Stride, Reach, Follow;
    forall i | 0 <= i < |ticks|
      ensures Stride(Reach(DEFAULT_RATES, p < q, ticks[i].strongBrake, ticks[i].elapsedSeconds), p < q) >= 16
    {
      DefaultStride(p < q, ticks[i]);
    }
    FollowReachesTarget(DEFAULT_RATES, p, q, ticks, 16);
  }

  lemma DefaultStride(rising: bool, t: Tick)
    ensures Stride(Reach(DEFAULT_RATES, rising, t.strongBrake, t.elapsedSeconds), rising) >= 16
  {
    var dt := Dt(t.elapsedSeconds);
    assert Reach(DEFAULT_RATES, rising, t.strongBrake, t.elapsedSeconds) >= 8.0 * dt >= 1.6;
  }

  // ---- Coming to rest ----

  function Rest(rates: Rates, prev: real, ticks: seq<Tick>): real
    decreases |ticks|
  {
    if ticks == [] then prev
    else Rest(rates, Smooth(rates, prev, 0.0, ticks[0].elapsedSeconds, true, true), ticks[1..])
  }

  /** A stationary step drops to zero once 0.3 km/h or less would remain, else it moves by whole tenths. */
  lemma RestingStep(rates: Rates, p: nat, elapsedSeconds: real)
    requires Positive(rates)
    ensures
      var reach := Reach(rates, false, true, elapsedSeconds);
      Smooth(rates, Tenths(p), 0.0, elapsedSeconds, true, true) ==
        if Tenths(p) - reach <= 0.3 then 0.0 else Tenths(p - Stride(reach, false))
  {
    var reach := Reach(rates, false, true, elapsedSeconds);
    assert Tenths(p) - reach == Tenths(p) + -reach;
    RoundShifted(p, -reach);
    hide Round1, Reach, Tenths, MathRound;
  }

  /** A stationary bus comes to exactly zero once the steps cover its speed. */
  lemma {:induction false} RestReachesZero(rates: Rates, p: nat, ticks: seq<Tick>, m: nat)
    requires Positive(rates)
    requires forall i :: 0 <= i < |ticks| ==> Stride(Reach(rates, false, true, ticks[i].elapsedSeconds), false) >= m
    requires p <= m * |ticks|
    ensures Rest(rates, Tenths(p), ticks) == 0.0
    decreases |ticks|
  {
    hide Smooth, Reach, Stride;
    if ticks == [] {
      assert m * 0 == 0;
    } else {
      var t, rest := ticks[0], ticks[1..];
      var reach := Reach(rates, false, true, t.elapsedSeconds);
      var stride := Stride(reach, false);
      RestingStep(rates, p, t.elapsedSeconds);
      assert m * |ticks| == m * |rest| + m;
      if Tenths(p) - reach <= 0.3 {
        assert Tenths(0) == 0.0;
        assert 0 <= m * |rest|;
        RestReachesZero(rates, 0, rest, m);
      } else {
        StaysAboveZero(p, reach);
        RestReachesZero(rates, p - stride, rest, m);
      }
    }
  }

  lemma StaysAboveZero(p: nat, reach: real)
    requires Tenths(p) - reach > 0.3
    ensures p - Stride(reach, false) >= 0
  {}
}
