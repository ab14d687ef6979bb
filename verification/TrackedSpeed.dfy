/** What the published speeds and positions mean, in terms of distances and times
    (src/services/trackingFilter.service.ts). */
module TrackedSpeed {
  import opened Wrappers
  import opened Rounding
  import opened Geo
  import opened DisplaySpeed
  import opened TrackingFilter

  // ---- The samples' sums ----

  /** A further sample lengthens the recent path by its distance to the one before. */
  lemma RecentDistanceGrows(dist: Metric, samples: seq<Sample>, y: Sample)
    requires samples != []
    ensures
      var n := |samples|;
      && RecentDistance(dist, [y], 1) == 0.0
      && RecentDistance(dist, samples + [y], n + 1) == RecentDistance(dist, samples, n) + dist(samples[n - 1].at, y.at)
  {
    SameRecentDistance(dist, samples, y, |samples|);
  }

  lemma {:induction false} SameRecentDistance(dist: Metric, samples: seq<Sample>, y: Sample, n: nat)
    requires n <= |samples|
    ensures RecentDistance(dist, samples + [y], n) == RecentDistance(dist, samples, n)
  {
    if n > 1 { SameRecentDistance(dist, samples, y, n - 1); }
  }

  /** A further sample adds its distance and time to the totals exactly when time passed since the one before, and the
      distance is neither too short nor too fast. */
  lemma SegmentCountsExactly(dist: Metric, samples: seq<Sample>, y: Sample, minDistance: real, maxSpeed: real)
    requires samples != []
    ensures
      var x, n := samples[|samples| - 1], |samples|;
      var d, ms := dist(x.at, y.at), y.recordedAt - x.recordedAt;
      var before := Sums(dist, samples, minDistance, maxSpeed, n);
      var after := Sums(dist, samples + [y], minDistance, maxSpeed, n + 1);
      && Sums(dist, [y], minDistance, maxSpeed, 1) == Totals(0.0, 0)
      && after == if ms > 0 && d >= minDistance && KmPerHour(d, ms) <= maxSpeed
                  then Totals(before.meters + d, before.millis + ms) else before
  {
    hide KmPerHour;
    SameSums(dist, samples, y, minDistance, maxSpeed, |samples|);
  }

  lemma {:induction false} SameSums(
      dist: Metric, samples: seq<Sample>, y: Sample, minDistance: real, maxSpeed: real, n: nat)
    requires 0 < n <= |samples|
    ensures Sums(dist, samples + [y], minDistance, maxSpeed, n) == Sums(dist, samples, minDistance, maxSpeed, n)
  {
    hide KmPerHour;
    if n > 1 { SameSums(dist, samples, y, minDistance, maxSpeed, n - 1); }
  }

  /** There is no average of one sample; over less than 15 metres, or no time, it is zero; else it is the rounded
      ratio. */
  lemma AverageIsRatio(dist: Metric, samples: seq<Sample>, minDistance: real, maxSpeed: real)
    ensures
      var r := RollingAverage(dist, samples, minDistance, maxSpeed);
      && (r.None? <==> |samples| <= 1)
      && (|samples| > 1 ==>
            var t := Sums(dist, samples, minDistance, maxSpeed, |samples|);
            && (t.meters < 15.0 || t.millis <= 0 ==> r == Some(0.0))
            && (t.meters >= 15.0 && t.millis > 0 ==> r == Some(Round1(KmPerHour(t.meters, t.millis)))))
  {
    hide Round1, KmPerHour, Sums;
  }

  // ---- Speeds ----

  /** Kilometres per hour from metres and milliseconds, capped at the server's limit. */
  function CappedSpeed(cfg: Settings, meters: real, ms: int): real
    requires ms > 0
  {
    Min(KmPerHour(meters, ms), cfg.maxServerSpeedKmh)
  }

  lemma ServerSpeedIsCapped(cfg: Settings, meters: real, ms: int)
    requires ms > 0 && meters >= 0.0 && Sound(cfg)
    ensures
      var elapsed := ms as real / 1000.0;
      elapsed > 0.0 && ServerSpeed(cfg, meters, elapsed) == CappedSpeed(cfg, meters, ms) >= 0.0
  {
    var e, h := ms as real / 1000.0, Hours(ms);
    var x, y := meters / 1000.0 / e, KmPerHour(meters, ms);
    assert h > 0.0 && e == h * 3600.0;
    assert x * e == meters / 1000.0 && y * h == meters / 1000.0;
    assert x * e == (x * 3600.0) * h;
    SameFactor(x * 3600.0, y, h);
    SpeedIsRatio(meters, ms, 0.0);
  }

  lemma SameFactor(a: real, b: real, c: real)
    requires c > 0.0 && a * c == b * c
    ensures a == b
  {
    assert (a - b) * c == 0.0;
  }

  /** The device's speed as the filter uses it. */
  function DeviceSpeed(cfg: Settings, p: Packet): Option<real> {
    if p.speedKmh.Some? && p.speedKmh.value >= 0.0 then Some(Min(p.speedKmh.value, cfg.maxServerSpeedKmh)) else None
  }

  lemma DeviceSpeedIs(cfg: Settings, p: Packet)
    requires Sound(cfg)
    ensures SanitizeSpeed(cfg, p.speedKmh) == DeviceSpeed(cfg, p)
  {}

  function UsableAccuracy(p: Packet): Option<real> {
    if p.accuracyM.Some? && p.accuracyM.value >= 0.0 then p.accuracyM else None
  }

  /** Poorer accuracy never earns more confidence, which stays between 0.08 and 1. */
  lemma ConfidenceFalls(cfg: Settings, a: real, b: real)
    requires a <= b
    ensures 0.08 <= AccuracyConfidence(cfg, Some(b)) <= AccuracyConfidence(cfg, Some(a)) <= 1.0
    ensures AccuracyConfidence(cfg, Some(30.0)) >= AccuracyConfidence(cfg, None) >= AccuracyConfidence(cfg, Some(50.0))
  {}

  /** A weighted mean of the server-derived and the device's speed, the device counting for between low and high. */
  ghost predicate IsMean(v: real, server: real, device: real, low: real, high: real) {
    exists w: real :: low <= w <= high && v == Round1(Blend(server, device, w))
  }

  /** The speed of a moving bus: from the positions alone without a device speed; with one, an observed speed, to which
      a
      good and distinct move admits the device at 0.16 to 0.42, averaged with the device's at 0.22 to 0.48. */
  ghost predicate IsMovingSpeed(v: real, server: real, device: Option<real>, assist: bool) {
    if device.None? then v == Round1(server)
    else
      exists observed: real ::
        && (if assist then IsMean(observed, server, device.value, 0.16, 0.42) else observed == Round1(server))
        && IsMean(v, observed, device.value, 0.22, 0.48)
  }

  /** The move is distinct: on good accuracy, far enough and not too soon. */
  predicate Assists(dist: Metric, cfg: Settings, s: State, p: Packet) {
    && UsableAccuracy(p).UnwrapOr(cfg.freezeAccuracyThresholdM) <= cfg.freezeAccuracyThresholdM
    && dist(s.at, p.at) >= cfg.significantMovementDistanceM
    && (p.recordedAt - s.recordedAt) as real / 1000.0 >= cfg.minElapsedForMovementSeconds
  }

  lemma CurrentIsMovingSpeed(server: real, device: Option<real>, confidence: real, assist: bool, movement: real)
    ensures
      var observed := ObservedSpeed(server, device, confidence, assist);
      IsMovingSpeed(CurrentSpeed(observed, device, confidence, false, movement), server, device, assist)
  {
    hide Round1, Blend;
    var observed := ObservedSpeed(server, device, confidence, assist);
    if device.Some? {
      var u := Clamp(0.16 + confidence * 0.22, 0.16, 0.42);
      var w := Clamp(0.22 + confidence * 0.18 + movement * 0.12, 0.22, 0.48);
      assert 0.16 <= u <= 0.42 && 0.22 <= w <= 0.48;
      assert assist ==> observed == Round1(Blend(server, device.value, u));
      assert IsMean(CurrentSpeed(observed, device, confidence, false, movement), observed, device.value, 0.22, 0.48);
    } else {
      Twice(server);
    }
  }

  lemma Twice(x: real)
    ensures Round1(Round1(x)) == Round1(x)
  {
    Round1Idempotent(x);
  }

  lemma JudgedObserved(
      cfg: Settings, s: State, accuracy: Option<real>, raw: Option<real>, elapsed: real, distance: real, recent: real)
    requires elapsed > 0.0
    ensures
      var reading := Judge(cfg, s, accuracy, raw, elapsed, distance, recent);
      var assist :=
        && accuracy.UnwrapOr(cfg.freezeAccuracyThresholdM) <= cfg.freezeAccuracyThresholdM
        && distance >= cfg.significantMovementDistanceM && elapsed >= cfg.minElapsedForMovementSeconds;
      && reading.elapsedSeconds == elapsed
      && reading.observed ==
           ObservedSpeed(ServerSpeed(cfg, distance, elapsed), raw, AccuracyConfidence(cfg, accuracy), assist)
  {
    hide AccuracyConfidence, ServerSpeed, ObservedSpeed, Max, Min;
  }

  /** An accepted point's speed is zero for a standing bus and, for a moving one, that of the distance and time since
      the
      last point, averaged with the device's. */
  lemma SpeedIsDistanceOverTime(dist: Metric, cfg: Settings, s: State, p: Packet)
    requires Sound(cfg) && p.recordedAt > s.recordedAt
    ensures
      var next := Accepted(dist, cfg, s, p);
      var server := CappedSpeed(cfg, dist(s.at, p.at), p.recordedAt - s.recordedAt);
      && (next.isStationary ==> next.speedKmh == 0.0)
      && (!next.isStationary ==> IsMovingSpeed(next.speedKmh, server, DeviceSpeed(cfg, p), Assists(dist, cfg, s, p)))
  {
    hide Judge, Round1, IsMovingSpeed, Smooth, RollingAverage, TargetSpeed, AccuracyConfidence;
    hide CappedSpeed, ObservedSpeed;
    hide ServerSpeed, CurrentSpeed, RecentDistance;
    var accuracy, device := SanitizeAccuracy(p.accuracyM), SanitizeSpeed(cfg, p.speedKmh);
    var ms, d := p.recordedAt - s.recordedAt, dist(s.at, p.at);
    DeviceSpeedIs(cfg, p);
    ServerSpeedIsCapped(cfg, d, ms);
    assert ElapsedSeconds(s, p) == ms as real / 1000.0;
    var recent := Within(RoundedSamples(s.samples) + [Sample(p.at, 0.0, p.recordedAt)], p.recordedAt, 15000);
    JudgedObserved(cfg, s, accuracy, device, ElapsedSeconds(s, p), d, RecentDistance(dist, recent, |recent|));
    var reading := Read(dist, cfg, s, p);
    CurrentIsMovingSpeed(CappedSpeed(cfg, d, ms), device, AccuracyConfidence(cfg, accuracy), Assists(dist, cfg, s, p),
      reading.movementConfidence);
    StandingIsZero(reading.observed, device, AccuracyConfidence(cfg, accuracy), reading.movementConfidence);
  }

  lemma StandingIsZero(observed: real, raw: Option<real>, confidence: real, movement: real)
    ensures CurrentSpeed(observed, raw, confidence, true, movement) == 0.0
  {}

  /** Whatever the weights, such a speed lies between the rounded server-derived and device speeds. */
  lemma MovingSpeedIsBetween(v: real, server: real, device: real, assist: bool)
    requires IsMovingSpeed(v, server, Some(device), assist)
    ensures Min(Round1(server), Round1(device)) <= v <= Max(Round1(server), Round1(device))
  {
    hide Round1, Blend;
    var observed: real :|
      && (if assist then IsMean(observed, server, device, 0.16, 0.42) else observed == Round1(server))
      && IsMean(v, observed, device, 0.22, 0.48);
    var low, high := Min(server, device), Max(server, device);
    Round1Monotone(low, server);
    Round1Monotone(low, device);
    Round1Monotone(server, high);
    Round1Monotone(device, high);
    if assist { MeanIsBetween(observed, server, device, 0.16, 0.42); }
    MeanIsBetween(v, observed, device, 0.22, 0.48);
    Twice(low);
    Twice(high);
    assert Round1(low) <= observed <= Round1(high);
    Round1Monotone(Round1(low), observed);
    Round1Monotone(observed, Round1(high));
  }

  lemma MeanIsBetween(v: real, a: real, b: real, low: real, high: real)
    requires IsMean(v, a, b, low, high) && 0.0 <= low && high <= 1.0
    ensures Round1(Min(a, b)) <= v <= Round1(Max(a, b))
  {
    hide Round1;
    var w: real :| low <= w <= high && v == Round1(Blend(a, b, w));
    ConvexBounds(a, b, w, Min(a, b), Max(a, b));
    Round1Monotone(Min(a, b), Blend(a, b, w));
    Round1Monotone(Blend(a, b, w), Max(a, b));
  }

  /** After a clear move without a device speed, the filter publishes the rounded distance over time, capped. */
  lemma ClearMoveSpeed(dist: Metric, cfg: Settings, a: Packet, b: Packet)
    requires Sound(cfg) && ClearMove(dist, cfg, a, b) && b.speedKmh.None?
    ensures
      var s := After(dist, cfg, [Report(a), Report(b)]);
      && s.Some? && !s.value.isStationary && s.value.at == b.at
      && s.value.speedKmh ==
           Round1(Min(KmPerHour(dist(a.at, b.at), b.recordedAt - a.recordedAt), cfg.maxServerSpeedKmh))
  {
    hide Round1, KmPerHour, Read, Initial, Accepted, Sound, CappedSpeed, Assists;
    var first := Initial(cfg, a);
    AfterTwo(dist, cfg, a, b);
    InitialPlace(cfg, a);
    MovesClearly(dist, cfg, a, b);
    AcceptedPlace(dist, cfg, first, b);
    SpeedIsDistanceOverTime(dist, cfg, first, b);
    CappedIs(cfg, dist(a.at, b.at), b.recordedAt - a.recordedAt);
  }

  lemma AfterTwo(dist: Metric, cfg: Settings, a: Packet, b: Packet)
    requires a.accuracyM.None? && b.accuracyM.None?
    ensures After(dist, cfg, [Report(a), Report(b)]) == Some(Accepted(dist, cfg, Initial(cfg, a), b))
  {
    hide Initial, Accepted;
    var es := [Report(a), Report(b)];
    assert es[..1] == [Report(a)] && [Report(a)][..0] == [];
    assert After(dist, cfg, es[..1]) == Some(Initial(cfg, a));
  }

  lemma InitialPlace(cfg: Settings, p: Packet)
    ensures Initial(cfg, p).at == p.at && Initial(cfg, p).recordedAt == p.recordedAt
  {
    hide InitialSpeed, SanitizeSpeed;
  }

  lemma AcceptedPlace(dist: Metric, cfg: Settings, s: State, p: Packet)
    ensures
      var next, reading := Accepted(dist, cfg, s, p), Read(dist, cfg, s, p);
      && next.isStationary == !reading.moving
      && (reading.moving && !reading.frozen ==> next.at == p.at)
  {
    hide Round1, Read, SanitizeSpeed, Smooth, RollingAverage, TargetSpeed, CurrentSpeed, Within, AccuracyConfidence;
  }

  lemma CappedIs(cfg: Settings, meters: real, ms: int)
    requires ms > 0
    ensures CappedSpeed(cfg, meters, ms) == Min(KmPerHour(meters, ms), cfg.maxServerSpeedKmh)
  {}

  // ---- The display ----

  /** What the display tends to: 35 parts of the average and 65 of the current speed, rounded; zero for a standing bus.
      */
  function Target(next: State): real {
    if next.isStationary then 0.0
    else
      var average := next.averageSpeedKmh.UnwrapOr(next.speedKmh);
      Round1(next.speedKmh + (average - next.speedKmh) * 0.35)
  }

  lemma TargetIs(next: State)
    ensures TargetSpeed(!next.isStationary, next.speedKmh, next.averageSpeedKmh) == Target(next)
    ensures
      var average := next.averageSpeedKmh.UnwrapOr(next.speedKmh);
      !next.isStationary ==>
        Round1(Min(next.speedKmh, average)) <= Target(next) <= Round1(Max(next.speedKmh, average))
  {
    hide Round1;
    var c, average := next.speedKmh, next.averageSpeedKmh.UnwrapOr(next.speedKmh);
    assert Blend(c, average, 0.35) == c + (average - c) * 0.35;
    Round1Monotone(Min(c, average), Blend(c, average, 0.35));
    Round1Monotone(Blend(c, average, 0.35), Max(c, average));
  }

  lemma AcceptedShows(dist: Metric, cfg: Settings, s: State, p: Packet)
    ensures
      var next := Accepted(dist, cfg, s, p);
      next.displaySpeedKmh ==
        Smooth(cfg.rates, s.displaySpeedKmh, Target(next), ElapsedSeconds(s, p), next.isStationary,
          Target(next) < s.displaySpeedKmh * 0.55)
  {
    hide Smooth, Round1, Target, TargetSpeed, Read, CurrentSpeed, RollingAverage, Within, ElapsedSeconds;
    AcceptedDisplay(dist, cfg, s, p);
    TargetIs(Accepted(dist, cfg, s, p));
  }

  /** For a moving bus the display steps from a one-decimal speed toward its target and not past it, by at most the
      acceleration, or the deceleration, or the strong one when the target is below 55 percent of the display, times the
      time since the last point taken as 0.2 to 4 seconds; it gets there when that suffices. */
  lemma DisplayFollowsTarget(dist: Metric, cfg: Settings, s: State, p: Packet, n: nat)
    requires Sound(cfg) && s.displaySpeedKmh == Tenths(n) && p.recordedAt > s.recordedAt
    ensures
      var next := Accepted(dist, cfg, s, p);
      var seconds := Clamp((p.recordedAt - s.recordedAt) as real / 1000.0, 0.2, 4.0);
      var shown, brake := s.displaySpeedKmh, Target(next) < s.displaySpeedKmh * 0.55;
      !next.isStationary ==>
        && (Target(next) > shown ==>
              next.displaySpeedKmh == Round1(Min(Target(next), shown + cfg.rates.accel * seconds)))
        && (Target(next) <= shown && brake ==>
              next.displaySpeedKmh == Round1(Max(Target(next), shown - cfg.rates.strongBrake * seconds)))
        && (Target(next) <= shown && !brake ==>
              next.displaySpeedKmh == Round1(Max(Target(next), shown - cfg.rates.decel * seconds)))
        && Min(Target(next), shown) <= next.displaySpeedKmh <= Max(Target(next), shown)
  {
    hide Accepted, Target, Tenths, Round1, Smooth, Reach, Clamp;
    AcceptedShows(dist, cfg, s, p);
    var next := Accepted(dist, cfg, s, p);
    assert ElapsedSeconds(s, p) == (p.recordedAt - s.recordedAt) as real / 1000.0;
    var brake := Target(next) < s.displaySpeedKmh * 0.55;
    SmoothByRates(cfg.rates, s.displaySpeedKmh, Target(next), ElapsedSeconds(s, p), brake);
    TargetTenths(next);
    var q: int :| Target(next) == Tenths(q);
    StepIsBounded(cfg.rates, n, q, ElapsedSeconds(s, p), brake);
    TenthsOrdered(n, q);
    TenthsOrdered(q, n);
  }

  lemma TargetTenths(next: State)
    ensures exists q: int :: Target(next) == Tenths(q)
  {
    hide MathRound;
    assert Tenths(0) == 0.0;
    var x := next.speedKmh + (next.averageSpeedKmh.UnwrapOr(next.speedKmh) - next.speedKmh) * 0.35;
    assert !next.isStationary ==> Target(next) == Tenths(MathRound(x * 10.0));
  }

  lemma SmoothByRates(rates: Rates, prev: real, target: real, elapsedSeconds: real, strongBrake: bool)
    ensures
      var seconds := Clamp(elapsedSeconds, 0.2, 4.0);
      var next := Smooth(rates, prev, target, elapsedSeconds, false, strongBrake);
      && (target > prev ==> next == Round1(Min(target, prev + rates.accel * seconds)))
      && (target <= prev && strongBrake ==> next == Round1(Max(target, prev - rates.strongBrake * seconds)))
      && (target <= prev && !strongBrake ==> next == Round1(Max(target, prev - rates.decel * seconds)))
  {
    hide Round1;
    assert Clamp(elapsedSeconds, 0.2, 4.0) == Dt(elapsedSeconds);
    hide Clamp, Dt;
  }

  // ---- Standing and moving ----

  /** The length of the path through the samples of the last 15 seconds to the reported position. */
  function RecentPath(dist: Metric, s: State, p: Packet): real {
    var recent := Within(RoundedSamples(s.samples) + [Sample(p.at, 0.0, p.recordedAt)], p.recordedAt, 15000);
    RecentDistance(dist, recent, |recent|)
  }

  /** What speaks for movement. */
  datatype Evidence = FarAway | FarAlongThePath | SteadyAndFast | Released

  /** A distant position; a long recent path; a middling distance at some speed; or, for a standing bus, a short
      distance
      with the device reporting a release speed. All but the first and last need the points to be far enough apart in
      time. */
  ghost function EvidenceOf(dist: Metric, cfg: Settings, s: State, p: Packet): set<Evidence> {
    var d, device := dist(s.at, p.at), DeviceSpeed(cfg, p);
    var lateEnough := ElapsedSeconds(s, p) >= cfg.minElapsedForMovementSeconds;
    var deviceMoves := device.Some? && device.value >= cfg.rawSpeedAssistMinKmh;
    (if d >= cfg.confirmMovementDistanceM then {FarAway} else {})
    + (if RecentPath(dist, s, p) >= cfg.confirmMovementDistanceM && lateEnough then {FarAlongThePath} else {})
    + (if d >= cfg.releaseMovementDistanceM && lateEnough && (deviceMoves || Read(dist, cfg, s, p).observed >= 5.5)
       then {SteadyAndFast} else {})
    + (if s.isStationary && d >= cfg.stationaryExitDistanceM && ReleasedByDevice(cfg, p) then {Released} else {})
  }

  predicate ReleasedByDevice(cfg: Settings, p: Packet) {
    DeviceSpeed(cfg, p).Some? && DeviceSpeed(cfg, p).value >= cfg.stationaryReleaseSpeedKmh
  }

  /** A standing bus is held: the device does not release it, and the point is close, or weak, or soon after the last.
      */
  predicate IsHeld(dist: Metric, cfg: Settings, s: State, p: Packet) {
    && s.isStationary && !ReleasedByDevice(cfg, p)
    && (dist(s.at, p.at) <= cfg.stationaryHoldDistanceM
        || (UsableAccuracy(p).Some? && UsableAccuracy(p).value > cfg.freezeAccuracyThresholdM)
        || ElapsedSeconds(s, p) < cfg.minElapsedForMovementSeconds)
  }

  /** The distance that inaccuracy alone explains. */
  function Drift(cfg: Settings, p: Packet): real {
    var accuracy := UsableAccuracy(p);
    var drift :=
      if accuracy.Some? then Max(cfg.minMovementDistanceM, Min(accuracy.value * 0.45, 14.0))
      else cfg.minMovementDistanceM;
    if accuracy.Some? && accuracy.value > cfg.maxAcceptableAccuracyM then drift * 1.8
    else if accuracy.Some? && accuracy.value > cfg.freezeAccuracyThresholdM then drift * 1.35
    else drift
  }

  lemma JudgedExactly(
      cfg: Settings, s: State, accuracy: Option<real>, raw: Option<real>, elapsed: real, distance: real, recent: real)
    requires elapsed > 0.0
    ensures
      var reading := Judge(cfg, s, accuracy, raw, elapsed, distance, recent);
      var released := raw.Some? && raw.value >= cfg.stationaryReleaseSpeedKmh;
      var lateEnough := elapsed >= cfg.minElapsedForMovementSeconds;
      var held := s.isStationary && !released &&
        (distance <= cfg.stationaryHoldDistanceM || !lateEnough
         || accuracy.UnwrapOr(cfg.freezeAccuracyThresholdM) > cfg.freezeAccuracyThresholdM);
      && (reading.moving <==>
            && accuracy.UnwrapOr(cfg.maxAcceptableAccuracyM) <= cfg.maxAcceptableAccuracyM && !held
            && (|| distance >= cfg.confirmMovementDistanceM
                || (recent >= cfg.confirmMovementDistanceM && lateEnough)
                || (distance >= cfg.releaseMovementDistanceM && lateEnough
                    && (raw.UnwrapOr(cfg.rawSpeedAssistMinKmh - 1.0) >= cfg.rawSpeedAssistMinKmh
                        || reading.observed >= 5.5))
                || (s.isStationary && distance >= cfg.stationaryExitDistanceM && released)))
      && (reading.frozen ==> held || distance <= DriftOf(cfg, accuracy))
      && (distance <= DriftOf(cfg, accuracy) ==> reading.frozen)
  {
    hide AccuracyConfidence, ServerSpeed, ObservedSpeed, Clamp, Min;
  }

  function DriftOf(cfg: Settings, accuracy: Option<real>): real {
    var drift :=
      if accuracy.Some? then Max(cfg.minMovementDistanceM, Min(accuracy.value * 0.45, 14.0))
      else cfg.minMovementDistanceM;
    if accuracy.Some? && accuracy.value > cfg.maxAcceptableAccuracyM then drift * 1.8
    else if accuracy.Some? && accuracy.value > cfg.freezeAccuracyThresholdM then drift * 1.35
    else drift
  }

  lemma DriftIs(cfg: Settings, p: Packet)
    ensures DriftOf(cfg, SanitizeAccuracy(p.accuracyM)) == Drift(cfg, p)
    ensures SanitizeAccuracy(p.accuracyM) == UsableAccuracy(p)
  {}

  /** A bus moves exactly when the accuracy is acceptable, it is not held, and something speaks for movement. It then
      takes the reported position, unless inaccuracy alone explains the distance; a standing bus keeps its place. */
  lemma MovesExactlyOnEvidence(dist: Metric, cfg: Settings, s: State, p: Packet)
    requires Sound(cfg)
    ensures
      var next := Accepted(dist, cfg, s, p);
      && (!next.isStationary <==>
            && UsableAccuracy(p).UnwrapOr(cfg.maxAcceptableAccuracyM) <= cfg.maxAcceptableAccuracyM
            && !IsHeld(dist, cfg, s, p) && EvidenceOf(dist, cfg, s, p) != {})
      && next.at == if !next.isStationary && dist(s.at, p.at) > Drift(cfg, p) then p.at else s.at
  {
    var recent := Within(RoundedSamples(s.samples) + [Sample(p.at, 0.0, p.recordedAt)], p.recordedAt, 15000);
    var accuracy, device, d := SanitizeAccuracy(p.accuracyM), SanitizeSpeed(cfg, p.speedKmh), dist(s.at, p.at);
    DeviceSpeedIs(cfg, p);
    DriftIs(cfg, p);
    JudgedExactly(cfg, s, accuracy, device, ElapsedSeconds(s, p), d, RecentDistance(dist, recent, |recent|));
    HasEvidence(dist, cfg, s, p);
    hide Judge, Round1, Smooth, RollingAverage, TargetSpeed, AccuracyConfidence, CurrentSpeed;
    hide RecentDistance, Drift, DriftOf;
    hide EvidenceOf, SanitizeSpeed, DeviceSpeed, ElapsedSeconds, Within, RoundedSamples;
    hide SanitizeAccuracy, UsableAccuracy;
  }

  /** How much the movement is believed: 0.45 for a distant position, 0.25 for a long recent path, 0.18 for a middling
      distance and 0.12 for a moving device. */
  function Belief(dist: Metric, cfg: Settings, s: State, p: Packet): real {
    var d, lateEnough := dist(s.at, p.at), ElapsedSeconds(s, p) >= cfg.minElapsedForMovementSeconds;
    (if d >= cfg.confirmMovementDistanceM then 0.45 else 0.0)
    + (if RecentPath(dist, s, p) >= cfg.confirmMovementDistanceM && lateEnough then 0.25 else 0.0)
    + (if d >= cfg.releaseMovementDistanceM && lateEnough then 0.18 else 0.0)
    + (if DeviceSpeed(cfg, p).UnwrapOr(cfg.rawSpeedAssistMinKmh - 1.0) >= cfg.rawSpeedAssistMinKmh then 0.12 else 0.0)
  }

  /** The device counts for more the better the accuracy and the more the movement is believed: at 0.22, plus 0.18 of
      the
      confidence, plus 0.12 of the belief. */
  lemma DeviceWeightExactly(dist: Metric, cfg: Settings, s: State, p: Packet)
    requires Sound(cfg) && !Accepted(dist, cfg, s, p).isStationary && DeviceSpeed(cfg, p).Some?
    ensures
      var confidence := AccuracyConfidence(cfg, UsableAccuracy(p));
      var w := 0.22 + confidence * 0.18 + Belief(dist, cfg, s, p) * 0.12;
      && 0.22 <= w <= 0.52
      && Accepted(dist, cfg, s, p).speedKmh ==
           Round1(Blend(Read(dist, cfg, s, p).observed, DeviceSpeed(cfg, p).value, if w <= 0.48 then w else 0.48))
  {
    hide Accepted, Read, Belief, AccuracyConfidence, Round1, Blend, DeviceSpeed, UsableAccuracy, Sound;
    var confidence := AccuracyConfidence(cfg, UsableAccuracy(p));
    AcceptedSpeed(dist, cfg, s, p);
    BeliefIs(dist, cfg, s, p);
    ConfidenceRange(cfg, UsableAccuracy(p));
    WeightedCurrent(Read(dist, cfg, s, p).observed, DeviceSpeed(cfg, p).value, confidence, Belief(dist, cfg, s, p));
  }

  lemma AcceptedSpeed(dist: Metric, cfg: Settings, s: State, p: Packet)
    requires Sound(cfg)
    ensures
      var next, reading := Accepted(dist, cfg, s, p), Read(dist, cfg, s, p);
      && next.isStationary == !reading.moving
      && next.speedKmh ==
           CurrentSpeed(reading.observed, DeviceSpeed(cfg, p), AccuracyConfidence(cfg, UsableAccuracy(p)),
             next.isStationary, reading.movementConfidence)
  {
    DeviceSpeedIs(cfg, p);
    DriftIs(cfg, p);
    hide Round1, Read, SanitizeSpeed, SanitizeAccuracy, UsableAccuracy, DeviceSpeed, Drift, DriftOf;
    hide Smooth, RollingAverage;
    hide TargetSpeed, CurrentSpeed, Within, AccuracyConfidence;
  }

  lemma BeliefIs(dist: Metric, cfg: Settings, s: State, p: Packet)
    requires Sound(cfg)
    ensures
      Read(dist, cfg, s, p).movementConfidence == Belief(dist, cfg, s, p) && 0.0 <= Belief(dist, cfg, s, p) <= 1.0
  {
    var recent := Within(RoundedSamples(s.samples) + [Sample(p.at, 0.0, p.recordedAt)], p.recordedAt, 15000);
    var accuracy, device, d := SanitizeAccuracy(p.accuracyM), SanitizeSpeed(cfg, p.speedKmh), dist(s.at, p.at);
    DeviceSpeedIs(cfg, p);
    hide Judge, SanitizeSpeed, SanitizeAccuracy, DeviceSpeed, ElapsedSeconds, RoundedSamples, Within, RecentDistance;
    JudgedBelief(cfg, s, accuracy, device, ElapsedSeconds(s, p), d, RecentDistance(dist, recent, |recent|));
  }

  lemma WeightedCurrent(observed: real, device: real, confidence: real, belief: real)
    requires 0.0 <= confidence <= 1.0 && 0.0 <= belief <= 1.0
    ensures
      var w := 0.22 + confidence * 0.18 + belief * 0.12;
      CurrentSpeed(observed, Some(device), confidence, false, belief) ==
        Round1(Blend(observed, device, if w <= 0.48 then w else 0.48))
  {
    hide Round1, Blend;
  }

  lemma ConfidenceRange(cfg: Settings, accuracy: Option<real>)
    ensures 0.08 <= AccuracyConfidence(cfg, accuracy) <= 1.0
  {}

  lemma JudgedBelief(
      cfg: Settings, s: State, accuracy: Option<real>, raw: Option<real>, elapsed: real, distance: real, recent: real)
    requires elapsed > 0.0
    ensures
      var lateEnough := elapsed >= cfg.minElapsedForMovementSeconds;
      Judge(cfg, s, accuracy, raw, elapsed, distance, recent).movementConfidence ==
        (if distance >= cfg.confirmMovementDistanceM then 0.45 else 0.0)
        + (if recent >= cfg.confirmMovementDistanceM && lateEnough then 0.25 else 0.0)
        + (if distance >= cfg.releaseMovementDistanceM && lateEnough then 0.18 else 0.0)
        + (if raw.UnwrapOr(cfg.rawSpeedAssistMinKmh - 1.0) >= cfg.rawSpeedAssistMinKmh then 0.12 else 0.0)
  {
    hide AccuracyConfidence, ServerSpeed, ObservedSpeed;
  }

  lemma HasEvidence(dist: Metric, cfg: Settings, s: State, p: Packet)
    ensures EvidenceOf(dist, cfg, s, p) != {} <==>
      var d, device := dist(s.at, p.at), DeviceSpeed(cfg, p);
      var lateEnough := ElapsedSeconds(s, p) >= cfg.minElapsedForMovementSeconds;
      || d >= cfg.confirmMovementDistanceM
      || (RecentPath(dist, s, p) >= cfg.confirmMovementDistanceM && lateEnough)
      || (d >= cfg.releaseMovementDistanceM && lateEnough
          && (device.UnwrapOr(cfg.rawSpeedAssistMinKmh - 1.0) >= cfg.rawSpeedAssistMinKmh
              || Read(dist, cfg, s, p).observed >= 5.5))
      || (s.isStationary && d >= cfg.stationaryExitDistanceM && ReleasedByDevice(cfg, p))
  {
    hide Read, DeviceSpeed, ElapsedSeconds, RecentPath, ReleasedByDevice;
    var e, d, device := EvidenceOf(dist, cfg, s, p), dist(s.at, p.at), DeviceSpeed(cfg, p);
    var lateEnough := ElapsedSeconds(s, p) >= cfg.minElapsedForMovementSeconds;
    assert FarAway in e <==> d >= cfg.confirmMovementDistanceM;
    assert FarAlongThePath in e <==> RecentPath(dist, s, p) >= cfg.confirmMovementDistanceM && lateEnough;
    assert Released in e <==> s.isStationary && d >= cfg.stationaryExitDistanceM && ReleasedByDevice(cfg, p);
    assert e != {} ==> exists x :: x in e;
  }

  // ---- The rest of the state ----

  /** A first point starts the state where it was reported, at half a device speed that is clearly one of movement and
      not taken from a weak fix, and else at zero. */
  lemma FirstPointStarts(dist: Metric, cfg: Settings, p: Packet)
    requires Sound(cfg) && !IsHardReject(cfg, p)
    ensures
      var s := After(dist, cfg, [Report(p)]);
      var weak := UsableAccuracy(p).Some? && UsableAccuracy(p).value > cfg.freezeAccuracyThresholdM;
      var device := DeviceSpeed(cfg, p);
      var v :=
        if !weak && device.Some? && device.value - 1.0 >= cfg.rawSpeedAssistMinKmh then Round1(device.value / 2.0)
        else 0.0;
      && s.Some? && s.value.at == p.at && s.value.recordedAt == p.recordedAt && s.value.acceptedPointCount == 1
      && s.value.speedKmh == v && s.value.averageSpeedKmh == Some(v) && s.value.displaySpeedKmh == v
      && (s.value.isStationary <==> v <= cfg.stationaryThresholdKmh)
      && s.value.samples == [Sample(p.at, v, p.recordedAt)]
  {
    hide Round1;
    assert [Report(p)][..0] == [];
    assert After(dist, cfg, [Report(p)]) == Some(Initial(cfg, p));
  }

  /** A point is turned away exactly when its accuracy is worse than the hard limit; then the bus stands where it was,
      its
      points uncounted and its samples kept, and only the display moves on. */
  lemma RejectedKeepsPlace(dist: Metric, cfg: Settings, s: State, p: Packet)
    ensures IsHardReject(cfg, p) <==> UsableAccuracy(p).Some? && UsableAccuracy(p).value > cfg.hardRejectAccuracyM
    ensures IsHardReject(cfg, p) ==>
      var next := Filtered(dist, cfg, Some(s), p);
      && next.at == s.at && next.speedKmh == 0.0 && next.isStationary && next.recordedAt == p.recordedAt
      && next.averageSpeedKmh == Some(s.averageSpeedKmh.UnwrapOr(0.0))
      && next.acceptedPointCount == s.acceptedPointCount && |next.samples| == |s.samples|
      && forall i :: 0 <= i < |s.samples| ==>
           next.samples[i].at == s.samples[i].at && next.samples[i].recordedAt == s.samples[i].recordedAt
  {
    hide Round1, Smooth, SanitizeSpeed;
  }

  /** An accepted point is counted and becomes the last sample; samples stay while the rolling window covers them; the
      average is over what stays. */
  lemma AcceptedKeepsWindow(dist: Metric, cfg: Settings, s: State, p: Packet)
    requires cfg.rollingWindowMs >= 0
    ensures
      var next := Accepted(dist, cfg, s, p);
      var own := Sample(next.at, next.speedKmh, p.recordedAt);
      && next.acceptedPointCount == s.acceptedPointCount + 1 && next.recordedAt == p.recordedAt
      && next.heading == (if p.heading.Some? then p.heading else s.heading)
      && next.samples != [] && next.samples[|next.samples| - 1] == own
      && (forall x :: x in next.samples ==> p.recordedAt - x.recordedAt <= cfg.rollingWindowMs)
      && (forall x :: x in s.samples && p.recordedAt - x.recordedAt <= cfg.rollingWindowMs ==>
            x.(speedKmh := Round1(x.speedKmh)) in next.samples)
      && next.averageSpeedKmh ==
           RollingAverage(dist, next.samples, cfg.rollingMinSegmentDistanceM, cfg.rollingMaxSegmentSpeedKmh)
  {
    hide Round1, Smooth, Read, CurrentSpeed, RollingAverage, TargetSpeed, SanitizeSpeed, AccuracyConfidence;
    var next, prior := Accepted(dist, cfg, s, p), RoundedSamples(s.samples);
    WithinEndsWith(prior, Sample(next.at, next.speedKmh, p.recordedAt), p.recordedAt, cfg.rollingWindowMs);
    forall x | x in s.samples && p.recordedAt - x.recordedAt <= cfg.rollingWindowMs
      ensures x.(speedKmh := Round1(x.speedKmh)) in next.samples
    {
      var i :| 0 <= i < |s.samples| && s.samples[i] == x;
      assert prior[i] in prior;
    }
  }

  lemma WithinEndsWith(samples: seq<Sample>, y: Sample, now: int, window: int)
    requires now - y.recordedAt <= window
    ensures var r := Within(samples + [y], now, window);
      r != [] && r[|r| - 1] == y
  {
    assert (samples + [y])[..|samples|] == samples;
  }
}
