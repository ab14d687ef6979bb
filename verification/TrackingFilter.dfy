/** Filtering the positions a driver's phone reports (src/services/trackingFilter.service.ts). */
module TrackingFilter {
  import opened Wrappers
  import opened Rounding
  import opened Geo
  import opened DisplaySpeed

  /** The LOCATION_* settings. */
  datatype Settings = Settings(
    maxServerSpeedKmh: real,
    hardRejectAccuracyM: real,
    maxAcceptableAccuracyM: real,
    freezeAccuracyThresholdM: real,
    stationaryThresholdKmh: real,
    minMovementDistanceM: real,
    significantMovementDistanceM: real,
    releaseMovementDistanceM: real,
    confirmMovementDistanceM: real,
    rawSpeedAssistMinKmh: real,
    minElapsedForMovementSeconds: real,
    rollingWindowMs: int,
    rollingMinSegmentDistanceM: real,
    rollingMaxSegmentSpeedKmh: real,
    stationaryHoldDistanceM: real,
    stationaryReleaseSpeedKmh: real,
    stationaryExitDistanceM: real,
    rates: Rates)

  datatype Sample = Sample(at: LatLng, speedKmh: real, recordedAt: int)

  /** The realtime state of a trip. */
  datatype State = State(
    at: LatLng,
    speedKmh: real,
    rawSpeedKmh: Option<real>,
    averageSpeedKmh: Option<real>,
    displaySpeedKmh: real,
    heading: Option<real>,
    accuracyM: Option<real>,
    recordedAt: int,
    isStationary: bool,
    distanceDeltaMeters: Option<real>,
    elapsedSeconds: Option<real>,
    acceptedPointCount: nat,
    samples: seq<Sample>)

  /** An incoming point; a speed or accuracy that is not a finite number is None. */
  datatype Packet = Packet(at: LatLng, speedKmh: Option<real>, heading: Option<real>, accuracyM: Option<real>,
    recordedAt: int)

  // ---- Rolling average ----

  function Hours(ms: int): real { ms as real / 3600000.0 }

  function KmPerHour(meters: real, ms: int): real
    requires ms > 0
  {
    meters / 1000.0 / Hours(ms)
  }

  function Meters(dist: Metric, samples: seq<Sample>, i: nat): (d: real)
    requires 0 < i < |samples|
    ensures d >= 0.0
  {
    dist(samples[i - 1].at, samples[i].at)
  }

  function Millis(samples: seq<Sample>, i: nat): int
    requires 0 < i < |samples|
  {
    samples[i].recordedAt - samples[i - 1].recordedAt
  }

  /** Segment i counts: time passed, and it is neither too short nor too fast. */
  predicate IsKept(dist: Metric, samples: seq<Sample>, minDistance: real, maxSpeed: real, i: nat)
    requires 0 < i < |samples|
  {
    && Millis(samples, i) > 0
    && Meters(dist, samples, i) >= minDistance
    && KmPerHour(Meters(dist, samples, i), Millis(samples, i)) <= maxSpeed
  }

  datatype Totals = Totals(meters: real, millis: int)

  function Sums(dist: Metric, samples: seq<Sample>, minDistance: real, maxSpeed: real, n: nat): Totals
    requires 0 < n <= |samples|
  {
    if n == 1 then Totals(0.0, 0)
    else
      var t := Sums(dist, samples, minDistance, maxSpeed, n - 1);
      if IsKept(dist, samples, minDistance, maxSpeed, n - 1) then
        Totals(t.meters + Meters(dist, samples, n - 1), t.millis + Millis(samples, n - 1))
      else t
  }

  function AverageOf(t: Totals): real {
    if t.millis <= 0 || t.meters < 15.0 then 0.0 else Round1(KmPerHour(t.meters, t.millis))
  }

  function RollingAverage(dist: Metric, samples: seq<Sample>, minDistance: real, maxSpeed: real): Option<real> {
    if |samples| < 2 then None else Some(AverageOf(Sums(dist, samples, minDistance, maxSpeed, |samples|)))
  }

  /** computeRollingAverageKmh */
  method ComputeRollingAverageKmh(dist: Metric, samples: seq<Sample>, minDistance: real, maxSpeed: real)
    returns (r: Option<real>)
    ensures r == RollingAverage(dist, samples, minDistance, maxSpeed)
  {
    hide Round1, KmPerHour;
    if |samples| < 2 { return None; }
    var meters, millis := 0.0, 0;
    for i := 1 to |samples|
      invariant Totals(meters, millis) == Sums(dist, samples, minDistance, maxSpeed, i)
    {
      var d, ms := dist(samples[i - 1].at, samples[i].at), samples[i].recordedAt - samples[i - 1].recordedAt;
      if ms <= 0 { continue; }
      if d < minDistance || KmPerHour(d, ms) > maxSpeed { continue; }
      meters, millis := meters + d, millis + ms;
    }
    if millis <= 0 || meters < 15.0 { return Some(0.0); }
    r := Some(Round1(KmPerHour(meters, millis)));
  }

  lemma SpeedIsRatio(meters: real, ms: int, v: real)
    requires ms > 0
    ensures KmPerHour(meters, ms) <= v <==> meters / 1000.0 <= v * Hours(ms)
    ensures KmPerHour(meters, ms) >= v <==> meters / 1000.0 >= v * Hours(ms)
  {
    var h, s := Hours(ms), KmPerHour(meters, ms);
    assert h > 0.0;
    assert s * h == meters / 1000.0;
    if s < v { assert s * h < v * h; }
    if s > v { assert s * h > v * h; }
  }

  lemma HoursAdd(v: real, a: int, b: int)
    ensures v * Hours(a + b) == v * Hours(a) + v * Hours(b)
  {
    assert Hours(a + b) == Hours(a) + Hours(b);
  }

  /** The kept segments are all between two speeds. */
  ghost predicate SegmentsWithin(
      dist: Metric, samples: seq<Sample>, minDistance: real, maxSpeed: real, low: real, high: real)
  {
    forall i: nat :: 0 < i < |samples| && IsKept(dist, samples, minDistance, maxSpeed, i) ==>
      low <= KmPerHour(Meters(dist, samples, i), Millis(samples, i)) <= high
  }

  /** The average over the kept segments lies between their speeds: a mediant does. */
  lemma {:induction false} SumsAreMediant(
      dist: Metric, samples: seq<Sample>, minDistance: real, maxSpeed: real, low: real, high: real, n: nat)
    requires 0 < n <= |samples| && SegmentsWithin(dist, samples, minDistance, maxSpeed, low, high)
    ensures
      var t := Sums(dist, samples, minDistance, maxSpeed, n);
      && t.meters >= 0.0 && t.millis >= 0
      && low * Hours(t.millis) <= t.meters / 1000.0 <= high * Hours(t.millis)
  {
    hide KmPerHour, Hours;
    if n == 1 {
      assert Hours(0) == 0.0 by { HoursOfZero(); }
    } else {
      SumsAreMediant(dist, samples, minDistance, maxSpeed, low, high, n - 1);
      var i, t := n - 1, Sums(dist, samples, minDistance, maxSpeed, n - 1);
      if IsKept(dist, samples, minDistance, maxSpeed, i) {
        var d, ms := Meters(dist, samples, i), Millis(samples, i);
        SpeedIsRatio(d, ms, low);
        SpeedIsRatio(d, ms, high);
        HoursAdd(low, t.millis, ms);
        HoursAdd(high, t.millis, ms);
      }
    }
  }

  lemma HoursOfZero()
    ensures Hours(0) == 0.0
  {}

  lemma AverageIsBetweenSegments(
      dist: Metric, samples: seq<Sample>, minDistance: real, maxSpeed: real, low: real, high: real)
    requires |samples| >= 2 && SegmentsWithin(dist, samples, minDistance, maxSpeed, low, high)
    ensures
      var r := RollingAverage(dist, samples, minDistance, maxSpeed).value;
      r == 0.0 || Round1(low) <= r <= Round1(high)
  {
    hide KmPerHour, Round1, SegmentsWithin;
    var t := Sums(dist, samples, minDistance, maxSpeed, |samples|);
    SumsAreMediant(dist, samples, minDistance, maxSpeed, low, high, |samples|);
    if t.millis > 0 {
      SpeedIsRatio(t.meters, t.millis, low);
      SpeedIsRatio(t.meters, t.millis, high);
      var s := KmPerHour(t.meters, t.millis);
      Round1Monotone(low, s);
      Round1Monotone(s, high);
    }
  }

  // ---- Distance over the recent samples ----

  function RecentDistance(dist: Metric, samples: seq<Sample>, n: nat): real
    requires n <= |samples|
  {
    if n <= 1 then 0.0 else RecentDistance(dist, samples, n - 1) + Meters(dist, samples, n - 1)
  }

  /** computeRecentDistanceMeters */
  method ComputeRecentDistanceMeters(dist: Metric, samples: seq<Sample>) returns (total: real)
    ensures total == RecentDistance(dist, samples, |samples|)
  {
    total := 0.0;
    if |samples| < 2 { return; }
    for i := 1 to |samples|
      invariant total == RecentDistance(dist, samples, i)
    {
      total := total + dist(samples[i - 1].at, samples[i].at);
    }
  }

  // ---- Speeds ----

  function SanitizeSpeed(cfg: Settings, v: Option<real>): Option<real> {
    if v.None? || v.value < 0.0 then None else Some(Clamp(v.value, 0.0, cfg.maxServerSpeedKmh))
  }

  function SanitizeAccuracy(v: Option<real>): Option<real> {
    if v.None? || v.value < 0.0 then None else v
  }

  /** getAccuracyConfidence */
  function AccuracyConfidence(cfg: Settings, accuracyM: Option<real>): real {
    if accuracyM.None? then 0.68
    else
      var a := accuracyM.value;
      if a <= 8.0 then 1.0 else if a <= 12.0 then 0.96 else if a <= 20.0 then 0.9 else if a <= 30.0 then 0.8
      else if a <= 50.0 then 0.6 else if a <= 80.0 then 0.38 else if a <= cfg.maxAcceptableAccuracyM then 0.2 else 0.08
  }

  function Blend(a: real, b: real, weight: real): real {
    a * (1.0 - weight) + b * weight
  }

  /** computeWeightedObservedSpeedKmh */
  function ObservedSpeed(serverDerived: real, raw: Option<real>, confidence: real, allowRawAssist: bool): real {
    if !allowRawAssist || raw.None? then Round1(serverDerived)
    else Round1(Blend(serverDerived, raw.value, Clamp(0.16 + confidence * 0.22, 0.16, 0.42)))
  }

  /** computeCurrentSpeedKmh */
  function CurrentSpeed(
      observed: real, raw: Option<real>, confidence: real, isStationary: bool, movementConfidence: real): real
  {
    if isStationary then 0.0
    else if raw.None? then Round1(observed)
    else Round1(Blend(observed, raw.value, Clamp(0.22 + confidence * 0.18 + movementConfidence * 0.12, 0.22, 0.48)))
  }

  // ---- filterTrackingPoint ----

  function RoundedSamples(samples: seq<Sample>): (r: seq<Sample>)
    ensures |r| == |samples|
    ensures forall i :: 0 <= i < |samples| ==> r[i] == samples[i].(speedKmh := Round1(samples[i].speedKmh))
  {
    if samples == [] then []
    else
      var last := samples[|samples| - 1];
      RoundedSamples(samples[..|samples| - 1]) + [last.(speedKmh := Round1(last.speedKmh))]
  }

  /** The samples recorded at most the given time before now. */
  function Within(samples: seq<Sample>, now: int, window: int): (r: seq<Sample>)
    ensures forall s :: s in r <==> s in samples && now - s.recordedAt <= window
  {
    if samples == [] then []
    else
      var r, last := Within(samples[..|samples| - 1], now, window), samples[|samples| - 1];
      assert samples == samples[..|samples| - 1] + [last];
      if now - last.recordedAt <= window then r + [last] else r
  }

  /** A point too inaccurate to use: the bus is taken to stand where it was. */
  function Rejected(cfg: Settings, previous: Option<State>, p: Packet): State {
    var accuracy, raw := SanitizeAccuracy(p.accuracyM), SanitizeSpeed(cfg, p.speedKmh);
    if previous.None? then
      State(p.at, 0.0, raw, Some(0.0), 0.0, p.heading, accuracy, p.recordedAt, true, Some(0.0), None, 1,
        [Sample(p.at, 0.0, p.recordedAt)])
    else
      var s := previous.value;
      var elapsed := Max(0.0, (p.recordedAt - s.recordedAt) as real / 1000.0);
      State(s.at, 0.0, raw, Some(s.averageSpeedKmh.UnwrapOr(0.0)),
        Smooth(cfg.rates, s.displaySpeedKmh, 0.0, elapsed, true, true),
        if s.heading.Some? then s.heading else p.heading, accuracy, p.recordedAt, true,
        Some(0.0), Some(Round1(elapsed)), s.acceptedPointCount, RoundedSamples(s.samples))
  }

  function InitialSpeed(cfg: Settings, accuracy: Option<real>, raw: Option<real>): real {
    if accuracy.Some? && accuracy.value > cfg.freezeAccuracyThresholdM then 0.0
    else if raw.Some? && raw.value >= cfg.rawSpeedAssistMinKmh + 1.0 then Round1(raw.value * 0.5)
    else 0.0
  }

  function Initial(cfg: Settings, p: Packet): State {
    var accuracy, raw := SanitizeAccuracy(p.accuracyM), SanitizeSpeed(cfg, p.speedKmh);
    var v := InitialSpeed(cfg, accuracy, raw);
    State(p.at, v, raw, Some(v), v, p.heading, accuracy, p.recordedAt, v <= cfg.stationaryThresholdKmh, None, None, 1,
      [Sample(p.at, v, p.recordedAt)])
  }

  /** What is read off a point before its speed is settled. */
  datatype Reading = Reading(
    elapsedSeconds: real, rawDistance: real, serverSpeed: real, observed: real,
    movementConfidence: real, moving: bool, frozen: bool)

  function ElapsedSeconds(s: State, p: Packet): (r: real)
    ensures r > 0.0
  {
    var raw := (p.recordedAt - s.recordedAt) as real / 1000.0;
    if raw > 0.0 then raw else 0.001
  }

  function ServerSpeed(cfg: Settings, distance: real, elapsedSeconds: real): real
    requires elapsedSeconds > 0.0
  {
    Clamp(distance / 1000.0 / elapsedSeconds * 3600.0, 0.0, cfg.maxServerSpeedKmh)
  }

  function Read(dist: Metric, cfg: Settings, s: State, p: Packet): Reading {
    var accuracy, raw := SanitizeAccuracy(p.accuracyM), SanitizeSpeed(cfg, p.speedKmh);
    var elapsed, distance := ElapsedSeconds(s, p), dist(s.at, p.at);
    var recent := Within(RoundedSamples(s.samples) + [Sample(p.at, 0.0, p.recordedAt)], p.recordedAt, 15000);
    Judge(cfg, s, accuracy, raw, elapsed, distance, RecentDistance(dist, recent, |recent|))
  }

  /** Decides whether the bus is moving. */
  function Judge(
      cfg: Settings, s: State, accuracy: Option<real>, raw: Option<real>, elapsed: real, distance: real,
      recentDistance: real): Reading
    requires elapsed > 0.0
  {
    var driftTolerance := Max(cfg.minMovementDistanceM,
      if accuracy.Some? then Min(accuracy.value * 0.45, 14.0) else cfg.minMovementDistanceM);
    var poorAccuracy := accuracy.Some? && accuracy.value > cfg.maxAcceptableAccuracyM;
    var weakAccuracy := accuracy.Some? && accuracy.value > cfg.freezeAccuracyThresholdM;
    var longEnough := elapsed >= cfg.minElapsedForMovementSeconds;
    var server := ServerSpeed(cfg, distance, elapsed);
    var rawSuggests := raw.Some? && raw.value >= cfg.rawSpeedAssistMinKmh;
    var rawStronglySuggests := raw.Some? && raw.value >= cfg.stationaryReleaseSpeedKmh;
    var byDistance := distance >= cfg.releaseMovementDistanceM && longEnough;
    var stronglyByDistance := distance >= cfg.confirmMovementDistanceM;
    var recently := recentDistance >= cfg.confirmMovementDistanceM && longEnough;
    var allowRawAssist := !weakAccuracy && distance >= cfg.significantMovementDistanceM && longEnough;
    var observed := ObservedSpeed(server, raw, AccuracyConfidence(cfg, accuracy), allowRawAssist);
    var hold := s.isStationary && !rawStronglySuggests &&
      (distance <= cfg.stationaryHoldDistanceM || weakAccuracy || !longEnough);
    var confidence := (if stronglyByDistance then 0.45 else 0.0) + (if recently then 0.25 else 0.0)
      + (if byDistance then 0.18 else 0.0) + (if rawSuggests then 0.12 else 0.0);
    var moving := !poorAccuracy && !hold &&
      (stronglyByDistance || recently || (byDistance && (rawSuggests || observed >= 5.5))
       || (s.isStationary && distance >= cfg.stationaryExitDistanceM && rawStronglySuggests));
    var frozen := hold ||
      (if poorAccuracy then distance <= driftTolerance * 1.8
       else if weakAccuracy then distance <= driftTolerance * 1.35
       else distance <= driftTolerance);
    Reading(elapsed, distance, server, observed, Clamp(confidence, 0.0, 1.0), moving, frozen)
  }

  /** The speed the display should tend to. */
  function TargetSpeed(moving: bool, current: real, average: Option<real>): real {
    if !moving then 0.0 else Round1(Blend(current, average.UnwrapOr(current), 0.35))
  }

  function Accepted(dist: Metric, cfg: Settings, s: State, p: Packet): State {
    var accuracy, raw := SanitizeAccuracy(p.accuracyM), SanitizeSpeed(cfg, p.speedKmh);
    var reading := Read(dist, cfg, s, p);
    var at := if reading.frozen || !reading.moving then s.at else p.at;
    var current := CurrentSpeed(reading.observed, raw, AccuracyConfidence(cfg, accuracy), !reading.moving,
      reading.movementConfidence);
    var next := Sample(at, current, p.recordedAt);
    var kept := Within(RoundedSamples(s.samples) + [next], p.recordedAt, cfg.rollingWindowMs);
    var average := RollingAverage(dist, kept, cfg.rollingMinSegmentDistanceM, cfg.rollingMaxSegmentSpeedKmh);
    var target := TargetSpeed(reading.moving, current, average);
    var display := Smooth(cfg.rates, s.displaySpeedKmh, target, reading.elapsedSeconds, !reading.moving,
      target < s.displaySpeedKmh * 0.55);
    State(at, current, raw, average, display, if p.heading.Some? then p.heading else s.heading, accuracy, p.recordedAt,
      !reading.moving, Some(Round1(dist(s.at, at))), Some(Round1(reading.elapsedSeconds)),
      s.acceptedPointCount + 1, kept)
  }

  predicate IsHardReject(cfg: Settings, p: Packet) {
    var accuracy := SanitizeAccuracy(p.accuracyM);
    accuracy.Some? && accuracy.value > cfg.hardRejectAccuracyM
  }

  function Filtered(dist: Metric, cfg: Settings, previous: Option<State>, p: Packet): State {
    if IsHardReject(cfg, p) then Rejected(cfg, previous, p)
    else if previous.None? then Initial(cfg, p)
    else Accepted(dist, cfg, previous.value, p)
  }

  /** filterTrackingPoint: the point is accepted unless hopelessly inaccurate, and the state moves on either way. */
  method FilterTrackingPoint(
      dist: Metric, cfg: Settings, previous: Option<State>, p: Packet) returns (accepted: bool, state: State)
    ensures state == Filtered(dist, cfg, previous, p)
    ensures accepted <==> !IsHardReject(cfg, p)
  {
    accepted := !IsHardReject(cfg, p);
    if !accepted { return accepted, Rejected(cfg, previous, p); }
    if previous.None? { return accepted, Initial(cfg, p); }
    state := Accept(dist, cfg, previous.value, p);
  }

  /** The normal case, with its two loops over the samples. */
  method Accept(dist: Metric, cfg: Settings, s: State, p: Packet) returns (state: State)
    ensures state == Accepted(dist, cfg, s, p)
  {
    hide Judge, Smooth, Round1, RollingAverage, CurrentSpeed, AccuracyConfidence, TargetSpeed;
    hide RecentDistance, SanitizeSpeed, Within, RoundedSamples, ElapsedSeconds;
    var accuracy, raw := SanitizeAccuracy(p.accuracyM), SanitizeSpeed(cfg, p.speedKmh);
    var prior := RoundedSamples(s.samples);
    var recent := Within(prior + [Sample(p.at, 0.0, p.recordedAt)], p.recordedAt, 15000);
    var recentDistance := ComputeRecentDistanceMeters(dist, recent);
    var reading := Judge(cfg, s, accuracy, raw, ElapsedSeconds(s, p), dist(s.at, p.at), recentDistance);
    assert reading == Read(dist, cfg, s, p);
    var at := if reading.frozen || !reading.moving then s.at else p.at;
    var current := CurrentSpeed(reading.observed, raw, AccuracyConfidence(cfg, accuracy), !reading.moving,
      reading.movementConfidence);
    var kept := Within(prior + [Sample(at, current, p.recordedAt)], p.recordedAt, cfg.rollingWindowMs);
    var average := ComputeRollingAverageKmh(dist, kept, cfg.rollingMinSegmentDistanceM, cfg.rollingMaxSegmentSpeedKmh);
    var target := TargetSpeed(reading.moving, current, average);
    var strongBrake := target < s.displaySpeedKmh * 0.55;
    var display := Smooth(cfg.rates, s.displaySpeedKmh, target, reading.elapsedSeconds, !reading.moving, strongBrake);
    state := State(
      at, current, raw, average, display, if p.heading.Some? then p.heading else s.heading, accuracy, p.recordedAt,
      !reading.moving, Some(Round1(dist(s.at, at))), Some(Round1(reading.elapsedSeconds)),
      s.acceptedPointCount + 1, kept);
  }

  // ---- Bounded speeds ----

  ghost predicate Sound(cfg: Settings) {
    cfg.maxServerSpeedKmh > 0.0 && Positive(cfg.rates)
  }

  /** The greater of the two limits, in tenths. */
  function LimitTenths(cfg: Settings): int {
    var m, s := MathRound(cfg.maxServerSpeedKmh * 10.0), MathRound(cfg.rollingMaxSegmentSpeedKmh * 10.0);
    if m >= s then m else s
  }

  ghost predicate InLimit(v: real, n: int) { 0.0 <= v <= Tenths(n) }

  ghost predicate SamplesInLimit(samples: seq<Sample>, n: int) {
    forall i :: 0 <= i < |samples| ==> InLimit(samples[i].speedKmh, n)
  }

  /** Every speed of the state is within n tenths. */
  ghost predicate Bounded(s: State, n: int) {
    && InLimit(s.speedKmh, n)
    && InLimit(s.averageSpeedKmh.UnwrapOr(0.0), n)
    && InLimit(s.displaySpeedKmh, n)
    && SamplesInLimit(s.samples, n)
  }

  lemma LimitIsRoundedMaximum(cfg: Settings)
    requires Sound(cfg)
    ensures LimitTenths(cfg) >= 0
    ensures Tenths(LimitTenths(cfg)) == Max(Round1(cfg.maxServerSpeedKmh), Round1(cfg.rollingMaxSegmentSpeedKmh))
  {
    Round1Monotone(0.0, cfg.maxServerSpeedKmh);
  }

  /** Rounding a speed up to the server limit stays within the limit in tenths. */
  lemma RoundInLimit(cfg: Settings, v: real)
    requires Sound(cfg)
    requires 0.0 <= v <= cfg.maxServerSpeedKmh || InLimit(v, LimitTenths(cfg))
    ensures InLimit(Round1(v), LimitTenths(cfg))
  {
    LimitIsRoundedMaximum(cfg);
    RoundWithin(v, LimitTenths(cfg));
    Round1Exact(0);
    hide Round1, LimitTenths, MathRound, Tenths;
    if 0.0 <= v <= cfg.maxServerSpeedKmh {
      Round1Monotone(0.0, v);
      Round1Monotone(v, cfg.maxServerSpeedKmh);
      TenthsOfZero();
    }
  }

  lemma TenthsOfZero()
    ensures Tenths(0) == 0.0
  {}

  /** A blend of an observed and a raw speed is again within the server's limit or the rounded one. */
  lemma BlendInLimit(cfg: Settings, a: real, b: real, weight: real)
    requires Sound(cfg) && 0.0 <= weight <= 1.0
    requires 0.0 <= a <= cfg.maxServerSpeedKmh || InLimit(a, LimitTenths(cfg))
    requires 0.0 <= b <= cfg.maxServerSpeedKmh || InLimit(b, LimitTenths(cfg))
    ensures InLimit(Round1(Blend(a, b, weight)), LimitTenths(cfg))
  {
    hide Round1, LimitTenths, Tenths;
    var high := Max(cfg.maxServerSpeedKmh, Tenths(LimitTenths(cfg)));
    ConvexBounds(a, b, weight, 0.0, high);
    RoundInLimit(cfg, Blend(a, b, weight));
  }

  lemma RawInLimit(cfg: Settings, v: Option<real>)
    requires Sound(cfg)
    ensures SanitizeSpeed(cfg, v).Some? ==> 0.0 <= SanitizeSpeed(cfg, v).value <= cfg.maxServerSpeedKmh
  {}

  lemma JudgedSpeeds(
      cfg: Settings, s: State, accuracy: Option<real>, raw: Option<real>, elapsed: real, distance: real, recent: real)
    requires Sound(cfg) && elapsed > 0.0
    ensures
      var reading := Judge(cfg, s, accuracy, raw, elapsed, distance, recent);
      && 0.0 <= reading.serverSpeed <= cfg.maxServerSpeedKmh
      && reading.elapsedSeconds == elapsed
      && exists assist: bool ::
           reading.observed == ObservedSpeed(reading.serverSpeed, raw, AccuracyConfidence(cfg, accuracy), assist)
  {
    hide AccuracyConfidence, Max, Min, Round1, Blend;
    var server := ServerSpeed(cfg, distance, elapsed);
    assert 0.0 <= server <= cfg.maxServerSpeedKmh by {
      ClampBounds(distance / 1000.0 / elapsed * 3600.0, 0.0, cfg.maxServerSpeedKmh);
    }
  }

  lemma ClampBounds(v: real, low: real, high: real)
    requires low <= high
    ensures low <= Clamp(v, low, high) <= high
  {}

  lemma ObservedInLimit(cfg: Settings, server: real, raw: Option<real>, confidence: real, assist: bool)
    requires Sound(cfg) && 0.0 <= server <= cfg.maxServerSpeedKmh
    requires raw.Some? ==> 0.0 <= raw.value <= cfg.maxServerSpeedKmh
    ensures InLimit(ObservedSpeed(server, raw, confidence, assist), LimitTenths(cfg))
  {
    hide Round1, LimitTenths, Blend, InLimit;
    var weight := Clamp(0.16 + confidence * 0.22, 0.16, 0.42);
    RoundInLimit(cfg, server);
    if raw.Some? { BlendInLimit(cfg, server, raw.value, weight); }
  }

  lemma CurrentInLimit(
      cfg: Settings, observed: real, raw: Option<real>, confidence: real, isStationary: bool, movement: real)
    requires Sound(cfg) && InLimit(observed, LimitTenths(cfg))
    requires raw.Some? ==> 0.0 <= raw.value <= cfg.maxServerSpeedKmh
    ensures InLimit(CurrentSpeed(observed, raw, confidence, isStationary, movement), LimitTenths(cfg))
  {
    ZeroInLimit(cfg);
    hide Round1, LimitTenths, Blend, InLimit;
    var weight := Clamp(0.22 + confidence * 0.18 + movement * 0.12, 0.22, 0.48);
    RoundInLimit(cfg, observed);
    if raw.Some? { BlendInLimit(cfg, observed, raw.value, weight); }
  }

  lemma ZeroInLimit(cfg: Settings)
    requires Sound(cfg)
    ensures InLimit(0.0, LimitTenths(cfg))
  {
    LimitIsRoundedMaximum(cfg);
  }

  lemma AverageInLimit(dist: Metric, cfg: Settings, samples: seq<Sample>)
    requires Sound(cfg)
    ensures
      var average := RollingAverage(dist, samples, cfg.rollingMinSegmentDistanceM, cfg.rollingMaxSegmentSpeedKmh);
      InLimit(average.UnwrapOr(0.0), LimitTenths(cfg))
  {
    ZeroInLimit(cfg);
    LimitIsRoundedMaximum(cfg);
    hide Round1, LimitTenths, Tenths, RollingAverage;
    var minDistance, maxSpeed := cfg.rollingMinSegmentDistanceM, cfg.rollingMaxSegmentSpeedKmh;
    RoundOfZero();
    if |samples| >= 2 {
      SegmentsAreWithin(dist, samples, minDistance, maxSpeed);
      AverageIsBetweenSegments(dist, samples, minDistance, maxSpeed, 0.0, Max(0.0, maxSpeed));
      Round1Monotone(0.0, cfg.maxServerSpeedKmh);
    } else {
      NoAverage(dist, samples, minDistance, maxSpeed);
    }
  }

  lemma NoAverage(dist: Metric, samples: seq<Sample>, minDistance: real, maxSpeed: real)
    requires |samples| < 2
    ensures RollingAverage(dist, samples, minDistance, maxSpeed) == None
  {}

  lemma RoundOfZero()
    ensures Round1(0.0) == 0.0
  {}

  lemma SegmentsAreWithin(dist: Metric, samples: seq<Sample>, minDistance: real, maxSpeed: real)
    ensures SegmentsWithin(dist, samples, minDistance, maxSpeed, 0.0, Max(0.0, maxSpeed))
  {
    forall i: nat | 0 < i < |samples| && IsKept(dist, samples, minDistance, maxSpeed, i)
      ensures 0.0 <= KmPerHour(Meters(dist, samples, i), Millis(samples, i)) <= Max(0.0, maxSpeed)
    {
      SpeedIsRatio(Meters(dist, samples, i), Millis(samples, i), 0.0);
    }
  }

  lemma TargetInLimit(cfg: Settings, moving: bool, current: real, average: Option<real>)
    requires Sound(cfg) && InLimit(current, LimitTenths(cfg)) && InLimit(average.UnwrapOr(0.0), LimitTenths(cfg))
    ensures InLimit(TargetSpeed(moving, current, average), LimitTenths(cfg))
  {
    ZeroInLimit(cfg);
    hide Round1, LimitTenths, Blend;
    BlendInLimit(cfg, current, average.UnwrapOr(current), 0.35);
  }

  lemma {:induction false} RoundedSamplesInLimit(cfg: Settings, samples: seq<Sample>)
    requires Sound(cfg) && SamplesInLimit(samples, LimitTenths(cfg))
    ensures SamplesInLimit(RoundedSamples(samples), LimitTenths(cfg))
  {
    hide Round1, LimitTenths, InLimit;
    forall i | 0 <= i < |samples| ensures InLimit(Round1(samples[i].speedKmh), LimitTenths(cfg)) {
      RoundInLimit(cfg, samples[i].speedKmh);
    }
  }

  lemma WithinKeepsLimit(samples: seq<Sample>, last: Sample, now: int, window: int, n: int)
    requires SamplesInLimit(samples, n) && InLimit(last.speedKmh, n)
    ensures SamplesInLimit(Within(samples + [last], now, window), n)
  {
    hide InLimit;
    var r := Within(samples + [last], now, window);
    forall i | 0 <= i < |r| ensures InLimit(r[i].speedKmh, n) {
      assert r[i] in samples + [last];
    }
  }

  lemma RejectedIsBounded(cfg: Settings, previous: Option<State>, p: Packet)
    requires Sound(cfg) && (previous.Some? ==> Bounded(previous.value, LimitTenths(cfg)))
    ensures Bounded(Rejected(cfg, previous, p), LimitTenths(cfg))
  {
    ZeroInLimit(cfg);
    LimitIsRoundedMaximum(cfg);
    hide Round1, LimitTenths, Tenths, Smooth, RoundedSamples;
    if previous.Some? {
      var s := previous.value;
      RoundedSamplesInLimit(cfg, s.samples);
      SmoothStaysWithin(cfg.rates, s.displaySpeedKmh, 0.0, Max(0.0, (p.recordedAt - s.recordedAt) as real / 1000.0),
        true, true, LimitTenths(cfg));
    }
  }

  lemma InitialIsBounded(cfg: Settings, p: Packet)
    requires Sound(cfg)
    ensures Bounded(Initial(cfg, p), LimitTenths(cfg))
  {
    ZeroInLimit(cfg);
    RawInLimit(cfg, p.speedKmh);
    hide Round1, LimitTenths, Tenths;
    var raw := SanitizeSpeed(cfg, p.speedKmh);
    if raw.Some? { RoundInLimit(cfg, raw.value * 0.5); }
  }

  lemma AcceptedIsBounded(dist: Metric, cfg: Settings, s: State, p: Packet)
    requires Sound(cfg) && Bounded(s, LimitTenths(cfg))
    ensures Bounded(Accepted(dist, cfg, s, p), LimitTenths(cfg))
  {
    LimitIsRoundedMaximum(cfg);
    hide Round1, LimitTenths, Tenths, Smooth, RoundedSamples, Within, CurrentSpeed, TargetSpeed;
    hide RollingAverage, Judge, AccuracyConfidence, SanitizeSpeed, RecentDistance;
    var n := LimitTenths(cfg);
    var accuracy, raw := SanitizeAccuracy(p.accuracyM), SanitizeSpeed(cfg, p.speedKmh);
    var reading, next := Read(dist, cfg, s, p), Accepted(dist, cfg, s, p);
    RawInLimit(cfg, p.speedKmh);
    ReadInLimit(dist, cfg, s, p);
    CurrentInLimit(cfg, reading.observed, raw, AccuracyConfidence(cfg, accuracy), !reading.moving,
      reading.movementConfidence);
    RoundedSamplesInLimit(cfg, s.samples);
    WithinKeepsLimit(RoundedSamples(s.samples), Sample(next.at, next.speedKmh, p.recordedAt), p.recordedAt,
      cfg.rollingWindowMs, n);
    AverageInLimit(dist, cfg, next.samples);
    TargetInLimit(cfg, reading.moving, next.speedKmh, next.averageSpeedKmh);
    var target := TargetSpeed(reading.moving, next.speedKmh, next.averageSpeedKmh);
    SmoothStaysWithin(cfg.rates, s.displaySpeedKmh, target, reading.elapsedSeconds, !reading.moving,
      target < s.displaySpeedKmh * 0.55, n);
  }

  lemma ReadInLimit(dist: Metric, cfg: Settings, s: State, p: Packet)
    requires Sound(cfg)
    ensures InLimit(Read(dist, cfg, s, p).observed, LimitTenths(cfg))
  {
    hide LimitTenths, InLimit, Judge, RecentDistance, ObservedSpeed, AccuracyConfidence, SanitizeSpeed;
    var accuracy, raw := SanitizeAccuracy(p.accuracyM), SanitizeSpeed(cfg, p.speedKmh);
    var recent := Within(RoundedSamples(s.samples) + [Sample(p.at, 0.0, p.recordedAt)], p.recordedAt, 15000);
    RawInLimit(cfg, p.speedKmh);
    JudgedSpeeds(cfg, s, accuracy, raw, ElapsedSeconds(s, p), dist(s.at, p.at), RecentDistance(dist, recent, |recent|));
    var reading := Read(dist, cfg, s, p);
    ObservedInLimit(cfg, reading.serverSpeed, raw, AccuracyConfidence(cfg, accuracy), true);
    ObservedInLimit(cfg, reading.serverSpeed, raw, AccuracyConfidence(cfg, accuracy), false);
  }

  // ---- Whole runs ----

  /** A packet of the driver's phone, or the expiry of the stored state. */
  datatype Event = Report(p: Packet) | Expire

  function After(dist: Metric, cfg: Settings, es: seq<Event>): Option<State> {
    if es == [] then None
    else
      var e := es[|es| - 1];
      if e.Expire? then None else Some(Filtered(dist, cfg, After(dist, cfg, es[..|es| - 1]), e.p))
  }

  /** In every run all speeds stay between zero and the greater of the two limits, each rounded to a tenth. */
  lemma {:induction false} SpeedsAreBounded(dist: Metric, cfg: Settings, es: seq<Event>)
    requires Sound(cfg)
    ensures var s := After(dist, cfg, es);
      s.Some? ==> Bounded(s.value, LimitTenths(cfg))
  {
    if es != [] {
      SpeedsAreBounded(dist, cfg, es[..|es| - 1]);
      var previous, e := After(dist, cfg, es[..|es| - 1]), es[|es| - 1];
      hide Bounded, LimitTenths, Rejected, Initial, Accepted;
      if e.Report? {
        RejectedIsBounded(cfg, previous, e.p);
        InitialIsBounded(cfg, e.p);
        if previous.Some? { AcceptedIsBounded(dist, cfg, previous.value, e.p); }
      }
    }
  }

  /** With a one-decimal server limit that the segment limit does not exceed, that is the server limit itself. */
  lemma SpeedsStayBelowServerLimit(dist: Metric, cfg: Settings, es: seq<Event>, n: nat)
    requires Sound(cfg) && cfg.maxServerSpeedKmh == Tenths(n) && cfg.rollingMaxSegmentSpeedKmh <= cfg.maxServerSpeedKmh
    ensures var s := After(dist, cfg, es);
      s.Some? ==>
        && 0.0 <= s.value.speedKmh <= cfg.maxServerSpeedKmh
        && 0.0 <= s.value.averageSpeedKmh.UnwrapOr(0.0) <= cfg.maxServerSpeedKmh
        && 0.0 <= s.value.displaySpeedKmh <= cfg.maxServerSpeedKmh
  {
    LimitIsRoundedMaximum(cfg);
    hide Round1, LimitTenths, Tenths, After;
    Round1Exact(n);
    Round1Monotone(cfg.rollingMaxSegmentSpeedKmh, cfg.maxServerSpeedKmh);
    SpeedsAreBounded(dist, cfg, es);
  }

  // ---- The segment limit matters ----

  /** A pair of good points far enough apart. */
  ghost predicate ClearMove(dist: Metric, cfg: Settings, a: Packet, b: Packet) {
    var d, ms := dist(a.at, b.at), b.recordedAt - a.recordedAt;
    && a.accuracyM.None? && b.accuracyM.None?
    && 0 < ms <= cfg.rollingWindowMs && ms as real / 1000.0 >= cfg.minElapsedForMovementSeconds
    && d >= 15.0 && d >= cfg.confirmMovementDistanceM && d > cfg.stationaryHoldDistanceM && d > cfg.minMovementDistanceM
    && d >= cfg.rollingMinSegmentDistanceM
  }

  /** The average follows a segment of any speed up to the segment limit, whatever the server limit is. */
  lemma AverageFollowsSegment(dist: Metric, cfg: Settings, a: Packet, b: Packet)
    requires ClearMove(dist, cfg, a, b)
    requires KmPerHour(dist(a.at, b.at), b.recordedAt - a.recordedAt) <= cfg.rollingMaxSegmentSpeedKmh
    ensures
      var s := After(dist, cfg, [Report(a), Report(b)]);
      s.Some? && s.value.averageSpeedKmh == Some(Round1(KmPerHour(dist(a.at, b.at), b.recordedAt - a.recordedAt)))
  {
    hide Round1, KmPerHour, CurrentSpeed, ObservedSpeed, Smooth, TargetSpeed, SanitizeSpeed;
    hide RecentDistance, ServerSpeed, Within, RoundedSamples, InitialSpeed;
    var es, first := [Report(a), Report(b)], Initial(cfg, a);
    assert es[..1] == [Report(a)] && [Report(a)][..0] == [];
    assert After(dist, cfg, es[..1]) == Some(first);
    var next := Accepted(dist, cfg, first, b);
    assert After(dist, cfg, es) == Some(next);
    MovesClearly(dist, cfg, a, b);
    KeptPair(first.samples[0], Sample(b.at, next.speedKmh, b.recordedAt), b.recordedAt, cfg.rollingWindowMs);
    PairAverage(dist, next.samples, cfg.rollingMinSegmentDistanceM, cfg.rollingMaxSegmentSpeedKmh);
  }

  lemma MovesClearly(dist: Metric, cfg: Settings, a: Packet, b: Packet)
    requires ClearMove(dist, cfg, a, b)
    ensures var reading := Read(dist, cfg, Initial(cfg, a), b);
      reading.moving && !reading.frozen
  {
    hide Round1, ObservedSpeed, SanitizeSpeed, RecentDistance, ServerSpeed, Within, RoundedSamples;
    hide InitialSpeed, AccuracyConfidence, Clamp;
  }

  lemma KeptPair(x: Sample, y: Sample, now: int, window: int)
    requires now - x.recordedAt <= window && now - y.recordedAt <= window
    ensures Within(RoundedSamples([x]) + [y], now, window) == [x.(speedKmh := Round1(x.speedKmh)), y]
  {
    hide Round1;
    var u := x.(speedKmh := Round1(x.speedKmh));
    assert RoundedSamples([x]) == [u];
    assert [u, y][..1] == [u] && [u][..0] == [];
    assert Within([u], now, window) == [u];
  }

  lemma PairAverage(dist: Metric, samples: seq<Sample>, minDistance: real, maxSpeed: real)
    requires |samples| == 2 && Millis(samples, 1) > 0
    requires Meters(dist, samples, 1) >= minDistance && Meters(dist, samples, 1) >= 15.0
    requires KmPerHour(Meters(dist, samples, 1), Millis(samples, 1)) <= maxSpeed
    ensures RollingAverage(dist, samples, minDistance, maxSpeed) ==
      Some(Round1(KmPerHour(Meters(dist, samples, 1), Millis(samples, 1))))
  {
    hide Round1, KmPerHour;
    assert Sums(dist, samples, minDistance, maxSpeed, 1) == Totals(0.0, 0);
    assert IsKept(dist, samples, minDistance, maxSpeed, 1);
  }

  /** So with a segment limit of 150 the average reaches 150 under a server limit of 120. */
  lemma AverageCanExceedServerLimit(dist: Metric, cfg: Settings, a: Packet, b: Packet)
    requires ClearMove(dist, cfg, a, b) && dist(a.at, b.at) == 1250.0 && b.recordedAt == a.recordedAt + 30_000
    requires cfg.maxServerSpeedKmh == 120.0 && cfg.rollingMaxSegmentSpeedKmh == 150.0
    ensures
      var s := After(dist, cfg, [Report(a), Report(b)]);
      s.Some? && s.value.averageSpeedKmh == Some(150.0)
  {
    hide After, ClearMove, Round1;
    assert KmPerHour(1250.0, 30_000) == 150.0;
    AverageFollowsSegment(dist, cfg, a, b);
    assert Tenths(1500) == 150.0;
    Round1Exact(1500);
  }

  /** The distance covered at the segment limit within the whole rolling window. */
  function FarthestMeters(cfg: Settings): real {
    cfg.rollingMaxSegmentSpeedKmh * Hours(cfg.rollingWindowMs) * 1000.0
  }

  /** The window is long enough for a move at the segment limit to be believed. */
  ghost predicate WideWindow(cfg: Settings) {
    var d := FarthestMeters(cfg);
    && cfg.rollingWindowMs > 0 && cfg.rollingWindowMs as real / 1000.0 >= cfg.minElapsedForMovementSeconds
    && d >= 15.0 && d >= cfg.confirmMovementDistanceM && d > cfg.stationaryHoldDistanceM && d > cfg.minMovementDistanceM
    && d >= cfg.rollingMinSegmentDistanceM
  }

  predicate AverageAtMost(s: Option<State>, limit: real) {
    s.Some? ==> s.value.averageSpeedKmh.UnwrapOr(0.0) <= limit
  }

  lemma AverageReachesSegmentLimit(dist: Metric, cfg: Settings, a: LatLng, b: LatLng) returns (es: seq<Event>)
    requires WideWindow(cfg) && dist(a, b) == FarthestMeters(cfg)
    ensures
      var s := After(dist, cfg, es);
      s.Some? && s.value.averageSpeedKmh == Some(Round1(cfg.rollingMaxSegmentSpeedKmh))
  {
    hide After, Round1, KmPerHour;
    var d, ms, v := FarthestMeters(cfg), cfg.rollingWindowMs, cfg.rollingMaxSegmentSpeedKmh;
    var p, q := Packet(a, None, None, None, 0), Packet(b, None, None, None, ms);
    es := [Report(p), Report(q)];
    SpeedIsRatio(d, ms, v);
    assert KmPerHour(d, ms) == v;
    AverageFollowsSegment(dist, cfg, p, q);
  }

  /** Under a one-decimal server limit, and where two places are a window's drive at the segment limit apart, the
      average
      never exceeds the server limit exactly when the segment limit, rounded to a tenth, does not. */
  lemma AverageBelowServerLimitExactly(dist: Metric, cfg: Settings, n: nat, a: LatLng, b: LatLng)
    requires Sound(cfg) && cfg.maxServerSpeedKmh == Tenths(n)
    requires WideWindow(cfg) && dist(a, b) == FarthestMeters(cfg)
    ensures (forall es: seq<Event> :: AverageAtMost(After(dist, cfg, es), cfg.maxServerSpeedKmh))
      <==> Round1(cfg.rollingMaxSegmentSpeedKmh) <= cfg.maxServerSpeedKmh
  {
    LimitIsRoundedMaximum(cfg);
    hide After, Round1, Tenths, LimitTenths, WideWindow;
    Round1Exact(n);
    var run := AverageReachesSegmentLimit(dist, cfg, a, b);
    if Round1(cfg.rollingMaxSegmentSpeedKmh) <= cfg.maxServerSpeedKmh {
      forall es: seq<Event> ensures AverageAtMost(After(dist, cfg, es), cfg.maxServerSpeedKmh) {
        SpeedsAreBounded(dist, cfg, es);
      }
    } else {
      assert !AverageAtMost(After(dist, cfg, run), cfg.maxServerSpeedKmh);
    }
  }

  // ---- The display never jumps ----

  ghost predicate IsOneDecimal(v: real) {
    exists n :: v == Tenths(n)
  }

  lemma {:induction false} DisplayIsOneDecimal(dist: Metric, cfg: Settings, es: seq<Event>)
    ensures var s := After(dist, cfg, es);
      s.Some? ==> IsOneDecimal(s.value.displaySpeedKmh)
  {
    if es != [] {
      var previous, e := After(dist, cfg, es[..|es| - 1]), es[|es| - 1];
      if e.Report? { FilteredIsOneDecimal(dist, cfg, previous, e.p); }
    }
  }

  lemma FilteredIsOneDecimal(dist: Metric, cfg: Settings, previous: Option<State>, p: Packet)
    ensures IsOneDecimal(Filtered(dist, cfg, previous, p).displaySpeedKmh)
  {
    hide Accepted, IsOneDecimal;
    if IsHardReject(cfg, p) {
      if previous.Some? {
        SmoothIsOneDecimal(cfg.rates, previous.value.displaySpeedKmh, 0.0,
          Max(0.0, (p.recordedAt - previous.value.recordedAt) as real / 1000.0), true, true);
      } else { ZeroIsOneDecimal(); }
    } else if previous.None? {
      RoundIsOneDecimal(SanitizeSpeed(cfg, p.speedKmh).UnwrapOr(0.0) * 0.5);
      ZeroIsOneDecimal();
    } else {
      AcceptedIsOneDecimal(dist, cfg, previous.value, p);
    }
  }

  lemma AcceptedIsOneDecimal(dist: Metric, cfg: Settings, s: State, p: Packet)
    ensures IsOneDecimal(Accepted(dist, cfg, s, p).displaySpeedKmh)
  {
    hide Smooth, Round1, Read, CurrentSpeed, TargetSpeed, RollingAverage, Within, IsOneDecimal;
    var reading, next := Read(dist, cfg, s, p), Accepted(dist, cfg, s, p);
    var target := TargetSpeed(reading.moving, next.speedKmh, next.averageSpeedKmh);
    SmoothIsOneDecimal(cfg.rates, s.displaySpeedKmh, target, reading.elapsedSeconds, !reading.moving,
      target < s.displaySpeedKmh * 0.55);
  }

  lemma SmoothIsOneDecimal(
      rates: Rates, prev: real, target: real, elapsedSeconds: real, isStationary: bool, strongBrake: bool)
    ensures IsOneDecimal(Smooth(rates, prev, target, elapsedSeconds, isStationary, strongBrake))
  {
    hide Reach, MathRound;
    ZeroIsOneDecimal();
  }

  lemma ZeroIsOneDecimal()
    ensures IsOneDecimal(0.0)
  {
    assert Tenths(0) == 0.0;
  }

  lemma RoundIsOneDecimal(x: real)
    ensures IsOneDecimal(Round1(x))
  {}

  /** The change of speed a step allows, over the time since the last point taken as 0.2 to 4 seconds. */
  function Allowed(rate: real, s: State, p: Packet): real {
    rate * Dt((p.recordedAt - s.recordedAt) as real / 1000.0)
  }

  function Braking(rates: Rates): real { Max(rates.decel, rates.strongBrake) }

  lemma SmoothIsPaced(rates: Rates, p: nat, target: real, elapsedSeconds: real, isStationary: bool, strongBrake: bool)
    requires Positive(rates) && IsOneDecimal(target) && target >= 0.0
    ensures
      var r := Smooth(rates, Tenths(p), target, elapsedSeconds, isStationary, strongBrake);
      && r <= Tenths(p) + rates.accel * Dt(elapsedSeconds) + 0.05
      && r >= Tenths(p) - Braking(rates) * Dt(elapsedSeconds) - 0.3
  {
    var q: int :| target == Tenths(q);
    var reach := Reach(rates, false, strongBrake || isStationary, elapsedSeconds);
    BrakingIsMore(rates, strongBrake || isStationary, elapsedSeconds);
    ReachIsPositive(rates, true, strongBrake, elapsedSeconds);
    ReachIsPositive(rates, false, strongBrake || isStationary, elapsedSeconds);
    assert Reach(rates, true, strongBrake, elapsedSeconds) == rates.accel * Dt(elapsedSeconds);
    hide Smooth, Reach, Dt, Braking;
    if isStationary {
      RestingMove(rates, p, target, elapsedSeconds, strongBrake);
    } else {
      StepIsBounded(rates, p, q, elapsedSeconds, strongBrake);
    }
  }

  lemma RestingMove(rates: Rates, p: nat, target: real, elapsedSeconds: real, strongBrake: bool)
    requires Positive(rates)
    ensures
      var reach := Reach(rates, false, true, elapsedSeconds);
      Tenths(p) - reach - 0.3 <= Smooth(rates, Tenths(p), target, elapsedSeconds, true, strongBrake) <= Tenths(p)
  {
    var reach := Reach(rates, false, true, elapsedSeconds);
    ReachIsPositive(rates, false, true, elapsedSeconds);
    assert Smooth(rates, Tenths(p), target, elapsedSeconds, true, strongBrake) ==
      Smooth(rates, Tenths(p), 0.0, elapsedSeconds, true, true);
    RestingStep(rates, p, elapsedSeconds);
    hide Smooth, Reach;
    StrideNearReach(reach, false);
    if Tenths(p) - reach > 0.3 { StaysAboveZero(p, reach); }
  }

  lemma BrakingIsMore(rates: Rates, strongBrake: bool, elapsedSeconds: real)
    requires Positive(rates)
    ensures Reach(rates, false, strongBrake, elapsedSeconds) <= Braking(rates) * Dt(elapsedSeconds)
  {
    var rate, more, dt := if strongBrake then rates.strongBrake else rates.decel, Braking(rates), Dt(elapsedSeconds);
    assert rate <= more && dt >= 0.0;
    ProductIsPositive(more - rate, dt);
    assert (more - rate) * dt == more * dt - rate * dt;
  }

  lemma ProductIsPositive(a: real, b: real)
    requires a >= 0.0 && b >= 0.0
    ensures a * b >= 0.0
  {}

  lemma SameDt(s: State, p: Packet)
    ensures Dt(ElapsedSeconds(s, p)) == Dt((p.recordedAt - s.recordedAt) as real / 1000.0)
    ensures Dt(Max(0.0, (p.recordedAt - s.recordedAt) as real / 1000.0)) ==
      Dt((p.recordedAt - s.recordedAt) as real / 1000.0)
  {}

  /** In every run, whatever is reported next, accepted or rejected, the display changes no faster than the rates
      allow. */
  lemma DisplayNeverJumps(dist: Metric, cfg: Settings, es: seq<Event>, p: Packet)
    requires Sound(cfg) && After(dist, cfg, es).Some?
    ensures
      var s := After(dist, cfg, es).value;
      var next := Filtered(dist, cfg, Some(s), p);
      && next.displaySpeedKmh <= s.displaySpeedKmh + Allowed(cfg.rates.accel, s, p) + 0.05
      && next.displaySpeedKmh >= s.displaySpeedKmh - Allowed(Braking(cfg.rates), s, p) - 0.3
  {
    hide After, Filtered, LimitTenths, Smooth, Dt, Braking;
    SpeedsAreBounded(dist, cfg, es);
    DisplayIsOneDecimal(dist, cfg, es);
    var s := After(dist, cfg, es).value;
    var n: int :| s.displaySpeedKmh == Tenths(n);
    assert n >= 0;
    SameDt(s, p);
    FilteredIsPaced(dist, cfg, s, p, n);
  }

  ghost predicate IsPaced(cfg: Settings, s: State, p: Packet, display: real) {
    && display <= s.displaySpeedKmh + Allowed(cfg.rates.accel, s, p) + 0.05
    && display >= s.displaySpeedKmh - Allowed(Braking(cfg.rates), s, p) - 0.3
  }

  lemma SmoothStateIsPaced(
      cfg: Settings, s: State, p: Packet, n: nat, target: real, elapsedSeconds: real, isStationary: bool,
      strongBrake: bool)
    requires Sound(cfg) && s.displaySpeedKmh == Tenths(n) && IsOneDecimal(target) && target >= 0.0
    requires Dt(elapsedSeconds) == Dt((p.recordedAt - s.recordedAt) as real / 1000.0)
    ensures IsPaced(cfg, s, p, Smooth(cfg.rates, s.displaySpeedKmh, target, elapsedSeconds, isStationary, strongBrake))
  {
    hide Smooth, Dt, Braking, IsOneDecimal, Tenths;
    SmoothIsPaced(cfg.rates, n, target, elapsedSeconds, isStationary, strongBrake);
    assert Allowed(cfg.rates.accel, s, p) == cfg.rates.accel * Dt(elapsedSeconds);
    assert Allowed(Braking(cfg.rates), s, p) == Braking(cfg.rates) * Dt(elapsedSeconds);
  }

  lemma FilteredIsPaced(dist: Metric, cfg: Settings, s: State, p: Packet, n: nat)
    requires Sound(cfg) && Bounded(s, LimitTenths(cfg)) && s.displaySpeedKmh == Tenths(n)
    ensures IsPaced(cfg, s, p, Filtered(dist, cfg, Some(s), p).displaySpeedKmh)
  {
    SameDt(s, p);
    ZeroIsOneDecimal();
    hide Smooth, Dt, Braking, Accepted, IsHardReject, Tenths, SanitizeSpeed, SanitizeAccuracy;
    hide Round1, IsOneDecimal, Bounded, LimitTenths, IsPaced, Max, RoundedSamples;
    if IsHardReject(cfg, p) {
      SmoothStateIsPaced(cfg, s, p, n, 0.0, Max(0.0, (p.recordedAt - s.recordedAt) as real / 1000.0), true, true);
    } else {
      AcceptedIsPaced(dist, cfg, s, p, n);
    }
  }

  lemma AcceptedIsPaced(dist: Metric, cfg: Settings, s: State, p: Packet, n: nat)
    requires Sound(cfg) && Bounded(s, LimitTenths(cfg)) && s.displaySpeedKmh == Tenths(n)
    ensures IsPaced(cfg, s, p, Accepted(dist, cfg, s, p).displaySpeedKmh)
  {
    hide *;
    AcceptedIsBounded(dist, cfg, s, p);
    AcceptedDisplay(dist, cfg, s, p);
    SameDt(s, p);
    var reading, next := Read(dist, cfg, s, p), Accepted(dist, cfg, s, p);
    var target := TargetSpeed(reading.moving, next.speedKmh, next.averageSpeedKmh);
    BoundedSpeeds(next, LimitTenths(cfg));
    TargetInLimit(cfg, reading.moving, next.speedKmh, next.averageSpeedKmh);
    TargetIsOneDecimal(reading.moving, next.speedKmh, next.averageSpeedKmh);
    InLimitIsPositive(target, LimitTenths(cfg));
    SmoothStateIsPaced(cfg, s, p, n, target, reading.elapsedSeconds, !reading.moving,
      target < s.displaySpeedKmh * 0.55);
  }

  lemma BoundedSpeeds(s: State, n: int)
    requires Bounded(s, n)
    ensures InLimit(s.speedKmh, n) && InLimit(s.averageSpeedKmh.UnwrapOr(0.0), n)
  {}

  lemma InLimitIsPositive(v: real, n: int)
    requires InLimit(v, n)
    ensures v >= 0.0
  {}

  lemma AcceptedDisplay(dist: Metric, cfg: Settings, s: State, p: Packet)
    ensures
      var reading, next := Read(dist, cfg, s, p), Accepted(dist, cfg, s, p);
      var target := TargetSpeed(reading.moving, next.speedKmh, next.averageSpeedKmh);
      && reading.elapsedSeconds == ElapsedSeconds(s, p)
      && next.displaySpeedKmh ==
           Smooth(cfg.rates, s.displaySpeedKmh, target, reading.elapsedSeconds, !reading.moving,
             target < s.displaySpeedKmh * 0.55)
  {
    hide Smooth, Round1, CurrentSpeed, TargetSpeed, RollingAverage, Within, RoundedSamples;
    hide SanitizeSpeed, ObservedSpeed, AccuracyConfidence, ServerSpeed, RecentDistance;
  }

  lemma TargetIsOneDecimal(moving: bool, current: real, average: Option<real>)
    ensures IsOneDecimal(TargetSpeed(moving, current, average))
  {
    ZeroIsOneDecimal();
    hide MathRound, Blend;
  }

  // ---- Jitter ----

  /** The position only ever moves to the one reported, on usable accuracy and by more than the smallest movement. */
  lemma MovesOnlyOnEvidence(dist: Metric, cfg: Settings, s: State, p: Packet)
    ensures
      var next, accuracy := Accepted(dist, cfg, s, p), SanitizeAccuracy(p.accuracyM);
      && (next.at == s.at || (next.at == p.at && !next.isStationary && dist(s.at, p.at) > cfg.minMovementDistanceM))
      && (accuracy.Some? && accuracy.value > cfg.maxAcceptableAccuracyM ==>
          next.at == s.at && next.isStationary && next.speedKmh == 0.0)
  {
    hide Round1, TargetSpeed, RollingAverage, Within, RoundedSamples, SanitizeSpeed, ObservedSpeed;
    hide AccuracyConfidence, ServerSpeed, RecentDistance, Smooth;
  }

  /** A point close to where a standing bus is held, without a speed that would release it. */
  ghost predicate Lingers(dist: Metric, cfg: Settings, at: LatLng, p: Packet) {
    && dist(at, p.at) <= cfg.stationaryHoldDistanceM
    && (p.speedKmh.Some? ==> p.speedKmh.value < cfg.stationaryReleaseSpeedKmh)
  }

  function AfterPackets(dist: Metric, cfg: Settings, s: State, ps: seq<Packet>): State {
    if ps == [] then s else Filtered(dist, cfg, Some(AfterPackets(dist, cfg, s, ps[..|ps| - 1])), ps[|ps| - 1])
  }

  /** A parked bus stays parked: however its reported position jitters within the hold distance, accurate or not,
      it keeps its place at speed zero and its displayed speed never rises. */
  lemma {:induction false} ParkedBusStaysParked(dist: Metric, cfg: Settings, s: State, ps: seq<Packet>, n: nat)
    requires Sound(cfg) && s.isStationary && s.speedKmh == 0.0 && s.displaySpeedKmh == Tenths(n)
    requires forall i :: 0 <= i < |ps| ==> Lingers(dist, cfg, s.at, ps[i])
    ensures
      var t := AfterPackets(dist, cfg, s, ps);
      && t.at == s.at && t.isStationary && t.speedKmh == 0.0
      && exists m: nat :: m <= n && t.displaySpeedKmh == Tenths(m)
  {
    hide Filtered, Lingers, Tenths;
    if ps != [] {
      var rest, p := ps[..|ps| - 1], ps[|ps| - 1];
      ParkedBusStaysParked(dist, cfg, s, rest, n);
      var t := AfterPackets(dist, cfg, s, rest);
      var m: nat :| m <= n && t.displaySpeedKmh == Tenths(m);
      ParkedStep(dist, cfg, t, p, m);
    }
  }

  lemma ParkedStep(dist: Metric, cfg: Settings, s: State, p: Packet, n: nat)
    requires Sound(cfg) && s.isStationary && s.displaySpeedKmh == Tenths(n) && Lingers(dist, cfg, s.at, p)
    ensures
      var t := Filtered(dist, cfg, Some(s), p);
      && t.at == s.at && t.isStationary && t.speedKmh == 0.0
      && exists m: nat :: m <= n && t.displaySpeedKmh == Tenths(m)
  {
    hide Smooth, Accepted, Tenths, RoundedSamples, Round1, IsHardReject, SanitizeSpeed, SanitizeAccuracy;
    if IsHardReject(cfg, p) {
      RestNeverRises(cfg.rates, n, 0.0, Max(0.0, (p.recordedAt - s.recordedAt) as real / 1000.0), true);
    } else {
      HeldWhileLingering(dist, cfg, s, p, n);
    }
  }

  lemma HeldWhileLingering(dist: Metric, cfg: Settings, s: State, p: Packet, n: nat)
    requires Sound(cfg) && s.isStationary && s.displaySpeedKmh == Tenths(n) && Lingers(dist, cfg, s.at, p)
    ensures
      var t := Accepted(dist, cfg, s, p);
      && t.at == s.at && t.isStationary && t.speedKmh == 0.0
      && exists m: nat :: m <= n && t.displaySpeedKmh == Tenths(m)
  {
    LingeringIsNotMoving(dist, cfg, s, p);
    AcceptedDisplay(dist, cfg, s, p);
    hide Read, Smooth, TargetSpeed, Tenths, RollingAverage, Within, RoundedSamples, Round1, Lingers;
    hide AccuracyConfidence, SanitizeSpeed;
    var reading, next := Read(dist, cfg, s, p), Accepted(dist, cfg, s, p);
    var target := TargetSpeed(reading.moving, next.speedKmh, next.averageSpeedKmh);
    RestNeverRises(cfg.rates, n, target, reading.elapsedSeconds, target < s.displaySpeedKmh * 0.55);
  }

  lemma LingeringIsNotMoving(dist: Metric, cfg: Settings, s: State, p: Packet)
    requires Sound(cfg) && s.isStationary && Lingers(dist, cfg, s.at, p)
    ensures !Read(dist, cfg, s, p).moving
  {
    hide Round1, Within, RoundedSamples, ObservedSpeed, AccuracyConfidence, ServerSpeed, RecentDistance, ElapsedSeconds;
  }

  lemma RestNeverRises(rates: Rates, n: nat, target: real, elapsedSeconds: real, strongBrake: bool)
    requires Positive(rates)
    ensures exists m: nat :: m <= n && Smooth(rates, Tenths(n), target, elapsedSeconds, true, strongBrake) == Tenths(m)
  {
    var reach := Reach(rates, false, true, elapsedSeconds);
    assert Smooth(rates, Tenths(n), target, elapsedSeconds, true, strongBrake) ==
      Smooth(rates, Tenths(n), 0.0, elapsedSeconds, true, true);
    RestingStep(rates, n, elapsedSeconds);
    ReachIsPositive(rates, false, true, elapsedSeconds);
    assert Tenths(0) == 0.0;
    hide Smooth, Reach;
    StrideNearReach(reach, false);
    if Tenths(n) - reach <= 0.3 {
      assert 0 <= n;
    } else {
      StaysAboveZero(n, reach);
      assert n - Stride(reach, false) <= n;
    }
  }
}
