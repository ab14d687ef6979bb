/** Next stop and arrival estimates (src/services/eta.service.ts). */
module Eta {
  import opened Wrappers
  import opened Rounding
  import opened Geo
  import opened RouteProgress
  import opened RouteStops

  // ---- computeNextStopAndEta ----

  datatype Confidence = High | Medium | Low

  datatype Speed = Speed(kmh: real, trustedRolling: Option<real>, confidence: Confidence)

  /** getTrustedSpeed */
  function TrustedSpeed(last: Option<real>, rolling: Option<real>, default: real): Speed {
    var trustedRolling := if rolling.Some? && rolling.value >= 5.0 then rolling else None;
    var trustedLive := if last.Some? && last.value >= 4.0 then last else None;
    var kmh := if trustedRolling.Some? then trustedRolling.value else trustedLive.UnwrapOr(default);
    var confidence :=
      if trustedRolling.Some? && trustedRolling.value >= 8.0 then High
      else if trustedLive.Some? && trustedLive.value >= 6.0 then Medium
      else Low;
    Speed(kmh, trustedRolling, confidence)
  }

  /** A query: where the bus is on a route of ordered stops, and the last stop it is known to have reached. */
  datatype Query = Query(
    stops: seq<Stop>, at: LatLng, lastArrivedStopId: Option<string>,
    arrivalRadius: real, lastSpeed: Option<real>, rollingSpeed: Option<real>, defaultSpeed: real)

  datatype StopDistance = StopDistance(stopId: string, stopName: string, stopOrder: int, distanceMeters: int)

  datatype StopEta = StopEta(stop: StopDistance, etaMinutes: Option<int>)

  datatype EtaResult = EtaResult(
    nearestStop: StopDistance, nextStop: Option<StopDistance>, etaMinutes: Option<int>,
    usedSpeedKmh: real, rollingAverageSpeedKmh: Option<real>, confidence: Confidence,
    finalStopReached: bool, stopEtas: seq<StopEta>)

  /** The result with its speeds rendered to two decimals; the estimates are made with the exact speed. */
  function Rendered(
    nearest: StopDistance, next: Option<StopDistance>, etaMinutes: Option<int>, speed: Speed,
    reached: bool, stopEtas: seq<StopEta>): EtaResult
  {
    var rolling := if speed.trustedRolling.Some? then Some(ToFixed2(speed.trustedRolling.value)) else None;
    EtaResult(nearest, next, etaMinutes, ToFixed2(speed.kmh), rolling, speed.confidence, reached, stopEtas)
  }

  function SpeedOf(q: Query): Speed {
    TrustedSpeed(q.lastSpeed, q.rollingSpeed, q.defaultSpeed)
  }

  function LastArrivedIndex(q: Query): int {
    if q.lastArrivedStopId.Some? then IndexOf(q.stops, q.lastArrivedStopId.value) else -1
  }

  /** The head of the stops sorted by distance: the sort is stable, so ties keep route order. */
  function NearestStop(dist: Metric, q: Query): (k: nat)
    requires q.stops != []
    ensures k < |q.stops|
  {
    NearestOf(dist, Route(q.stops), q.at, |q.stops|)
  }

  function NearestIndex(dist: Metric, q: Query): int
    requires q.stops != []
  {
    IndexOf(q.stops, q.stops[NearestStop(dist, q)].stopId)
  }

  predicate AtNearestStop(dist: Metric, q: Query)
    requires q.stops != []
  {
    dist(q.at, q.stops[NearestStop(dist, q)].at) <= q.arrivalRadius
  }

  /** The first stop further along than the given mark, or the last stop. */
  function FirstBeyond(dist: Metric, route: seq<LatLng>, mark: real, from: nat): (k: nat)
    requires from < |route|
    ensures from <= k < |route|
    decreases |route| - from
  {
    if CumulativeAt(dist, route, from) > mark || from == |route| - 1 then from
    else FirstBeyond(dist, route, mark, from + 1)
  }

  function AnySegment(project: Projector): Plane {
    Plane(project, (a, b) => true)
  }

  function ProgressOf(dist: Metric, project: Projector, q: Query): Progress
    requires q.stops != []
  {
    ProgressOn(dist, AnySegment(project), Route(q.stops), q.at)
  }

  /** The index of the next stop, None when there is none left. */
  function NextIndex(dist: Metric, project: Projector, q: Query): Option<nat>
    requires q.stops != []
  {
    var n, nearest, minimum := |q.stops|, NearestIndex(dist, q), LastArrivedIndex(q) + 1;
    if minimum == n then None
    else if AtNearestStop(dist, q) then
      if nearest < minimum then Some(minimum)
      else if nearest == n - 1 then None
      else Some(nearest + 1)
    else
      var progress := ProgressOf(dist, project, q);
      var beyond := FirstBeyond(dist, Route(q.stops), progress.progressMeters + Max(3.0, q.arrivalRadius * 0.15), 0);
      var candidate := if beyond <= progress.segmentStart then progress.segmentEnd else beyond;
      var next := if candidate < minimum then minimum else candidate;
      if next < n then Some(next) else None
  }

  function RouteTotal(dist: Metric, q: Query): real
    requires q.stops != []
  {
    CumulativeAt(dist, Route(q.stops), |q.stops| - 1)
  }

  predicate FinalStopReached(dist: Metric, project: Projector, q: Query)
    requires q.stops != []
  {
    || LastArrivedIndex(q) == |q.stops| - 1
    || (NextIndex(dist, project, q).None?
        && ((AtNearestStop(dist, q) && NearestIndex(dist, q) == |q.stops| - 1)
            || ProgressOf(dist, project, q).progressMeters >= RouteTotal(dist, q) - q.arrivalRadius * 0.5))
  }

  /** Straight to a stop within the radius, otherwise along the route, but never shorter than straight. */
  function Travel(direct: real, stopProgress: real, progress: real, total: real, arrivalRadius: real): real {
    if direct <= arrivalRadius then direct
    else Clamp(Max(0.0, stopProgress - progress), direct, total)
  }

  /** The distance still to travel to stop j, before rounding. */
  function DistanceTo(dist: Metric, project: Projector, q: Query, j: nat): real
    requires j < |q.stops|
  {
    Travel(dist(q.at, q.stops[j].at), CumulativeAt(dist, Route(q.stops), j),
      ProgressOf(dist, project, q).progressMeters,
      RouteTotal(dist, q), q.arrivalRadius)
  }

  function Minutes(distanceMeters: real, kmh: real): Option<int> {
    if kmh > 0.0 then
      var m := MathRound(distanceMeters / 1000.0 / kmh * 60.0);
      Some(if m > 1 then m else 1)
    else None
  }

  function Describe(s: Stop, distance: real): StopDistance {
    StopDistance(s.stopId, s.stopName, s.stopOrder, MathRound(distance))
  }

  function EtaTo(dist: Metric, project: Projector, q: Query, kmh: real, j: nat): StopEta
    requires j < |q.stops|
  {
    var d := DistanceTo(dist, project, q, j);
    StopEta(Describe(q.stops[j], d), Minutes(d, kmh))
  }

  function EtasFrom(dist: Metric, project: Projector, q: Query, kmh: real, k: nat): (r: seq<StopEta>)
    requires k <= |q.stops|
    ensures |r| == |q.stops| - k
  {
    seq(|q.stops| - k, i requires 0 <= i < |q.stops| - k => EtaTo(dist, project, q, kmh, k + i))
  }

  function Estimate(dist: Metric, project: Projector, q: Query): EtaResult
    requires q.stops != []
  {
    var speed := SpeedOf(q);
    var k := NearestStop(dist, q);
    var nearest := Describe(q.stops[k], dist(q.at, q.stops[k].at));
    var next := NextIndex(dist, project, q);
    var reached := FinalStopReached(dist, project, q);
    if next.None? then Rendered(nearest, None, None, speed, reached, [])
    else
      var stop := Describe(q.stops[next.value], DistanceTo(dist, project, q, next.value));
      Rendered(
        nearest, Some(stop), if reached then None else Minutes(stop.distanceMeters as real, speed.kmh), speed, reached,
        if reached then [] else EtasFrom(dist, project, q, speed.kmh, next.value))
  }

  /** computeNextStopAndEta */
  method ComputeNextStopAndEta(
    dist: Metric, project: Projector, at: LatLng, stops: seq<StopPoint>,
    lastSpeed: Option<real>, rollingSpeed: Option<real>,
    arrivalRadius: real, defaultSpeed: real, lastArrivedStopId: Option<string>) returns (r: Option<EtaResult>)
    ensures
      var ordered := NormalizedStops(stops);
      r == if ordered == [] then None
           else Some(Estimate(dist, project,
             Query(ordered, at, lastArrivedStopId, arrivalRadius, lastSpeed, rollingSpeed, defaultSpeed)))
  {
    hide ProgressOn, CumulativeAt, IndexOf, NearestOf, MathRound, Minutes, TrustedSpeed, SortByOrder, Travel;
    var ordered := NormalizedStops(stops);
    if ordered == [] { return None; }
    ghost var q := Query(ordered, at, lastArrivedStopId, arrivalRadius, lastSpeed, rollingSpeed, defaultSpeed);
    var n, route := |ordered|, Route(ordered);
    var nearest := NearestOf(dist, route, at, n);
    var nearestIndex := IndexOf(ordered, ordered[nearest].stopId);
    var lastArrivedIndex := if lastArrivedStopId.Some? then IndexOf(ordered, lastArrivedStopId.value) else -1;
    var nearestDistance := dist(at, ordered[nearest].at);
    var nearestStop := Describe(ordered[nearest], nearestDistance);
    var speed := TrustedSpeed(lastSpeed, rollingSpeed, defaultSpeed);
    var cumulative := BuildCumulativeDistances(dist, route);
    var progress := EstimateRouteProgress(dist, AnySegment(project), route, cumulative, at);
    assert cumulative[n - 1] == RouteTotal(dist, q);
    assert progress == ProgressOf(dist, project, q) && NearestStop(dist, q) == nearest;
    assert LastArrivedIndex(q) == lastArrivedIndex;
    if lastArrivedIndex == n - 1 {
      return Some(Rendered(nearestStop, None, None, speed, true, []));
    }
    var next := FindNext(
      dist, project, q, cumulative, progress,
      nearestIndex, nearestDistance <= arrivalRadius, lastArrivedIndex + 1, n, arrivalRadius);
    var reached := next.None? &&
      ((nearestDistance <= arrivalRadius && nearestIndex == n - 1) ||
        progress.progressMeters >= cumulative[n - 1] - arrivalRadius * 0.5);
    if next.None? {
      return Some(Rendered(nearestStop, None, None, speed, reached, []));
    }
    NextIndexRange(dist, project, q);
    var etas := [];
    for j := next.value to n
      invariant etas == EtasFrom(dist, project, q, speed.kmh, next.value)[..j - next.value]
    {
      assert cumulative[j] == CumulativeAt(dist, route, j);
      var d := Travel(dist(at, ordered[j].at), cumulative[j], progress.progressMeters, cumulative[n - 1],
        arrivalRadius);
      assert d == DistanceTo(dist, project, q, j);
      var eta := StopEta(Describe(ordered[j], d), Minutes(d, speed.kmh));
      assert eta == EtaTo(dist, project, q, speed.kmh, next.value + (j - next.value));
      etas := etas + [eta];
    }
    assert etas == EtasFrom(dist, project, q, speed.kmh, next.value);
    assert etas[0] == EtaTo(dist, project, q, speed.kmh, next.value + 0);
    var stop := etas[0].stop;
    r := Some(Rendered(nearestStop, Some(stop), Minutes(stop.distanceMeters as real, speed.kmh), speed, reached, etas));
  }

  /** The choice of the next stop, with the search along the cumulative distances. */
  method FindNext(
    dist: Metric, project: Projector, ghost q: Query, cumulative: seq<real>, progress: Progress,
    nearestIndex: int, atNearestStop: bool, minimum: int, n: nat, arrivalRadius: real) returns (next: Option<nat>)
    requires q.stops != [] && n == |q.stops| && arrivalRadius == q.arrivalRadius
    requires cumulative == Cumulative(dist, Route(q.stops)) && progress == ProgressOf(dist, project, q)
    requires nearestIndex == NearestIndex(dist, q) && atNearestStop == AtNearestStop(dist, q)
    requires minimum == LastArrivedIndex(q) + 1 && minimum < n
    ensures next == NextIndex(dist, project, q)
  {
    hide ProgressOn, CumulativeAt, IndexOf, NearestOf;
    if atNearestStop {
      if nearestIndex < minimum { return Some(minimum); }
      if nearestIndex == n - 1 { return None; }
      return Some(nearestIndex + 1);
    }
    var mark := progress.progressMeters + Max(3.0, arrivalRadius * 0.15);
    var candidate := 0;
    while candidate < n - 1 && cumulative[candidate] <= mark
      invariant 0 <= candidate < n
      invariant FirstBeyond(dist, Route(q.stops), mark, candidate) == FirstBeyond(dist, Route(q.stops), mark, 0)
    {
      candidate := candidate + 1;
    }
    if candidate <= progress.segmentStart {
      candidate := progress.segmentEnd;
    }
    if candidate < minimum {
      candidate := minimum;
    }
    next := if candidate < n then Some(candidate) else None;
  }

  // ---- What the estimate promises ----

  lemma NextIndexRange(dist: Metric, project: Projector, q: Query)
    requires q.stops != []
    ensures
      var next := NextIndex(dist, project, q);
      && (next.None? <==>
          LastArrivedIndex(q) == |q.stops| - 1 || (AtNearestStop(dist, q) && NearestIndex(dist, q) == |q.stops| - 1))
      && (next.Some? ==> LastArrivedIndex(q) < next.value < |q.stops|)
      && (next.Some? && !AtNearestStop(dist, q) && |q.stops| > 1 ==>
          ProgressOf(dist, project, q).segmentStart < next.value)
  {
    hide ProgressOn, CumulativeAt, IndexOf, NearestOf;
    ProgressIsNearest(dist, AnySegment(project), Route(q.stops), q.at);
  }

  /** No next stop, the final stop reached, and the bus known or seen to be at the final stop: these are one
      condition; a next stop always lies beyond the last one reached, and ahead of the bus's own segment. */
  lemma NextStopIsNullExactlyAtTheEnd(dist: Metric, project: Projector, q: Query)
    requires q.stops != []
    ensures
      var r := Estimate(dist, project, q);
      var atEnd := LastArrivedIndex(q) == |q.stops| - 1 ||
        (AtNearestStop(dist, q) && NearestIndex(dist, q) == |q.stops| - 1);
      && (r.nextStop.None? <==> r.finalStopReached)
      && (r.finalStopReached <==> atEnd)
      && (r.nextStop.Some? ==>
            var next := NextIndex(dist, project, q);
            next.Some? && LastArrivedIndex(q) < next.value < |q.stops| &&
              r.nextStop.value.stopId == q.stops[next.value].stopId)
  {
    hide NextIndex, ProgressOn, CumulativeAt, IndexOf, NearestOf, AtNearestStop, MathRound, Minutes;
    hide Travel, TrustedSpeed, EtasFrom;
    NextIndexRange(dist, project, q);
  }

  /** On a route of distinct stops the index found by id is that of the nearest stop. */
  lemma NearestIndexIsNearest(dist: Metric, q: Query)
    requires q.stops != [] && DistinctStops(q.stops)
    ensures
      var k := NearestIndex(dist, q);
      && 0 <= k == NearestStop(dist, q)
      && forall i :: 0 <= i < |q.stops| ==> dist(q.at, q.stops[k].at) <= dist(q.at, q.stops[i].at)
  {
    var k := NearestStop(dist, q);
    NearestIsLeast(dist, Route(q.stops), q.at, |q.stops|);
    assert forall i :: 0 <= i < |q.stops| ==> Route(q.stops)[i] == q.stops[i].at;
    var found := IndexOf(q.stops, q.stops[k].stopId);
    assert found == k;
  }

  lemma CapIsIdle(direct: real, stopProgress: real, progress: real, total: real, radius: real)
    requires 0.0 <= direct && 0.0 <= progress && 0.0 <= stopProgress <= total
    ensures
      && Travel(direct, stopProgress, progress, total, radius) ==
          (if direct <= radius then direct else Max(direct, stopProgress - progress))
      && Travel(direct, stopProgress, progress, total, radius) >= direct
  {}

  /** The cap at the route's length never binds, and no distance undercuts the straight line. */
  lemma DistanceIsDirectOrAlongRoute(dist: Metric, project: Projector, q: Query, j: nat)
    requires j < |q.stops|
    ensures
      var direct := dist(q.at, q.stops[j].at);
      var along := CumulativeAt(dist, Route(q.stops), j) - ProgressOf(dist, project, q).progressMeters;
      && DistanceTo(dist, project, q, j) == (if direct <= q.arrivalRadius then direct else Max(direct, along))
      && DistanceTo(dist, project, q, j) >= direct
  {
    hide ProgressOn, CumulativeAt, Travel;
    var route := Route(q.stops);
    ProgressIsNearest(dist, AnySegment(project), route, q.at);
    CumulativeAscends(dist, route, j, |q.stops| - 1);
    var progress := ProgressOf(dist, project, q).progressMeters;
    CapIsIdle(dist(q.at, q.stops[j].at), CumulativeAt(dist, route, j), progress, RouteTotal(dist, q), q.arrivalRadius);
  }

  /** The list of estimates is exactly the rest of the route from the next stop on, headed by that stop. */
  lemma StopEtasAreTheSuffix(dist: Metric, project: Projector, q: Query)
    requires q.stops != []
    ensures
      var r := Estimate(dist, project, q);
      var next := NextIndex(dist, project, q);
      && (next.None? ==> r.stopEtas == [] && r.etaMinutes.None?)
      && (next.Some? ==>
            && |r.stopEtas| == |q.stops| - next.value > 0
            && r.nextStop == Some(r.stopEtas[0].stop)
            && forall i :: 0 <= i < |r.stopEtas| ==>
                 r.stopEtas[i].stop == Describe(q.stops[next.value + i], DistanceTo(dist, project, q, next.value + i)))
  {
    hide NextIndex, ProgressOn, CumulativeAt, IndexOf, NearestOf, AtNearestStop, MathRound, Minutes;
    hide TrustedSpeed, DistanceTo;
    NextIndexRange(dist, project, q);
    var r := Estimate(dist, project, q);
    var next := NextIndex(dist, project, q);
    if next.Some? {
      assert !r.finalStopReached;
      assert r.stopEtas == EtasFrom(dist, project, q, SpeedOf(q).kmh, next.value);
      assert r.stopEtas[0] == EtaTo(dist, project, q, SpeedOf(q).kmh, next.value + 0);
      forall i | 0 <= i < |r.stopEtas|
        ensures r.stopEtas[i].stop == Describe(q.stops[next.value + i], DistanceTo(dist, project, q, next.value + i))
      {
        assert r.stopEtas[i] == EtaTo(dist, project, q, SpeedOf(q).kmh, next.value + i);
      }
    }
  }

  // ---- The two estimates for the next stop ----

  /** The distance from which on the estimate is more than m minutes: a tie goes up. */
  function Boundary(m: nat, kmh: real): real {
    (m as real + 0.5) * kmh * 1000.0 / 60.0
  }

  /** The two distances lie on different sides of the boundary. */
  predicate Separates(m: nat, kmh: real, a: real, b: real) {
    (a >= Boundary(m, kmh)) != (b >= Boundary(m, kmh))
  }

  lemma MinutesExceed(distance: real, kmh: real, m: nat)
    requires kmh > 0.0 && m >= 1
    ensures Minutes(distance, kmh).Some? && Minutes(distance, kmh).value >= 1
    ensures Minutes(distance, kmh).value > m <==> distance >= Boundary(m, kmh)
  {
    var x := distance / 1000.0 / kmh * 60.0;
    MinutesOf(distance, kmh, x);
    hide Boundary;
    RoundsAbove(x, m);
  }

  /** Minutes as a number, and the distance that the number stands for. */
  lemma MinutesOf(distance: real, kmh: real, x: real)
    requires kmh > 0.0 && x == distance / 1000.0 / kmh * 60.0
    ensures Minutes(distance, kmh) == Some(if MathRound(x) > 1 then MathRound(x) else 1)
    ensures forall m: nat :: x >= m as real + 0.5 <==> distance >= Boundary(m, kmh)
  {
    var y := distance / 1000.0 / kmh;
    assert y * kmh == distance / 1000.0;
    forall m: nat ensures x >= m as real + 0.5 <==> distance >= Boundary(m, kmh) {
      var z := (m as real + 0.5) / 60.0;
      ScaledOrder(y, z, kmh);
      assert z * 60.0 == m as real + 0.5;
      BoundaryIs(m, kmh, z);
    }
  }

  lemma BoundaryIs(m: nat, kmh: real, z: real)
    requires z * 60.0 == m as real + 0.5
    ensures Boundary(m, kmh) == z * kmh * 1000.0
  {
    assert (z * 60.0) * kmh == (z * kmh) * 60.0;
  }

  lemma ScaledOrder(a: real, b: real, c: real)
    requires c > 0.0
    ensures a >= b <==> a * c >= b * c
  {
    assert a * c - b * c == (a - b) * c;
    if a > b { ProductIsPositive(a - b, c); }
    if b > a {
      ProductIsPositive(b - a, c);
      assert (b - a) * c == b * c - a * c;
    }
  }

  lemma ProductIsPositive(a: real, b: real)
    requires a > 0.0 && b > 0.0
    ensures a * b > 0.0
  {}

  lemma RoundsAbove(x: real, m: int)
    ensures MathRound(x) > m <==> x >= m as real + 0.5
  {}

  /** Two estimates agree exactly when no boundary separates their distances. */
  lemma MinutesAgreeExactly(a: real, b: real, kmh: real)
    requires kmh > 0.0
    ensures Minutes(a, kmh) == Minutes(b, kmh) <==> forall m: nat :: m >= 1 ==> !Separates(m, kmh, a, b)
  {
    hide Minutes, Boundary;
    MinutesExceed(a, kmh, 1);
    MinutesExceed(b, kmh, 1);
    var x, y := Minutes(a, kmh).value, Minutes(b, kmh).value;
    var low := if x <= y then x else y;
    MinutesExceed(a, kmh, low);
    MinutesExceed(b, kmh, low);
    if x != y {
      assert Separates(low, kmh, a, b);
    } else {
      forall m: nat | m >= 1 ensures !Separates(m, kmh, a, b) {
        MinutesExceed(a, kmh, m);
        MinutesExceed(b, kmh, m);
      }
    }
  }

  ghost predicate WithinAMinute(a: real, b: real, kmh: real) {
    Minutes(a, kmh).Some? && Minutes(b, kmh).Some? && -1 <= Minutes(a, kmh).value - Minutes(b, kmh).value <= 1
  }

  /** They differ by a minute at most exactly when no two boundaries in a row separate their distances. */
  lemma WithinAMinuteExactly(a: real, b: real, kmh: real)
    requires kmh > 0.0
    ensures WithinAMinute(a, b, kmh) <==>
      forall m: nat :: m >= 1 ==> !(Separates(m, kmh, a, b) && Separates(m + 1, kmh, a, b))
  {
    hide Minutes, Boundary;
    MinutesExceed(a, kmh, 1);
    MinutesExceed(b, kmh, 1);
    var x, y := Minutes(a, kmh).value, Minutes(b, kmh).value;
    var low := if x <= y then x else y;
    MinutesExceed(a, kmh, low);
    MinutesExceed(b, kmh, low);
    MinutesExceed(a, kmh, low + 1);
    MinutesExceed(b, kmh, low + 1);
    if !WithinAMinute(a, b, kmh) {
      assert Separates(low, kmh, a, b) && Separates(low + 1, kmh, a, b);
    } else {
      forall m: nat | m >= 1 ensures !(Separates(m, kmh, a, b) && Separates(m + 1, kmh, a, b)) {
        MinutesExceed(a, kmh, m);
        MinutesExceed(b, kmh, m);
        MinutesExceed(a, kmh, m + 1);
        MinutesExceed(b, kmh, m + 1);
      }
    }
  }

  /** The two estimates of a result with a next stop: its own from the rounded distance, the list's head from the exact
      one. */
  lemma HeadEtas(dist: Metric, project: Projector, q: Query)
    requires q.stops != [] && NextIndex(dist, project, q).Some?
    ensures
      var r, d := Estimate(dist, project, q), DistanceTo(dist, project, q, NextIndex(dist, project, q).value);
      && r.stopEtas != []
      && r.etaMinutes == Minutes(MathRound(d) as real, SpeedOf(q).kmh)
      && r.stopEtas[0].etaMinutes == Minutes(d, SpeedOf(q).kmh)
  {
    hide NextIndex, ProgressOn, CumulativeAt, IndexOf, NearestOf, AtNearestStop;
    hide MathRound, Minutes, TrustedSpeed, DistanceTo, ToFixed2;
    NextIndexRange(dist, project, q);
    var next := NextIndex(dist, project, q).value;
    assert EtasFrom(dist, project, q, SpeedOf(q).kmh, next)[0] == EtaTo(dist, project, q, SpeedOf(q).kmh, next + 0);
  }

  /** etaMinutes and the head of stopEtas agree exactly when no boundary separates the rounded from the exact distance,
      and differ by a minute at most exactly when no two boundaries in a row do. */
  lemma HeadEtasAgreeExactly(dist: Metric, project: Projector, q: Query)
    requires q.stops != [] && NextIndex(dist, project, q).Some? && SpeedOf(q).kmh > 0.0
    ensures
      var r, d := Estimate(dist, project, q), DistanceTo(dist, project, q, NextIndex(dist, project, q).value);
      var rounded, kmh := MathRound(d) as real, SpeedOf(q).kmh;
      && r.stopEtas != [] && r.etaMinutes.Some? && r.stopEtas[0].etaMinutes.Some?
      && (r.etaMinutes == r.stopEtas[0].etaMinutes <==> forall m: nat :: m >= 1 ==> !Separates(m, kmh, rounded, d))
      && (-1 <= r.etaMinutes.value - r.stopEtas[0].etaMinutes.value <= 1 <==>
            forall m: nat :: m >= 1 ==> !(Separates(m, kmh, rounded, d) && Separates(m + 1, kmh, rounded, d)))
  {
    hide NextIndex, DistanceTo, MathRound, TrustedSpeed, Estimate, Minutes, Separates, SpeedOf;
    NextIndexRange(dist, project, q);
    HeadEtas(dist, project, q);
    var d := DistanceTo(dist, project, q, NextIndex(dist, project, q).value);
    MinutesExceed(d, SpeedOf(q).kmh, 1);
    MinutesExceed(MathRound(d) as real, SpeedOf(q).kmh, 1);
    MinutesAgreeExactly(MathRound(d) as real, d, SpeedOf(q).kmh);
    WithinAMinuteExactly(MathRound(d) as real, d, SpeedOf(q).kmh);
  }

  /** A bus 1499.5 metres from the only stop, at 60 km/h. */
  function FarQuery(stop: Stop, at: LatLng): Query {
    Query([stop], at, None, 80.0, None, Some(60.0), 20.0)
  }

  /** They need not agree: two minutes in one place and one in the other. */
  lemma HeadEtasCanDiffer(dist: Metric, project: Projector, stop: Stop, at: LatLng)
    requires dist(at, stop.at) == 1499.5
    ensures
      var r := Estimate(dist, project, FarQuery(stop, at));
      r.etaMinutes == Some(2) && r.stopEtas != [] && r.stopEtas[0].etaMinutes == Some(1)
  {
    var q := FarQuery(stop, at);
    OnlyStopIsNext(dist, project, q);
    HeadEtas(dist, project, q);
    hide Estimate, DistanceTo, NextIndex;
    assert MathRound(1499.5) == 1500;
    assert MathRound(1500.0 / 1000.0 / 60.0 * 60.0) == 2;
    assert MathRound(1499.5 / 1000.0 / 60.0 * 60.0) == 1;
  }

  /** On a route of one stop that is out of reach and not yet visited, that stop is next and its distance direct. */
  lemma OnlyStopIsNext(dist: Metric, project: Projector, q: Query)
    requires |q.stops| == 1 && q.lastArrivedStopId.None? && dist(q.at, q.stops[0].at) > q.arrivalRadius
    ensures NextIndex(dist, project, q) == Some(0)
    ensures DistanceTo(dist, project, q, 0) == dist(q.at, q.stops[0].at)
  {}

  // ---- At which speeds a minute always covers the difference ----

  /** For every distance the rounded and the exact estimate differ by a minute at most. */
  ghost predicate MinuteSuffices(kmh: real) {
    forall d: real :: d >= 0.0 ==> WithinAMinute(MathRound(d) as real, d, kmh)
  }

  /** From the given speed on a minute always covers the difference exactly when that speed is at least 0.03 km/h. */
  lemma MinuteSufficesExactlyFrom(least: real)
    requires least > 0.0
    ensures (forall kmh: real :: kmh >= least ==> MinuteSuffices(kmh)) <==> least >= 0.03
  {
    hide WithinAMinute;
    if least >= 0.03 {
      forall kmh: real | kmh >= least ensures MinuteSuffices(kmh) {
        forall d: real | d >= 0.0 ensures WithinAMinute(MathRound(d) as real, d, kmh) {
          RoundedIsNear(d);
          NearDistancesAgree(MathRound(d) as real, d, kmh);
        }
      }
    } else {
      var n := LargeEnough(least);
      SlowSpeedsDiffer(n);
      var d := n as real - 0.5;
      assert d >= 0.0 && !WithinAMinute(MathRound(d) as real, d, SlowSpeed(n));
      assert !MinuteSuffices(SlowSpeed(n));
    }
  }

  lemma RoundedIsNear(d: real)
    ensures -0.5 <= MathRound(d) as real - d <= 0.5
  {}

  lemma NearDistancesAgree(a: real, b: real, kmh: real)
    requires kmh >= 0.03 && -0.5 <= a - b <= 0.5
    ensures WithinAMinute(a, b, kmh)
  {
    WithinAMinuteExactly(a, b, kmh);
    hide WithinAMinute;
    forall m: nat | m >= 1 ensures !(Separates(m, kmh, a, b) && Separates(m + 1, kmh, a, b)) {
      BoundariesApart(m, kmh);
      hide Boundary;
    }
  }

  lemma BoundariesApart(m: nat, kmh: real)
    requires kmh >= 0.03
    ensures Boundary(m + 1, kmh) >= Boundary(m, kmh) + 0.5
  {
    var x := m as real + 0.5;
    assert (m + 1) as real + 0.5 == x + 1.0;
    assert (x + 1.0) * kmh == x * kmh + kmh;
  }

  /** A speed just below 0.03 km/h at which boundaries 2n - 1 and 2n lie between n - 0.5 and n metres. */
  function SlowSpeed(n: nat): real {
    0.12 * n as real / (4.0 * n as real + 1.0)
  }

  lemma LargeEnough(least: real) returns (n: nat)
    requires 0.0 < least < 0.03
    ensures n >= 1 && SlowSpeed(n) >= least
  {
    var room := 0.03 - least;
    n := (1.0 / room).Floor + 1;
    var x := n as real;
    assert x >= 1.0 / room;
    assert x * room >= 1.0 by { ScaledOrder(x, 1.0 / room, room); }
    QuotientIs(n);
    hide SlowSpeed;
    var k := 4.0 * x + 1.0;
    assert SlowSpeed(n) * k == 0.12 * x;
    assert least * k == 0.12 * x + 0.03 - 4.0 * (x * room) - room;
    ScaledOrder(SlowSpeed(n), least, k);
  }

  lemma QuotientIs(n: nat)
    ensures SlowSpeed(n) * (4.0 * n as real + 1.0) == 0.12 * n as real
    ensures n >= 1 ==> 0.0 < SlowSpeed(n) < 0.03
  {}

  lemma SlowSpeedsDiffer(n: nat)
    requires n >= 1
    ensures !WithinAMinute(MathRound(n as real - 0.5) as real, n as real - 0.5, SlowSpeed(n))
  {
    var d, kmh := n as real - 0.5, SlowSpeed(n);
    QuotientIs(n);
    assert MathRound(d) == n;
    SlowBoundaries(n);
    hide SlowSpeed, Boundary, WithinAMinute;
    WithinAMinuteExactly(n as real, d, kmh);
    assert Separates(2 * n - 1, kmh, n as real, d) && Separates(2 * n - 1 + 1, kmh, n as real, d);
  }

  lemma SlowBoundaries(n: nat)
    requires n >= 1
    ensures Boundary(2 * n, SlowSpeed(n)) == n as real
    ensures n as real - 0.5 < Boundary(2 * n - 1, SlowSpeed(n)) <= n as real
  {
    QuotientIs(n);
    hide SlowSpeed;
    var x, kmh := n as real, SlowSpeed(n);
    assert (2 * n) as real + 0.5 == (4.0 * x + 1.0) / 2.0;
    assert ((4.0 * x + 1.0) / 2.0) * kmh == 0.06 * x;
    assert (2 * n - 1) as real + 0.5 == (2 * n) as real + 0.5 - 1.0;
    assert ((2 * n) as real + 0.5 - 1.0) * kmh == 0.06 * x - kmh;
  }
}
