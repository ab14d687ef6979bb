/** Which stop is next, read off the distances alone (src/services/eta.service.ts). */
module NextStop {
  import opened Wrappers
  import opened Rounding
  import opened Geo
  import opened RouteProgress
  import opened RouteStops
  import opened Eta

  /** The last known arrival is at stop j of the route, or at none of its stops (-1). */
  ghost predicate ArrivedLastAt(q: Query, j: int) {
    if j == -1 then
      forall i :: 0 <= i < |q.stops| ==> q.lastArrivedStopId != Some(q.stops[i].stopId)
    else 0 <= j < |q.stops| && q.lastArrivedStopId == Some(q.stops[j].stopId)
  }

  lemma LastArrivedIs(q: Query, j: int)
    requires DistinctStops(q.stops) && ArrivedLastAt(q, j)
    ensures -1 <= j == LastArrivedIndex(q)
  {
    hide IndexOf;
    if j >= 0 { IndexOfStop(q.stops, j); }
  }

  /** Stop j is the first one nearest to the bus. */
  ghost predicate IsNearest(dist: Metric, q: Query, j: nat) {
    && j < |q.stops|
    && (forall i :: 0 <= i < |q.stops| ==> dist(q.at, q.stops[j].at) <= dist(q.at, q.stops[i].at))
    && (forall i :: 0 <= i < j ==> dist(q.at, q.stops[j].at) < dist(q.at, q.stops[i].at))
  }

  lemma NearestIs(dist: Metric, q: Query, j: nat)
    requires DistinctStops(q.stops) && IsNearest(dist, q, j)
    ensures q.stops != [] && NearestIndex(dist, q) == j
    ensures AtNearestStop(dist, q) <==> dist(q.at, q.stops[j].at) <= q.arrivalRadius
  {
    hide IndexOf, NearestOf;
    var route := Route(q.stops);
    NearestIsLeast(dist, route, q.at, |q.stops|);
    var k := NearestOf(dist, route, q.at, |q.stops|);
    assert route[k] == q.stops[k].at && route[j] == q.stops[j].at;
    IndexOfStop(q.stops, j);
  }

  /** The stops from the given one on that are not beyond the mark. */
  lemma {:induction false} FirstBeyondIsFirst(dist: Metric, route: seq<LatLng>, mark: real, from: nat)
    requires from < |route|
    ensures
      var k := FirstBeyond(dist, route, mark, from);
      && (forall i :: from <= i < k ==> CumulativeAt(dist, route, i) <= mark)
      && (CumulativeAt(dist, route, k) > mark || k == |route| - 1)
    decreases |route| - from
  {
    hide CumulativeAt;
    if CumulativeAt(dist, route, from) <= mark && from < |route| - 1 {
      FirstBeyondIsFirst(dist, route, mark, from + 1);
    }
  }

  /** How far along the route a stop must lie to count as ahead. */
  function Mark(dist: Metric, project: Projector, q: Query): real
    requires q.stops != []
  {
    var ahead := if q.arrivalRadius > 20.0 then q.arrivalRadius * 15.0 / 100.0 else 3.0;
    ProgressOf(dist, project, q).progressMeters + ahead
  }

  lemma MarkIsAhead(dist: Metric, project: Projector, q: Query)
    requires q.stops != []
    ensures
      var progress := ProgressOf(dist, project, q);
      && Mark(dist, project, q) == progress.progressMeters + Max(3.0, q.arrivalRadius * 0.15)
      && Mark(dist, project, q) > progress.progressMeters
  {
    hide ProgressOf;
  }

  /** At a stop, the next one follows the nearest or the last one reached, whichever is further; there is none after the
      final stop. */
  lemma NextAtAStop(dist: Metric, project: Projector, q: Query, near: nat, last: int)
    requires DistinctStops(q.stops) && ArrivedLastAt(q, last) && IsNearest(dist, q, near)
    requires dist(q.at, q.stops[near].at) <= q.arrivalRadius
    ensures
      var furthest := if near >= last then near else last;
      NextIndex(dist, project, q) == if furthest + 1 < |q.stops| then Some(furthest + 1) else None
  {
    LastArrivedIs(q, last);
    NearestIs(dist, q, near);
    hide LastArrivedIndex, NearestIndex, AtNearestStop, ProgressOf, FirstBeyond;
  }

  /** Between stops, the next one is the first after the last one reached that lies beyond the bus, by the mark, along
      the route, or else the final stop. */
  lemma NextBetweenStops(dist: Metric, project: Projector, q: Query, near: nat, last: int)
    requires DistinctStops(q.stops) && ArrivedLastAt(q, last) && IsNearest(dist, q, near)
    requires dist(q.at, q.stops[near].at) > q.arrivalRadius && last < |q.stops| - 1
    ensures
      var next := NextIndex(dist, project, q);
      && next.Some? && last < next.value < |q.stops|
      && (forall i :: last < i < next.value ==>
            CumulativeAt(dist, Route(q.stops), i) <= Mark(dist, project, q))
      && (CumulativeAt(dist, Route(q.stops), next.value) > Mark(dist, project, q) || next.value == |q.stops| - 1)
  {
    hide LastArrivedIndex, NearestIndex, AtNearestStop, FirstBeyond, CumulativeAt, NextIndex, Mark, ProgressOf;
    hide ArrivedLastAt, IsNearest, DistinctStops;
    LastArrivedIs(q, last);
    NearestIs(dist, q, near);
    NextIsCandidate(dist, project, q);
    FirstBeyondIsAhead(dist, project, q);
    var beyond := FirstBeyond(dist, Route(q.stops), Mark(dist, project, q), 0);
    MarkIsAhead(dist, project, q);
    if beyond <= last { CumulativeAscends(dist, Route(q.stops), beyond, last + 1); }
    var next := NextIndex(dist, project, q);
    assert next == Some(if beyond <= last then last + 1 else beyond);
    forall i | last < i < next.value ensures CumulativeAt(dist, Route(q.stops), i) <= Mark(dist, project, q) {
      assert 0 <= i < beyond;
    }
  }

  /** The first stop beyond the mark is ahead of the bus's segment, unless there is only one stop. */
  lemma FirstBeyondIsAhead(dist: Metric, project: Projector, q: Query)
    requires q.stops != []
    ensures
      var route, mark, progress := Route(q.stops), Mark(dist, project, q), ProgressOf(dist, project, q);
      var beyond := FirstBeyond(dist, route, mark, 0);
      && (forall i :: 0 <= i < beyond ==> CumulativeAt(dist, route, i) <= mark)
      && (CumulativeAt(dist, route, beyond) > mark || beyond == |route| - 1)
      && (beyond <= progress.segmentStart ==> |route| == 1 && progress.segmentEnd == beyond == 0)
  {
    var route, mark, progress := Route(q.stops), Mark(dist, project, q), ProgressOf(dist, project, q);
    ProgressIsNearest(dist, AnySegment(project), route, q.at);
    hide FirstBeyond, CumulativeAt, Mark, ProgressOn;
    MarkIsAhead(dist, project, q);
    FirstBeyondIsFirst(dist, route, mark, 0);
    BeyondSegment(dist, route, mark, progress, FirstBeyond(dist, route, mark, 0));
  }

  /** The first stop beyond the mark lies after the bus's segment. */
  lemma BeyondSegment(dist: Metric, route: seq<LatLng>, mark: real, progress: Progress, beyond: nat)
    requires |route| > 0 && WithinSegment(dist, route, progress) && mark > progress.progressMeters
    requires beyond < |route| && (CumulativeAt(dist, route, beyond) > mark || beyond == |route| - 1)
    ensures beyond <= progress.segmentStart ==> |route| == 1 && progress.segmentEnd == beyond == 0
  {
    if beyond <= progress.segmentStart { CumulativeAscends(dist, route, beyond, progress.segmentStart); }
    hide CumulativeAt;
  }

  lemma NextIsCandidate(dist: Metric, project: Projector, q: Query)
    requires q.stops != [] && !AtNearestStop(dist, q) && LastArrivedIndex(q) < |q.stops| - 1
    ensures
      var progress := ProgressOf(dist, project, q);
      var beyond := FirstBeyond(dist, Route(q.stops), progress.progressMeters + Max(3.0, q.arrivalRadius * 0.15), 0);
      var candidate := if beyond <= progress.segmentStart then progress.segmentEnd else beyond;
      var next := if candidate <= LastArrivedIndex(q) then LastArrivedIndex(q) + 1 else candidate;
      NextIndex(dist, project, q) == if next < |q.stops| then Some(next) else None
  {
    hide LastArrivedIndex, NearestIndex, AtNearestStop, FirstBeyond, ProgressOf;
  }

  /** The reported next stop is that stop, and the nearest stop the one nearest to the bus. */
  lemma ReportsNextAndNearest(dist: Metric, project: Projector, q: Query, near: nat)
    requires DistinctStops(q.stops) && IsNearest(dist, q, near)
    ensures
      var r, next := Estimate(dist, project, q), NextIndex(dist, project, q);
      && r.nearestStop.stopId == q.stops[near].stopId
      && -0.5 <= r.nearestStop.distanceMeters as real - dist(q.at, q.stops[near].at) <= 0.5
      && (next.Some? <==> r.nextStop.Some?)
      && (next.Some? ==>
            var stop := q.stops[next.value];
            && r.nextStop.value.stopId == stop.stopId && r.nextStop.value.stopName == stop.stopName
            && r.nextStop.value.stopOrder == stop.stopOrder
            && -0.5 <= r.nextStop.value.distanceMeters as real - DistanceTo(dist, project, q, next.value) <= 0.5)
  {
    NearestStopIs(dist, q, near);
    RoundedIsNear(dist(q.at, q.stops[near].at));
    if NextIndex(dist, project, q).Some? {
      NextIndexRange(dist, project, q);
      RoundedIsNear(DistanceTo(dist, project, q, NextIndex(dist, project, q).value));
    }
    hide NextIndex, DistanceTo, MathRound, Minutes, TrustedSpeed, ToFixed2, FinalStopReached, EtasFrom, NearestStop;
  }

  lemma NearestStopIs(dist: Metric, q: Query, j: nat)
    requires IsNearest(dist, q, j)
    ensures NearestStop(dist, q) == j
  {
    hide NearestOf;
    var route := Route(q.stops);
    NearestIsLeast(dist, route, q.at, |q.stops|);
    var k := NearestOf(dist, route, q.at, |q.stops|);
    assert route[k] == q.stops[k].at && route[j] == q.stops[j].at;
  }

  /** The speed used is the rolling average if that is at least 5 km/h, else the last speed if that is at least 4, else
      the default; what the confidence means; and how the speeds are shown. */
  lemma SpeedIsTrusted(dist: Metric, project: Projector, q: Query)
    requires q.stops != []
    ensures
      var r, kmh := Estimate(dist, project, q), SpeedOf(q).kmh;
      && (q.rollingSpeed.Some? && q.rollingSpeed.value >= 5.0 ==>
            kmh == q.rollingSpeed.value && r.rollingAverageSpeedKmh == Some(ToFixed2(kmh)))
      && (q.rollingSpeed.None? || q.rollingSpeed.value < 5.0 ==>
            && r.rollingAverageSpeedKmh.None?
            && kmh == if q.lastSpeed.Some? && q.lastSpeed.value >= 4.0 then q.lastSpeed.value else q.defaultSpeed)
      && r.usedSpeedKmh == ToFixed2(kmh)
      && (r.confidence == High <==> q.rollingSpeed.Some? && q.rollingSpeed.value >= 8.0)
      && (r.confidence == Low <==> q.rollingSpeed.UnwrapOr(0.0) < 8.0 && q.lastSpeed.UnwrapOr(0.0) < 6.0)
  {
    hide NextIndex, DistanceTo, MathRound, Minutes, ToFixed2, FinalStopReached, EtasFrom, NearestStop;
  }
}
