/** Distances along a route and the projection of a position onto it, as used by
    src/services/eta.service.ts and src/services/arrival.service.ts. */
module RouteProgress {
  import opened Wrappers
  import opened Rounding
  import opened Geo

  datatype RawProjection = RawProjection(t: real, crossTrackMeters: real)

  /** Where on a segment, from 0 to 1, and how far off it. */
  type Projection = p: RawProjection | 0.0 <= p.t <= 1.0 && p.crossTrackMeters >= 0.0
    witness RawProjection(0.0, 0.0)

  /** projectPointOntoSegmentMeters, kept abstract. */
  type Projector = (LatLng, LatLng, LatLng) -> Projection

  /** The local projection; the arrival service also skips segments it deems too short (not usable). */
  datatype Plane = Plane(project: Projector, usable: (LatLng, LatLng) -> bool)

  datatype Progress = Progress(progressMeters: real, segmentStart: nat, segmentEnd: nat, crossTrackMeters: real)

  const SHORTEST_SEGMENT := 0.000001

  /** Metres from the first point to point i along the route. */
  function CumulativeAt(dist: Metric, route: seq<LatLng>, i: nat): real
    requires i < |route|
  {
    if i == 0 then 0.0 else CumulativeAt(dist, route, i - 1) + dist(route[i - 1], route[i])
  }

  function Cumulative(dist: Metric, route: seq<LatLng>): seq<real>
    requires |route| > 0
  {
    seq(|route|, i requires 0 <= i < |route| => CumulativeAt(dist, route, i))
  }

  /** buildCumulativeDistances */
  method BuildCumulativeDistances(dist: Metric, route: seq<LatLng>) returns (cumulative: seq<real>)
    requires |route| > 0
    ensures cumulative == Cumulative(dist, route)
  {
    cumulative := [0.0];
    for i := 1 to |route|
      invariant cumulative == Cumulative(dist, route)[..i]
    {
      cumulative := cumulative + [cumulative[i - 1] + dist(route[i - 1], route[i])];
    }
  }

  predicate IsSegment(dist: Metric, plane: Plane, route: seq<LatLng>, i: nat)
    requires i + 1 < |route|
  {
    dist(route[i], route[i + 1]) > SHORTEST_SEGMENT && plane.usable(route[i], route[i + 1])
  }

  function OnSegment(dist: Metric, plane: Plane, route: seq<LatLng>, at: LatLng, i: nat): Progress
    requires i + 1 < |route|
  {
    var p := plane.project(at, route[i], route[i + 1]);
    Progress(CumulativeAt(dist, route, i) + dist(route[i], route[i + 1]) * p.t, i, i + 1, p.crossTrackMeters)
  }

  /** The best of the first n segments: the earliest with the least cross-track distance. */
  function BestOf(dist: Metric, plane: Plane, route: seq<LatLng>, at: LatLng, n: nat): Option<Progress>
    requires n == 0 || n < |route|
  {
    if n == 0 then None
    else
      var best := BestOf(dist, plane, route, at, n - 1);
      if !IsSegment(dist, plane, route, n - 1) then best
      else
        var p := OnSegment(dist, plane, route, at, n - 1);
        if best.None? || p.crossTrackMeters < best.value.crossTrackMeters then Some(p) else best
  }

  function ProgressOn(dist: Metric, plane: Plane, route: seq<LatLng>, at: LatLng): Progress
    requires |route| > 0
  {
    if |route| == 1 then Progress(0.0, 0, 0, dist(at, route[0]))
    else BestOf(dist, plane, route, at, |route| - 1).UnwrapOr(Progress(0.0, 0, 1, 0.0))
  }

  /** estimateRouteProgressMeters, and projectProgressMeters of the arrival service. */
  method EstimateRouteProgress(dist: Metric, plane: Plane, route: seq<LatLng>, cumulative: seq<real>, at: LatLng)
    returns (progress: Progress)
    requires |route| > 0 && cumulative == Cumulative(dist, route)
    ensures progress == ProgressOn(dist, plane, route, at)
  {
    if |route| == 1 {
      return Progress(0.0, 0, 0, dist(at, route[0]));
    }
    var best := None;
    for i := 0 to |route| - 1
      invariant best == BestOf(dist, plane, route, at, i)
    {
      assert cumulative[i] == CumulativeAt(dist, route, i);
      var segmentLength := dist(route[i], route[i + 1]);
      if segmentLength <= SHORTEST_SEGMENT || !plane.usable(route[i], route[i + 1]) { continue; }
      var p := plane.project(at, route[i], route[i + 1]);
      var here := Progress(cumulative[i] + segmentLength * p.t, i, i + 1, p.crossTrackMeters);
      assert here == OnSegment(dist, plane, route, at, i);
      if best.None? || p.crossTrackMeters < best.value.crossTrackMeters {
        best := Some(here);
      }
    }
    progress := best.UnwrapOr(Progress(0.0, 0, 1, 0.0));
  }

  lemma {:induction false} CumulativeAscends(dist: Metric, route: seq<LatLng>, i: nat, j: nat)
    requires i <= j < |route|
    ensures 0.0 <= CumulativeAt(dist, route, i) <= CumulativeAt(dist, route, j)
    decreases j
  {
    if j > 0 {
      CumulativeAscends(dist, route, if i < j then i else i - 1, j - 1);
    }
  }

  /** Progress never leaves its segment, which is one of the route's. */
  ghost predicate WithinSegment(dist: Metric, route: seq<LatLng>, p: Progress) {
    && p.segmentEnd < |route|
    && p.segmentEnd == (if |route| == 1 then 0 else p.segmentStart + 1)
    && p.segmentStart <= p.segmentEnd
    && CumulativeAt(dist, route, p.segmentStart) <= p.progressMeters <= CumulativeAt(dist, route, p.segmentEnd)
  }

  lemma OnSegmentStays(dist: Metric, plane: Plane, route: seq<LatLng>, at: LatLng, i: nat)
    requires i + 1 < |route|
    ensures WithinSegment(dist, route, OnSegment(dist, plane, route, at, i))
  {
    var p := plane.project(at, route[i], route[i + 1]);
    var d, t := dist(route[i], route[i + 1]), p.t;
    ScaleDown(d, t);
    assert CumulativeAt(dist, route, i + 1) == CumulativeAt(dist, route, i) + d;
    assert OnSegment(dist, plane, route, at, i).progressMeters == CumulativeAt(dist, route, i) + d * t;
    assert d * t <= d;
  }

  lemma {:induction false} BestIsLeast(dist: Metric, plane: Plane, route: seq<LatLng>, at: LatLng, n: nat)
    requires n == 0 || n < |route|
    ensures
      var best := BestOf(dist, plane, route, at, n);
      && (best.Some? ==> WithinSegment(dist, route, best.value))
      && (best.Some? ==>
          best.value.segmentStart < n && best.value == OnSegment(dist, plane, route, at, best.value.segmentStart))
      && (forall i :: 0 <= i < n && IsSegment(dist, plane, route, i) ==>
            best.Some? && best.value.crossTrackMeters <= OnSegment(dist, plane, route, at, i).crossTrackMeters)
  {
    if n > 0 {
      BestIsLeast(dist, plane, route, at, n - 1);
      OnSegmentStays(dist, plane, route, at, n - 1);
    }
  }

  /** The estimate lies within its segment and no proper segment is closer to the position. */
  lemma ProgressIsNearest(dist: Metric, plane: Plane, route: seq<LatLng>, at: LatLng)
    requires |route| > 0
    ensures
      var p := ProgressOn(dist, plane, route, at);
      && WithinSegment(dist, route, p)
      && 0.0 <= p.progressMeters <= CumulativeAt(dist, route, |route| - 1)
      && forall i :: 0 <= i < |route| - 1 && IsSegment(dist, plane, route, i) ==>
           p.crossTrackMeters <= OnSegment(dist, plane, route, at, i).crossTrackMeters
  {
    var p := ProgressOn(dist, plane, route, at);
    if |route| > 1 {
      BestIsLeast(dist, plane, route, at, |route| - 1);
      CumulativeAscends(dist, route, 0, 1);
    }
    CumulativeAscends(dist, route, 0, p.segmentStart);
    CumulativeAscends(dist, route, p.segmentEnd, |route| - 1);
  }

  /** A segment longer than a thousandth of a millimetre, which the plane can use. */
  predicate IsProper(dist: Metric, plane: Plane, route: seq<LatLng>, i: nat)
    requires i + 1 < |route|
  {
    dist(route[i], route[i + 1]) > 0.000001 && plane.usable(route[i], route[i + 1])
  }

  function CrossTrack(plane: Plane, route: seq<LatLng>, at: LatLng, i: nat): real
    requires i + 1 < |route|
  {
    plane.project(at, route[i], route[i + 1]).crossTrackMeters
  }

  /** The first proper segment at the least cross-track distance, and the position projected onto it. */
  ghost predicate IsProjection(dist: Metric, plane: Plane, route: seq<LatLng>, at: LatLng, n: nat, p: Progress)
    requires n < |route|
  {
    var i := p.segmentStart;
    && i < n && p.segmentEnd == i + 1 && IsProper(dist, plane, route, i)
    && p.progressMeters ==
         CumulativeAt(dist, route, i) + dist(route[i], route[i + 1]) * plane.project(at, route[i], route[i + 1]).t
    && p.crossTrackMeters == CrossTrack(plane, route, at, i)
    && (forall j :: 0 <= j < n && IsProper(dist, plane, route, j) ==>
          p.crossTrackMeters <= CrossTrack(plane, route, at, j))
    && (forall j :: 0 <= j < i && IsProper(dist, plane, route, j) ==>
          p.crossTrackMeters < CrossTrack(plane, route, at, j))
  }

  lemma {:induction false} BestIsProjection(dist: Metric, plane: Plane, route: seq<LatLng>, at: LatLng, n: nat)
    requires n < |route|
    ensures
      var best := BestOf(dist, plane, route, at, n);
      && (best.None? ==> forall j :: 0 <= j < n ==> !IsProper(dist, plane, route, j))
      && (best.Some? ==> IsProjection(dist, plane, route, at, n, best.value))
  {
    hide CumulativeAt;
    if n > 0 { BestIsProjection(dist, plane, route, at, n - 1); }
  }

  /** The progress is that of the projection, when there is a proper segment to project onto; else it is zero. */
  lemma ProgressIsProjected(dist: Metric, plane: Plane, route: seq<LatLng>, at: LatLng)
    requires |route| > 0
    ensures
      var p, n := ProgressOn(dist, plane, route, at), |route| - 1;
      if exists j :: 0 <= j < n && IsProper(dist, plane, route, j) then IsProjection(dist, plane, route, at, n, p)
      else p.progressMeters == 0.0 && p.crossTrackMeters == if n == 0 then dist(at, route[0]) else 0.0
  {
    BestIsProjection(dist, plane, route, at, |route| - 1);
    hide BestOf, IsProper, IsProjection, CumulativeAt;
  }

  // ---- The nearest point of the route ----

  /** The earliest of the first n points at the least distance. */
  function NearestOf(dist: Metric, route: seq<LatLng>, at: LatLng, n: nat): (k: nat)
    requires 0 < n <= |route|
    ensures k < n
  {
    if n == 1 then 0
    else
      var best := NearestOf(dist, route, at, n - 1);
      if dist(at, route[n - 1]) < dist(at, route[best]) then n - 1 else best
  }

  lemma {:induction false} NearestIsLeast(dist: Metric, route: seq<LatLng>, at: LatLng, n: nat)
    requires 0 < n <= |route|
    ensures
      var k := NearestOf(dist, route, at, n);
      && k < n
      && (forall i :: 0 <= i < n ==> dist(at, route[k]) <= dist(at, route[i]))
      && (forall i :: 0 <= i < k ==> dist(at, route[k]) < dist(at, route[i]))
  {
    if n > 1 { NearestIsLeast(dist, route, at, n - 1); }
  }
}
