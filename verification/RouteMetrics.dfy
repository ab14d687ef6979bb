/** Cumulative route distances (src/services/googleRoutes.service.ts) and the readiness loops they
    have to pass before a route is scheduled (src/services/serviceSchedule.service.ts). */
module RouteMetrics {
  import opened Wrappers
  import opened Rounding
  import opened Geo
  import opened Polyline

  /** Number(leg.distanceMeters ?? 0) */
  datatype LegDistance = Missing | NotFinite | Meters(m: real)

  /** What the routing request yields: an error of any kind, or the first route. */
  datatype RoutingReply =
    | Failed
    | Route(distanceMeters: Option<real>, legs: Option<seq<LegDistance>>, polyline: Option<seq<CodeUnit>>)

  datatype RoutingMode = GoogleRoutes | Fallback | NoRoute

  datatype Metrics = Metrics(distancesKm: seq<real>, geometry: seq<LatLng>, mode: RoutingMode)

  const MAX_ROUTE_POINTS := 27

  // ---- Specification ----

  /** Straight-line kilometres from the first stop to stop n. */
  function StraightKm(dist: Metric, stops: seq<LatLng>, n: nat): real
    requires n < |stops| || n == 0
  {
    if n == 0 then 0.0 else StraightKm(dist, stops, n - 1) + dist(stops[n - 1], stops[n]) / 1000.0
  }

  function StraightSeries(dist: Metric, stops: seq<LatLng>): seq<real> {
    seq(|stops|, i requires 0 <= i < |stops| => ToFixed3(StraightKm(dist, stops, i)))
  }

  function LegKm(leg: LegDistance): real {
    if leg.Meters? then leg.m / 1000.0 else 0.0
  }

  function LegsKm(legs: seq<LegDistance>, n: nat): real
    requires n <= |legs|
  {
    if n == 0 then 0.0 else LegsKm(legs, n - 1) + LegKm(legs[n - 1])
  }

  function LegSeries(legs: seq<LegDistance>): seq<real> {
    seq(|legs| + 1, i requires 0 <= i < |legs| + 1 => ToFixed3(LegsKm(legs, i)))
  }

  function Share(distanceKm: real, totalKm: real, routeKm: real): real
    requires totalKm > 0.0
  {
    distanceKm / totalKm * routeKm
  }

  /** The straight-line series stretched so that it ends at the reported route length. */
  function ScaledSeries(series: seq<real>, routeKm: real): seq<real>
    requires |series| > 0
  {
    var total := series[|series| - 1];
    if total <= 0.0 then seq(|series|, i requires 0 <= i < |series| => if i == 0 then 0.0 else ToFixed3(routeKm))
    else seq(|series|, i requires 0 <= i < |series| => ToFixed3(Share(series[i], total, routeKm)))
  }

  function LegBasedSeries(
      dist: Metric, stops: seq<LatLng>, routeMeters: Option<real>, legs: Option<seq<LegDistance>>): Option<seq<real>>
  {
    if legs.Some? && |legs.value| == |stops| - 1 then Some(LegSeries(legs.value))
    else if routeMeters.None? || |stops| < 2 then None
    else Some(ScaledSeries(StraightSeries(dist, stops), routeMeters.value / 1000.0))
  }

  function FallbackMetrics(dist: Metric, stops: seq<LatLng>): Metrics {
    Metrics(StraightSeries(dist, stops), stops, if stops == [] then NoRoute else Fallback)
  }

  /** An accepted distance series: one entry per stop, starting at 0 and never decreasing. */
  ghost predicate ValidSeries(d: seq<real>, n: nat) {
    && |d| == n
    && (n > 0 ==> d[0] == 0.0)
    && forall i, j :: 0 <= i <= j < n ==> d[i] <= d[j]
  }

  predicate NonNegative(reply: RoutingReply) {
    reply.Route? ==>
      && reply.distanceMeters.UnwrapOr(0.0) >= 0.0
      && (reply.legs.Some? ==> forall i :: 0 <= i < |reply.legs.value| ==> LegKm(reply.legs.value[i]) >= 0.0)
  }

  // ---- Implementation ----

  lemma StraightStep(dist: Metric, stops: seq<LatLng>, i: nat)
    requires i < |stops|
    ensures |StraightSeries(dist, stops)| == |stops|
    ensures StraightSeries(dist, stops)[i] == ToFixed3(StraightKm(dist, stops, i))
    ensures StraightKm(dist, stops, i) ==
      if i == 0 then 0.0 else StraightKm(dist, stops, i - 1) + dist(stops[i - 1], stops[i]) / 1000.0
    ensures i == 0 ==> StraightSeries(dist, stops)[i] == 0.0
  {
    ToFixed3Zero();
    hide ToFixed3;
  }

  lemma LegStep(legs: seq<LegDistance>, i: nat)
    requires i <= |legs|
    ensures |LegSeries(legs)| == |legs| + 1
    ensures LegSeries(legs)[i] == ToFixed3(LegsKm(legs, i))
    ensures LegsKm(legs, i) == if i == 0 then 0.0 else LegsKm(legs, i - 1) + LegKm(legs[i - 1])
    ensures i == 0 ==> LegSeries(legs)[i] == 0.0
  {
    ToFixed3Zero();
    hide ToFixed3;
  }

  /** buildFallbackRouteMetrics */
  method BuildFallbackRouteMetrics(dist: Metric, stops: seq<LatLng>) returns (m: Metrics)
    ensures m == FallbackMetrics(dist, stops)
  {
    hide ToFixed3, StraightKm, StraightSeries;
    if |stops| == 0 {
      assert StraightSeries(dist, stops) == [] by { EmptySeries(dist); }
      return Metrics([], [], NoRoute);
    }
    StraightStep(dist, stops, 0);
    ghost var series := StraightSeries(dist, stops);
    if |stops| == 1 {
      assert series == [0.0];
      return Metrics([0.0], stops, Fallback);
    }
    var distancesKm, geometry, totalKm := [0.0], [stops[0]], 0.0;
    for i := 1 to |stops|
      invariant totalKm == StraightKm(dist, stops, i - 1)
      invariant distancesKm == series[..i]
      invariant geometry == stops[..i]
    {
      StraightStep(dist, stops, i);
      totalKm := totalKm + dist(stops[i - 1], stops[i]) / 1000.0;
      distancesKm := distancesKm + [ToFixed3(totalKm)];
      geometry := geometry + [stops[i]];
    }
    m := Metrics(distancesKm, geometry, Fallback);
  }

  lemma EmptySeries(dist: Metric)
    ensures StraightSeries(dist, []) == []
  {}

  /** buildCumulativeDistancesFromLegs */
  method BuildCumulativeDistancesFromLegs(
      dist: Metric, stops: seq<LatLng>, routeMeters: Option<real>, legs: Option<seq<LegDistance>>)
    returns (r: Option<seq<real>>)
    ensures r == LegBasedSeries(dist, stops, routeMeters, legs)
  {
    hide ToFixed3, StraightSeries, ScaledSeries, LegSeries, LegsKm;
    if legs.None? || |legs.value| != |stops| - 1 {
      if routeMeters.None? || |stops| < 2 {
        return None;
      }
      StraightStep(dist, stops, 0);
      var fallback := BuildFallbackRouteMetrics(dist, stops);
      return Some(ScaledSeries(fallback.distancesKm, routeMeters.value / 1000.0));
    }
    LegStep(legs.value, 0);
    ghost var series := LegSeries(legs.value);
    var distancesKm, totalKm := [0.0], 0.0;
    for i := 0 to |legs.value|
      invariant totalKm == LegsKm(legs.value, i)
      invariant distancesKm == series[..i + 1]
    {
      LegStep(legs.value, i + 1);
      totalKm := totalKm + LegKm(legs.value[i]);
      distancesKm := distancesKm + [ToFixed3(totalKm)];
    }
    assert distancesKm == series;
    r := Some(distancesKm);
  }

  /** buildRouteMetrics: a usable reply, or the straight-line fallback whenever anything is missing. */
  method BuildRouteMetrics(dist: Metric, stops: seq<LatLng>, reply: RoutingReply) returns (m: Metrics)
    ensures m == RouteMetricsFor(dist, stops, reply)
  {
    hide ToDegrees, Decoded, StraightSeries, ScaledSeries, LegSeries;
    if |stops| >= 2 && |stops| <= MAX_ROUTE_POINTS && reply.Route? {
      var distancesKm := BuildCumulativeDistancesFromLegs(dist, stops, reply.distanceMeters, reply.legs);
      if distancesKm.Some? && |distancesKm.value| == |stops| {
        var geometry := [];
        if reply.polyline.Some? {
          geometry := DecodePolyline(reply.polyline.value);
        }
        return Metrics(distancesKm.value, if |geometry| >= 2 then geometry else stops, GoogleRoutes);
      }
    }
    m := BuildFallbackRouteMetrics(dist, stops);
  }

  function RouteMetricsFor(dist: Metric, stops: seq<LatLng>, reply: RoutingReply): Metrics {
    if 2 <= |stops| <= MAX_ROUTE_POINTS && reply.Route? then
      var d := LegBasedSeries(dist, stops, reply.distanceMeters, reply.legs);
      var g := if reply.polyline.Some? then ToDegrees(Decoded(reply.polyline.value)) else [];
      if d.Some? && |d.value| == |stops| then Metrics(d.value, if |g| >= 2 then g else stops, GoogleRoutes)
      else FallbackMetrics(dist, stops)
    else FallbackMetrics(dist, stops)
  }

  // ---- Every accepted series is valid ----

  lemma ToFixed3Zero()
    ensures ToFixed3(0.0) == 0.0
  {}

  lemma {:induction false} StraightMonotone(dist: Metric, stops: seq<LatLng>, i: nat, j: nat)
    requires i <= j < |stops|
    ensures 0.0 <= StraightKm(dist, stops, i) <= StraightKm(dist, stops, j)
    decreases j
  {
    if j > 0 {
      StraightMonotone(dist, stops, if i < j then i else i - 1, j - 1);
    }
  }

  lemma {:induction false} LegsMonotone(legs: seq<LegDistance>, i: nat, j: nat)
    requires i <= j <= |legs|
    requires forall k :: 0 <= k < |legs| ==> LegKm(legs[k]) >= 0.0
    ensures 0.0 <= LegsKm(legs, i) <= LegsKm(legs, j)
    decreases j
  {
    if j > 0 {
      LegsMonotone(legs, if i < j then i else i - 1, j - 1);
    }
  }

  lemma StraightSeriesValid(dist: Metric, stops: seq<LatLng>)
    ensures ValidSeries(StraightSeries(dist, stops), |stops|)
  {
    hide ToFixed3;
    ToFixed3Zero();
    forall i, j | 0 <= i <= j < |stops|
      ensures StraightSeries(dist, stops)[i] <= StraightSeries(dist, stops)[j]
    {
      StraightMonotone(dist, stops, i, j);
      ToFixed3Monotone(StraightKm(dist, stops, i), StraightKm(dist, stops, j));
    }
  }

  /** The rounded running totals of the legs never fall. */
  ghost predicate TotalsAscend(legs: seq<LegDistance>) {
    forall i :: 0 <= i < |legs| ==> ToFixed3(LegsKm(legs, i)) <= ToFixed3(LegsKm(legs, i + 1))
  }

  lemma {:induction false} TotalsSpan(legs: seq<LegDistance>, i: nat, j: nat)
    requires TotalsAscend(legs) && i <= j <= |legs|
    ensures ToFixed3(LegsKm(legs, i)) <= ToFixed3(LegsKm(legs, j))
    decreases j
  {
    hide ToFixed3, LegsKm;
    if i < j {
      TotalsSpan(legs, i, j - 1);
      assert ToFixed3(LegsKm(legs, j - 1)) <= ToFixed3(LegsKm(legs, j - 1 + 1));
    }
  }

  /** The series from the legs is valid exactly when those totals never fall, as for non-negative legs. */
  lemma LegSeriesValid(legs: seq<LegDistance>)
    ensures ValidSeries(LegSeries(legs), |legs| + 1) <==> TotalsAscend(legs)
    ensures (forall k :: 0 <= k < |legs| ==> LegKm(legs[k]) >= 0.0) ==> TotalsAscend(legs)
  {
    hide ToFixed3;
    ToFixed3Zero();
    var d := LegSeries(legs);
    if TotalsAscend(legs) {
      forall i, j | 0 <= i <= j < |d| ensures d[i] <= d[j] { TotalsSpan(legs, i, j); }
    }
    if ValidSeries(d, |legs| + 1) {
      forall i | 0 <= i < |legs| ensures ToFixed3(LegsKm(legs, i)) <= ToFixed3(LegsKm(legs, i + 1)) {
        assert d[i] <= d[i + 1];
      }
    }
    if forall k :: 0 <= k < |legs| ==> LegKm(legs[k]) >= 0.0 {
      forall i | 0 <= i < |legs| ensures ToFixed3(LegsKm(legs, i)) <= ToFixed3(LegsKm(legs, i + 1)) {
        ToFixed3Monotone(LegsKm(legs, i), LegsKm(legs, i + 1));
      }
    }
  }

  lemma ShareMonotone(a: real, b: real, total: real, routeKm: real)
    requires 0.0 <= a <= b && total > 0.0
    ensures routeKm >= 0.0 ==> 0.0 <= Share(a, total, routeKm) <= Share(b, total, routeKm)
    ensures routeKm <= 0.0 ==> 0.0 >= Share(a, total, routeKm) >= Share(b, total, routeKm)
    ensures Share(0.0, total, routeKm) == 0.0 && Share(total, total, routeKm) == routeKm
  {
    var p, q := a / total, b / total;
    assert p * total == a && q * total == b;
    assert 0.0 <= p <= q;
    assert total / total == 1.0;
    Products(p, q, routeKm);
  }

  lemma Products(p: real, q: real, r: real)
    requires 0.0 <= p <= q
    ensures r >= 0.0 ==> 0.0 <= p * r <= q * r
    ensures r <= 0.0 ==> 0.0 >= p * r >= q * r
  {
    assert q * r - p * r == (q - p) * r;
  }

  /** A stretched series that starts at zero and keeps to the sign of the route's length. */
  lemma ScaledEntries(series: seq<real>, routeKm: real, i: nat, j: nat)
    requires |series| >= 2 && ValidSeries(series, |series|) && i <= j < |series|
    ensures
      var d := ScaledSeries(series, routeKm);
      && d[0] == 0.0 && d[|series| - 1] == ToFixed3(routeKm)
      && (routeKm >= 0.0 ==> d[i] <= d[j])
      && (routeKm <= 0.0 ==> ToFixed3(routeKm) <= d[i] <= 0.0)
  {
    ToFixed3Zero();
    hide ToFixed3, Share;
    var total := series[|series| - 1];
    assert 0.0 <= series[i] <= series[j] <= total;
    if routeKm >= 0.0 { ToFixed3Monotone(0.0, routeKm); } else { ToFixed3Monotone(routeKm, 0.0); }
    if total > 0.0 {
      ShareMonotone(series[i], series[j], total, routeKm);
      ShareMonotone(0.0, total, total, routeKm);
      ShareMonotone(series[i], total, total, routeKm);
      if routeKm >= 0.0 {
        ToFixed3Monotone(Share(series[i], total, routeKm), Share(series[j], total, routeKm));
      } else {
        ToFixed3Monotone(routeKm, Share(series[i], total, routeKm));
        ToFixed3Monotone(Share(series[i], total, routeKm), 0.0);
      }
    }
  }

  /** Stretching a valid series keeps it valid exactly when the reported length does not round below zero, and makes it
      end at that length. */
  lemma ScaledSeriesValid(series: seq<real>, routeKm: real)
    requires |series| >= 2 && ValidSeries(series, |series|)
    ensures ValidSeries(ScaledSeries(series, routeKm), |series|) <==> ToFixed3(routeKm) >= 0.0
    ensures ScaledSeries(series, routeKm)[|series| - 1] == ToFixed3(routeKm)
  {
    var d := ScaledSeries(series, routeKm);
    ScaledEntries(series, routeKm, 0, 0);
    if routeKm >= 0.0 { ToFixed3Monotone(0.0, routeKm); }
    hide ToFixed3, ScaledSeries;
    assert |d| == |series| by { ScaledLength(series, routeKm); }
    forall i, j | 0 <= i <= j < |series| ensures ToFixed3(routeKm) >= 0.0 ==> d[i] <= d[j] {
      ScaledEntries(series, routeKm, i, j);
      ScaledEntries(series, routeKm, j, j);
    }
  }

  lemma ScaledLength(series: seq<real>, routeKm: real)
    requires |series| > 0
    ensures |ScaledSeries(series, routeKm)| == |series|
  {}

  /** What a reply's distances must satisfy: the legs' rounded totals never fall, or, when the stretched series is used,
      the reported length does not round below zero. */
  ghost predicate Acceptable(stops: seq<LatLng>, reply: RoutingReply) {
    2 <= |stops| <= MAX_ROUTE_POINTS && reply.Route? ==>
      if reply.legs.Some? && |reply.legs.value| == |stops| - 1 then TotalsAscend(reply.legs.value)
      else reply.distanceMeters.Some? ==> ToFixed3(reply.distanceMeters.value / 1000.0) >= 0.0
  }

  lemma NonNegativeIsAcceptable(stops: seq<LatLng>, reply: RoutingReply)
    requires NonNegative(reply)
    ensures Acceptable(stops, reply)
  {
    hide ToFixed3, TotalsAscend;
    if reply.Route? {
      if reply.legs.Some? { LegSeriesValid(reply.legs.value); }
      if reply.distanceMeters.Some? { ToFixed3Monotone(0.0, reply.distanceMeters.value / 1000.0); }
      ToFixed3Zero();
    }
  }

  /** Whatever the routing service answered, the series handed to the route is valid exactly when the distances in the
      answer are acceptable. */
  lemma MetricsValidExactly(dist: Metric, stops: seq<LatLng>, reply: RoutingReply)
    ensures ValidSeries(RouteMetricsFor(dist, stops, reply).distancesKm, |stops|) <==> Acceptable(stops, reply)
  {
    hide StraightSeries, LegSeries, ScaledSeries, ToDegrees, Decoded, ToFixed3, TotalsAscend, ValidSeries;
    StraightSeriesValid(dist, stops);
    SeriesLengths(dist, stops, reply);
    if 2 <= |stops| <= MAX_ROUTE_POINTS && reply.Route? {
      if reply.legs.Some? && |reply.legs.value| == |stops| - 1 {
        LegSeriesValid(reply.legs.value);
      } else if reply.distanceMeters.Some? {
        ScaledSeriesValid(StraightSeries(dist, stops), reply.distanceMeters.value / 1000.0);
      }
    }
  }

  lemma SeriesLengths(dist: Metric, stops: seq<LatLng>, reply: RoutingReply)
    ensures |StraightSeries(dist, stops)| == |stops|
    ensures reply.Route? && reply.legs.Some? ==> |LegSeries(reply.legs.value)| == |reply.legs.value| + 1
    ensures |stops| > 0 && reply.Route? && reply.distanceMeters.Some? ==>
      |ScaledSeries(StraightSeries(dist, stops), reply.distanceMeters.value / 1000.0)| == |stops|
  {
    hide ToFixed3, Share, StraightKm, LegsKm;
  }

  /** Any answer with non-negative distances yields a valid series. */
  lemma MetricsAlwaysValid(dist: Metric, stops: seq<LatLng>, reply: RoutingReply)
    requires NonNegative(reply)
    ensures ValidSeries(RouteMetricsFor(dist, stops, reply).distancesKm, |stops|)
  {
    hide *;
    NonNegativeIsAcceptable(stops, reply);
    MetricsValidExactly(dist, stops, reply);
  }

  /** A leg of -1000 metres is stored as it comes: the route of two stops then ends before it starts. */
  lemma NegativeLegIsStored(dist: Metric, a: LatLng, b: LatLng)
    ensures
      var d := RouteMetricsFor(dist, [a, b], Route(None, Some([Meters(-1000.0)]), None)).distancesKm;
      d == [0.0, -1.0] && !ValidSeries(d, 2)
  {
    ToFixed3Zero();
    var legs := [Meters(-1000.0)];
    assert LegsKm(legs, 0) == 0.0 && LegsKm(legs, 1) == -1.0;
    assert ToFixed3(-1.0) == -1.0;
    hide ToFixed3;
    var d := LegSeries(legs);
    assert d == [0.0, -1.0];
    assert d[0] > d[1];
    hide LegSeries, StraightSeries, ToDegrees, Decoded;
    assert RouteMetricsFor(dist, [a, b], Route(None, Some(legs), None)).distancesKm == d;
  }

  // ---- What the series and the geometry say ----

  /** Along the straight-line series each stop adds the distance from the one before, before rounding; along the legs'
      series, the leg in between, an unusable one counting for nothing. */
  lemma SeriesAddUp(dist: Metric, stops: seq<LatLng>, legs: seq<LegDistance>, i: nat)
    ensures i < |stops| ==> StraightSeries(dist, stops)[i] == ToFixed3(StraightKm(dist, stops, i))
    ensures 0 < i < |stops| ==>
      StraightKm(dist, stops, i) - StraightKm(dist, stops, i - 1) == dist(stops[i - 1], stops[i]) / 1000.0
    ensures i <= |legs| ==> LegSeries(legs)[i] == ToFixed3(LegsKm(legs, i))
    ensures 0 < i <= |legs| ==>
      LegsKm(legs, i) - LegsKm(legs, i - 1) == match legs[i - 1] { case Meters(m) => m / 1000.0 case _ => 0.0 }
    ensures StraightKm(dist, stops, 0) == 0.0 && LegsKm(legs, 0) == 0.0
  {
    hide ToFixed3;
  }

  /** The stretched series keeps the proportions of the straight-line one, to half a metre. */
  lemma ScaledIsProportional(series: seq<real>, routeKm: real, i: nat)
    requires i < |series| && series[|series| - 1] > 0.0
    ensures |ScaledSeries(series, routeKm)| == |series|
    ensures
      var d, share := ScaledSeries(series, routeKm)[i], series[i] / series[|series| - 1] * routeKm;
      -0.0005 <= d - share <= 0.0005
  {
    hide ToFixed3, Share, ScaledSeries;
    var total := series[|series| - 1];
    ScaledEntryIsShare(series, routeKm, i);
    ShareIs(series[i], total, routeKm);
    ToFixedIsNear(Share(series[i], total, routeKm));
  }

  lemma ScaledEntryIsShare(series: seq<real>, routeKm: real, i: nat)
    requires i < |series| && series[|series| - 1] > 0.0
    ensures |ScaledSeries(series, routeKm)| == |series|
    ensures ScaledSeries(series, routeKm)[i] == ToFixed3(Share(series[i], series[|series| - 1], routeKm))
  {
    hide ToFixed3, Share;
  }

  lemma ShareIs(a: real, total: real, routeKm: real)
    requires total > 0.0
    ensures Share(a, total, routeKm) == a / total * routeKm
  {}

  /** A reply is used exactly when there are 2 to 27 stops and it brings one leg between each two or, failing that, a
      total
      distance; otherwise everything is straight lines. A used reply's decoded line is the geometry if it has two
      points. */
  lemma ReplyIsUsedExactly(dist: Metric, stops: seq<LatLng>, reply: RoutingReply)
    ensures
      var m := RouteMetricsFor(dist, stops, reply);
      var fits := reply.Route? && reply.legs.Some? && |reply.legs.value| == |stops| - 1;
      var line := if reply.Route? && reply.polyline.Some? then ToDegrees(Decoded(reply.polyline.value)) else [];
      && (m.mode == NoRoute <==> stops == [])
      && (m.mode == GoogleRoutes <==> 2 <= |stops| <= 27 && reply.Route? && (fits || reply.distanceMeters.Some?))
      && (m.mode == GoogleRoutes && fits ==> m.distancesKm == LegSeries(reply.legs.value))
      && (m.mode == GoogleRoutes && !fits ==>
            m.distancesKm == ScaledSeries(StraightSeries(dist, stops), reply.distanceMeters.value / 1000.0))
      && (m.mode == GoogleRoutes ==> m.geometry == if |line| >= 2 then line else stops)
      && (m.mode != GoogleRoutes ==> m.distancesKm == StraightSeries(dist, stops) && m.geometry == stops)
  {
    hide StraightSeries, LegSeries, ScaledSeries, ToDegrees, Decoded;
    SeriesLengths(dist, stops, reply);
  }

  // ---- Readiness for scheduling ----

  datatype RouteStop = RouteStop(stopOrder: int, distanceFromStartKm: Option<real>)

  datatype Readiness =
    | Ready
    | RouteInactive
    | NotOperationallyReady
    | StopSequenceInvalid
    | DistanceSeriesIncomplete
    | FirstStopDistanceInvalid
    | DistanceSequenceInvalid

  ghost predicate Numbered(stops: seq<RouteStop>) {
    forall i :: 0 <= i < |stops| ==> stops[i].stopOrder == i + 1
  }

  ghost predicate HasDistance(stops: seq<RouteStop>) {
    exists i :: 0 <= i < |stops| && stops[i].distanceFromStartKm.Some?
  }

  ghost predicate LacksDistance(stops: seq<RouteStop>) {
    exists i :: 0 <= i < |stops| && stops[i].distanceFromStartKm.None?
  }

  ghost predicate Ascending(stops: seq<RouteStop>) {
    forall i :: 0 < i < |stops| ==>
      stops[i - 1].distanceFromStartKm.UnwrapOr(0.0) <= stops[i].distanceFromStartKm.UnwrapOr(0.0)
  }

  /** The verdict, as the first check that fails. */
  ghost function ReadinessOf(isActive: bool, stops: seq<RouteStop>): Readiness {
    if !isActive then RouteInactive
    else if |stops| < 2 then NotOperationallyReady
    else if !Numbered(stops) then StopSequenceInvalid
    else if HasDistance(stops) && LacksDistance(stops) then DistanceSeriesIncomplete
    else if !HasDistance(stops) then Ready
    else if stops[0].distanceFromStartKm.UnwrapOr(0.0) != 0.0 then FirstStopDistanceInvalid
    else if !Ascending(stops) then DistanceSequenceInvalid
    else Ready
  }

  /** The route checks made before a service schedule is created. */
  method CheckRouteReady(isActive: bool, stops: seq<RouteStop>) returns (r: Readiness)
    ensures r == ReadinessOf(isActive, stops)
  {
    if !isActive { return RouteInactive; }
    if |stops| < 2 { return NotOperationallyReady; }
    for i := 0 to |stops|
      invariant forall k :: 0 <= k < i ==> stops[k].stopOrder == k + 1
    {
      if stops[i].stopOrder != i + 1 { return StopSequenceInvalid; }
    }
    var hasAnyDistance := exists i :: 0 <= i < |stops| && stops[i].distanceFromStartKm.Some?;
    var hasMissingDistance := exists i :: 0 <= i < |stops| && stops[i].distanceFromStartKm.None?;
    if hasAnyDistance && hasMissingDistance { return DistanceSeriesIncomplete; }
    if hasAnyDistance {
      var previousDistance := -1.0;
      for i := 0 to |stops|
        invariant i == 0 ==> previousDistance == -1.0
        invariant i > 0 ==> previousDistance == stops[i - 1].distanceFromStartKm.UnwrapOr(0.0)
        invariant i > 0 ==> stops[0].distanceFromStartKm.UnwrapOr(0.0) == 0.0
        invariant forall k :: 0 < k < i ==>
          stops[k - 1].distanceFromStartKm.UnwrapOr(0.0) <= stops[k].distanceFromStartKm.UnwrapOr(0.0)
      {
        var distance := stops[i].distanceFromStartKm.UnwrapOr(0.0);
        if i == 0 && distance != 0.0 { return FirstStopDistanceInvalid; }
        if distance < previousDistance { return DistanceSequenceInvalid; }
        previousDistance := distance;
      }
    }
    r := Ready;
  }

  /** A route is ready exactly when it is active, has two stops numbered from 1 on, and either no distance at all or one
      at every stop, starting at zero and never falling. */
  lemma ReadyExactly(isActive: bool, stops: seq<RouteStop>)
    ensures ReadinessOf(isActive, stops) == Ready <==>
      && isActive && |stops| >= 2
      && (forall i :: 0 <= i < |stops| ==> stops[i].stopOrder == i + 1)
      && ((forall i :: 0 <= i < |stops| ==> stops[i].distanceFromStartKm.None?)
          || ((forall i :: 0 <= i < |stops| ==> stops[i].distanceFromStartKm.Some?)
              && stops[0].distanceFromStartKm == Some(0.0)
              && forall i :: 0 < i < |stops| ==>
                   stops[i - 1].distanceFromStartKm.value <= stops[i].distanceFromStartKm.value))
  {}

  /** Each refusal names a fault that is there. */
  lemma RefusalsAreTrue(isActive: bool, stops: seq<RouteStop>)
    ensures
      var r := ReadinessOf(isActive, stops);
      && (r == RouteInactive <==> !isActive)
      && (r == NotOperationallyReady <==> isActive && |stops| < 2)
      && (r == StopSequenceInvalid ==> exists i :: 0 <= i < |stops| && stops[i].stopOrder != i + 1)
      && (r == DistanceSeriesIncomplete ==>
            && (exists i :: 0 <= i < |stops| && stops[i].distanceFromStartKm.Some?)
            && exists i :: 0 <= i < |stops| && stops[i].distanceFromStartKm.None?)
      && (r == FirstStopDistanceInvalid ==> |stops| > 0 && stops[0].distanceFromStartKm != Some(0.0))
      && (r == DistanceSequenceInvalid ==>
            exists i :: 0 < i < |stops| &&
              stops[i - 1].distanceFromStartKm.UnwrapOr(0.0) > stops[i].distanceFromStartKm.UnwrapOr(0.0))
  {}

  /** The rows the route editor stores: orders renumbered from 1, one distance per stop. */
  function StoredStops(distancesKm: seq<real>): seq<RouteStop> {
    seq(|distancesKm|, i requires 0 <= i < |distancesKm| => RouteStop(i + 1, Some(distancesKm[i])))
  }

  /** A stored series passes every readiness check exactly when it has at least two stops and is valid. */
  lemma ReadyExactlyWhenValid(d: seq<real>)
    ensures ReadinessOf(true, StoredStops(d)) == Ready <==> |d| >= 2 && ValidSeries(d, |d|)
  {
    var stops := StoredStops(d);
    if |d| >= 2 {
      assert stops[0].distanceFromStartKm.Some?;
      if Ascending(stops) {
        forall i, j | 0 <= i <= j < |d| ensures d[i] <= d[j] {
          AscendingSpan(d, i, j);
        }
      } else {
        var i :| 0 < i < |stops| &&
          stops[i - 1].distanceFromStartKm.UnwrapOr(0.0) > stops[i].distanceFromStartKm.UnwrapOr(0.0);
        assert d[i - 1] > d[i];
      }
    }
  }

  lemma {:induction false} AscendingSpan(d: seq<real>, i: nat, j: nat)
    requires i <= j < |d| && Ascending(StoredStops(d))
    ensures d[i] <= d[j]
    decreases j
  {
    if i < j {
      AscendingSpan(d, i, j - 1);
      assert StoredStops(d)[j - 1].distanceFromStartKm.UnwrapOr(0.0) <=
        StoredStops(d)[j].distanceFromStartKm.UnwrapOr(0.0);
    }
  }

  /** An active route that the editor saves is ready for scheduling exactly when it has two stops and the distances it
      was saved with were acceptable, as all non-negative ones are. */
  lemma SavedRoutesAreSchedulable(dist: Metric, stops: seq<LatLng>, reply: RoutingReply)
    ensures ReadinessOf(true, StoredStops(RouteMetricsFor(dist, stops, reply).distancesKm)) == Ready
      <==> |stops| >= 2 && Acceptable(stops, reply)
    ensures NonNegative(reply) ==> Acceptable(stops, reply)
  {
    hide *;
    if NonNegative(reply) { NonNegativeIsAcceptable(stops, reply); }
    MetricsValidExactly(dist, stops, reply);
    MetricsLength(dist, stops, reply);
    ReadyExactlyWhenValid(RouteMetricsFor(dist, stops, reply).distancesKm);
  }

  lemma MetricsLength(dist: Metric, stops: seq<LatLng>, reply: RoutingReply)
    ensures |RouteMetricsFor(dist, stops, reply).distancesKm| == |stops|
  {
    hide LegBasedSeries, ToDegrees, Decoded;
    SeriesLengths(dist, stops, reply);
  }
}
