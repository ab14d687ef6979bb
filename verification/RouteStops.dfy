/** The stops of a route, filtered and ordered alike by src/services/eta.service.ts and
    src/services/arrival.service.ts. */
module RouteStops {
  import opened Wrappers
  import opened Geo

  /** A stop as queried; a coordinate that is not a finite number is None. */
  datatype StopPoint = StopPoint(stopId: string, stopName: string, stopOrder: int, lat: Option<real>, lng: Option<real>)

  datatype Stop = Stop(stopId: string, stopName: string, stopOrder: int, at: LatLng)

  predicate IsUsable(s: StopPoint) {
    && s.lat.Some? && s.lng.Some?
    && -90.0 <= s.lat.value <= 90.0 && -180.0 <= s.lng.value <= 180.0
  }

  function Normalized(s: StopPoint): Stop
    requires IsUsable(s)
  {
    Stop(s.stopId, s.stopName, s.stopOrder, LatLng(s.lat.value, s.lng.value))
  }

  function Usable(stops: seq<StopPoint>): seq<Stop> {
    if stops == [] then []
    else if IsUsable(stops[0]) then [Normalized(stops[0])] + Usable(stops[1..])
    else Usable(stops[1..])
  }

  /** Insert before the first stop whose order is not smaller; from the back, this keeps ties in place. */
  function Insert(s: Stop, sorted: seq<Stop>): seq<Stop> {
    if sorted == [] || s.stopOrder <= sorted[0].stopOrder then [s] + sorted
    else [sorted[0]] + Insert(s, sorted[1..])
  }

  function SortByOrder(stops: seq<Stop>): seq<Stop> {
    if stops == [] then [] else Insert(stops[0], SortByOrder(stops[1..]))
  }

  function NormalizedStops(stops: seq<StopPoint>): seq<Stop> {
    SortByOrder(Usable(stops))
  }

  ghost predicate Ordered(stops: seq<Stop>) {
    forall i, j :: 0 <= i < j < |stops| ==> stops[i].stopOrder <= stops[j].stopOrder
  }

  lemma {:induction false} InsertKeepsStops(s: Stop, sorted: seq<Stop>)
    ensures multiset(Insert(s, sorted)) == multiset(sorted) + multiset{s}
  {
    if sorted != [] && s.stopOrder > sorted[0].stopOrder {
      InsertKeepsStops(s, sorted[1..]);
      assert sorted == [sorted[0]] + sorted[1..];
    }
  }

  /** Every stop of the list comes no earlier than the given order. */
  ghost predicate NoneBefore(order: int, stops: seq<Stop>) {
    forall i :: 0 <= i < |stops| ==> order <= stops[i].stopOrder
  }

  lemma {:induction false} InsertKeepsBound(s: Stop, sorted: seq<Stop>, order: int)
    requires NoneBefore(order, sorted) && order <= s.stopOrder
    ensures NoneBefore(order, Insert(s, sorted))
  {
    if sorted != [] && s.stopOrder > sorted[0].stopOrder {
      InsertKeepsBound(s, sorted[1..], order);
    }
  }

  lemma {:induction false} InsertKeepsOrder(s: Stop, sorted: seq<Stop>)
    requires Ordered(sorted)
    ensures Ordered(Insert(s, sorted))
  {
    if sorted != [] && s.stopOrder > sorted[0].stopOrder {
      InsertKeepsOrder(s, sorted[1..]);
      InsertKeepsBound(s, sorted[1..], sorted[0].stopOrder);
    }
  }

  /** Normalizing keeps exactly the usable stops and orders them. */
  lemma {:induction false} SortIsOrderedPermutation(stops: seq<Stop>)
    ensures Ordered(SortByOrder(stops)) && multiset(SortByOrder(stops)) == multiset(stops)
  {
    if stops != [] {
      SortIsOrderedPermutation(stops[1..]);
      InsertKeepsStops(stops[0], SortByOrder(stops[1..]));
      InsertKeepsOrder(stops[0], SortByOrder(stops[1..]));
      assert stops == [stops[0]] + stops[1..];
    }
  }

  /** The stops of one order, as they come. */
  function OfOrder(stops: seq<Stop>, order: int): seq<Stop> {
    if stops == [] then []
    else (if stops[0].stopOrder == order then [stops[0]] else []) + OfOrder(stops[1..], order)
  }

  lemma {:induction false} InsertIsStable(s: Stop, sorted: seq<Stop>, order: int)
    ensures OfOrder(Insert(s, sorted), order) == OfOrder([s] + sorted, order)
  {
    assert ([s] + sorted)[1..] == sorted;
    if sorted != [] && s.stopOrder > sorted[0].stopOrder {
      InsertIsStable(s, sorted[1..], order);
      var rest := Insert(s, sorted[1..]);
      assert ([sorted[0]] + rest)[1..] == rest;
      assert ([s] + sorted[1..])[1..] == sorted[1..];
    }
  }

  /** Sorting is stable: stops of the same order keep their places relative to each other. */
  lemma {:induction false} SortIsStable(stops: seq<Stop>, order: int)
    ensures OfOrder(SortByOrder(stops), order) == OfOrder(stops, order)
  {
    if stops != [] {
      SortIsStable(stops[1..], order);
      var sorted := SortByOrder(stops[1..]);
      InsertIsStable(stops[0], sorted, order);
      assert ([stops[0]] + sorted)[1..] == sorted;
    }
  }

  /** The point is a number on the globe. */
  predicate IsOnGlobe(s: StopPoint) {
    && s.lat.Some? && s.lng.Some?
    && s.lat.value <= 90.0 && s.lat.value >= -90.0 && s.lng.value <= 180.0 && s.lng.value >= -180.0
  }

  function CountOnGlobe(stops: seq<StopPoint>): nat {
    if stops == [] then 0 else (if IsOnGlobe(stops[0]) then 1 else 0) + CountOnGlobe(stops[1..])
  }

  lemma {:induction false} UsableAreOnGlobe(stops: seq<StopPoint>)
    ensures |Usable(stops)| == CountOnGlobe(stops)
    ensures forall i :: 0 <= i < |stops| && IsOnGlobe(stops[i]) ==>
      Stop(stops[i].stopId, stops[i].stopName, stops[i].stopOrder, LatLng(stops[i].lat.value, stops[i].lng.value))
        in Usable(stops)
    ensures forall x :: x in Usable(stops) ==>
      x.at.lat <= 90.0 && x.at.lat >= -90.0 && x.at.lng <= 180.0 && x.at.lng >= -180.0
  {
    if stops != [] { UsableAreOnGlobe(stops[1..]); }
  }

  /** Normalizing keeps each point on the globe as a stop, drops all others, and orders the stops. */
  lemma NormalizedAreOnGlobe(stops: seq<StopPoint>)
    ensures Ordered(NormalizedStops(stops)) && |NormalizedStops(stops)| == CountOnGlobe(stops)
    ensures forall i :: 0 <= i < |stops| && IsOnGlobe(stops[i]) ==>
      Stop(stops[i].stopId, stops[i].stopName, stops[i].stopOrder, LatLng(stops[i].lat.value, stops[i].lng.value))
        in NormalizedStops(stops)
    ensures forall x :: x in NormalizedStops(stops) ==>
      x.at.lat <= 90.0 && x.at.lat >= -90.0 && x.at.lng <= 180.0 && x.at.lng >= -180.0
  {
    UsableAreOnGlobe(stops);
    SortIsOrderedPermutation(Usable(stops));
    SameLength(Usable(stops), SortByOrder(Usable(stops)));
    hide Usable, SortByOrder, Ordered, IsOnGlobe, CountOnGlobe;
    forall x ensures x in Usable(stops) <==> x in NormalizedStops(stops) {
      assert x in multiset(Usable(stops)) <==> x in multiset(SortByOrder(Usable(stops)));
    }
  }

  lemma SameLength(a: seq<Stop>, b: seq<Stop>)
    requires multiset(a) == multiset(b)
    ensures |a| == |b|
  {
    assert |multiset(a)| == |a| && |multiset(b)| == |b|;
  }

  function Route(stops: seq<Stop>): (r: seq<LatLng>)
    ensures |r| == |stops|
  {
    seq(|stops|, i requires 0 <= i < |stops| => stops[i].at)
  }

  /** findIndex by stop id; -1 when absent. */
  function IndexOf(stops: seq<Stop>, id: string): (k: int)
    ensures -1 <= k < |stops|
    ensures k >= 0 ==> stops[k].stopId == id
    ensures forall i :: 0 <= i < (if k >= 0 then k else |stops|) ==> stops[i].stopId != id
  {
    if stops == [] then -1
    else if stops[0].stopId == id then 0
    else
      var k := IndexOf(stops[1..], id);
      if k < 0 then -1 else k + 1
  }

  ghost predicate DistinctStops(stops: seq<Stop>) {
    forall i, j :: 0 <= i < j < |stops| ==> stops[i].stopId != stops[j].stopId
  }

  lemma IndexOfStop(stops: seq<Stop>, i: nat)
    requires i < |stops| && DistinctStops(stops)
    ensures IndexOf(stops, stops[i].stopId) == i
  {
    hide IndexOf;
    var k := IndexOf(stops, stops[i].stopId);
  }
}
