/** Detecting arrivals at the stops of a route (src/services/arrival.service.ts). */
module Arrival {
  import opened Wrappers
  import opened Rounding
  import opened Geo
  import opened Calendar
  import opened NextDeparture
  import opened RouteProgress
  import opened RouteStops

  /** ARRIVAL_DWELL_SECONDS */
  const ARRIVAL_DWELL_MS := 8000
  const PASSED_STOP_PROGRESS_BUFFER_METERS := 35.0
  const PASSED_STOP_MAX_DIRECT_DISTANCE_METERS := 220.0

  /** An arrival row. */
  datatype Visit = Visit(stopId: string, at: int, scheduledTime: Option<int>, delayMinutes: int)

  /** The arrival rows of a trip and its Redis markers: when the bus was first seen at a stop. */
  datatype Trip = Trip(visits: seq<Visit>, candidates: map<string, int>)

  datatype Packet = Packet(at: LatLng, recordedAt: int)

  /** The route and its surroundings; the timetable gives a stop's scheduled times on the day of an instant. */
  datatype Site = Site(dist: Metric, plane: Plane, radius: real, stops: seq<Stop>, timetable: (string, int) -> seq<int>)

  // ---- createStopArrival ----

  function Abs(x: int): int { if x < 0 then -x else x }

  /** buildScheduledDateDhaka */
  function ScheduledAt(actual: int, scheduledTime: int): int {
    CombineLocalDeparture(CivilDate(DhakaDay(actual)), scheduledTime)
  }

  function Miss(recordedAt: int, scheduledTime: int): int {
    Abs(recordedAt - ScheduledAt(recordedAt, scheduledTime))
  }

  /** The first of the leading n schedules closest to the recorded time. */
  function Chosen(recordedAt: int, schedules: seq<int>, n: nat): Option<int>
    requires n <= |schedules|
  {
    if n == 0 then None
    else
      var best, s := Chosen(recordedAt, schedules, n - 1), schedules[n - 1];
      if best.None? || Miss(recordedAt, s) < Miss(recordedAt, best.value) then Some(s) else best
  }

  function Delay(recordedAt: int, scheduledTime: int): int {
    MathRound((recordedAt - ScheduledAt(recordedAt, scheduledTime)) as real / 60000.0)
  }

  function VisitOf(site: Site, stopId: string, recordedAt: int): Visit {
    var schedules := site.timetable(stopId, recordedAt);
    var chosen := Chosen(recordedAt, schedules, |schedules|);
    Visit(stopId, recordedAt, chosen, if chosen.Some? then Delay(recordedAt, chosen.value) else 0)
  }

  datatype Status = NoSchedule | Late | Early | OnTime

  function StatusOf(v: Visit): Status {
    if v.scheduledTime.None? then NoSchedule
    else if v.delayMinutes > 0 then Late
    else if v.delayMinutes < 0 then Early
    else OnTime
  }

  predicate Recorded(visits: seq<Visit>, stopId: string) {
    exists i :: 0 <= i < |visits| && visits[i].stopId == stopId
  }

  // ---- detectStopArrival ----

  /** getLatestArrivedStopForTrip */
  function Latest(visits: seq<Visit>): (r: Option<Visit>)
    ensures r.None? <==> visits == []
    ensures r.Some? ==> r.value in visits && forall i :: 0 <= i < |visits| ==> visits[i].at <= r.value.at
  {
    if visits == [] then None
    else
      var r, last := Latest(visits[..|visits| - 1]), visits[|visits| - 1];
      if r.None? || last.at >= r.value.at then Some(last) else r
  }

  function ExpectedIndex(stops: seq<Stop>, visits: seq<Visit>): nat {
    var latest := Latest(visits);
    if latest.None? then 0 else IndexOf(stops, latest.value.stopId) + 1
  }

  predicate WithinRadius(site: Site, k: nat, p: Packet)
    requires k < |site.stops|
  {
    site.dist(p.at, site.stops[k].at) <= site.radius
  }

  /** The bus has passed stop k along the route, close enough for that to be believed. */
  predicate Passed(site: Site, k: nat, p: Packet)
    requires k < |site.stops|
  {
    var progress := ProgressOn(site.dist, site.plane, Route(site.stops), p.at);
    && k > 0
    && progress.progressMeters >= CumulativeAt(site.dist, Route(site.stops), k) + PASSED_STOP_PROGRESS_BUFFER_METERS
    && site.dist(p.at, site.stops[k].at) <= Max(PASSED_STOP_MAX_DIRECT_DISTANCE_METERS, site.radius * 2.2)
    && progress.crossTrackMeters <= Max(site.radius * 1.7, 130.0)
  }

  function Recording(site: Site, trip: Trip, id: string, at: int): (Trip, Option<Visit>) {
    if Recorded(trip.visits, id) then (trip, None)
    else
      var v := VisitOf(site, id, at);
      (trip.(visits := trip.visits + [v]), Some(v))
  }

  function Clear(trip: Trip, id: string): Trip {
    trip.(candidates := trip.candidates - {id})
  }

  /** detectStopArrival as a function of the trip, given the expected stop. */
  function DetectedAt(site: Site, trip: Trip, p: Packet, k: nat): (Trip, Option<Visit>)
    requires k < |site.stops|
  {
    var id := site.stops[k].stopId;
    if WithinRadius(site, k, p) then
      if id !in trip.candidates then (trip.(candidates := trip.candidates[id := p.recordedAt]), None)
      else if p.recordedAt - trip.candidates[id] < ARRIVAL_DWELL_MS then (trip, None)
      else
        var r := Recording(site, trip, id, trip.candidates[id]);
        if r.1.Some? then (Clear(r.0, id), r.1) else r
    else if Passed(site, k, p) then
      var r := Recording(site, trip, id, p.recordedAt);
      (Clear(r.0, id), r.1)
    else (trip, None)
  }

  function Detected(site: Site, trip: Trip, p: Packet): (Trip, Option<Visit>) {
    var k := ExpectedIndex(site.stops, trip.visits);
    if k >= |site.stops| then (trip, None) else DetectedAt(site, trip, p, k)
  }

  class TripArrivals {
    var visits: seq<Visit>
    var candidates: map<string, int>

    constructor ()
      ensures AsTrip() == Trip([], map[])
    {
      visits, candidates := [], map[];
    }

    function AsTrip(): Trip
      reads this
    {
      Trip(visits, candidates)
    }

    method CreateStopArrival(site: Site, stopId: string, recordedAt: int) returns (created: Option<Visit>)
      modifies this`visits
      ensures (AsTrip(), created) == Recording(site, old(AsTrip()), stopId, recordedAt)
      ensures created.None? <==> exists i :: 0 <= i < |old(visits)| && old(visits)[i].stopId == stopId
      ensures visits == old(visits) + if created.Some? then [created.value] else []
      ensures created.Some? ==> created.value.stopId == stopId && created.value.at == recordedAt
    {
      if Recorded(visits, stopId) { return None; }
      var schedules := site.timetable(stopId, recordedAt);
      var chosen: Option<int> := None;
      var bestMs := 0;
      for i := 0 to |schedules|
        invariant chosen == Chosen(recordedAt, schedules, i)
        invariant chosen.Some? ==> bestMs == Miss(recordedAt, chosen.value)
      {
        var absMs := Abs(recordedAt - ScheduledAt(recordedAt, schedules[i]));
        if chosen.None? || absMs < bestMs {
          bestMs, chosen := absMs, Some(schedules[i]);
        }
      }
      var v := Visit(stopId, recordedAt, chosen, if chosen.Some? then Delay(recordedAt, chosen.value) else 0);
      visits := visits + [v];
      created := Some(v);
    }

    method DetectStopArrival(site: Site, p: Packet) returns (created: Option<Visit>)
      modifies this
      ensures (AsTrip(), created) == Detected(site, old(AsTrip()), p)
    {
      hide ProgressOn, CumulativeAt, IndexOf, VisitOf, Recorded;
      created := None;
      if site.stops == [] { return; }
      var latest := Latest(visits);
      var expected := if latest.Some? then IndexOf(site.stops, latest.value.stopId) + 1 else 0;
      if expected >= |site.stops| { return; }
      var stop, route := site.stops[expected], Route(site.stops);
      var id := stop.stopId;
      var direct := site.dist(p.at, stop.at);
      if direct <= site.radius {
        if id !in candidates {
          candidates := candidates[id := p.recordedAt];
          return;
        }
        if p.recordedAt - candidates[id] < ARRIVAL_DWELL_MS { return; }
        created := CreateStopArrival(site, id, candidates[id]);
        if created.Some? {
          candidates := candidates - {id};
        }
        return;
      }
      var cumulative := BuildCumulativeDistances(site.dist, route);
      var progress := EstimateRouteProgress(site.dist, site.plane, route, cumulative, p.at);
      var hasPassed := expected > 0 &&
        progress.progressMeters >= cumulative[expected] + PASSED_STOP_PROGRESS_BUFFER_METERS;
      var closeEnough :=
        && direct <= Max(PASSED_STOP_MAX_DIRECT_DISTANCE_METERS, site.radius * 2.2)
        && progress.crossTrackMeters <= Max(site.radius * 1.7, 130.0);
      assert hasPassed && closeEnough <==> Passed(site, expected, p);
      if hasPassed && closeEnough {
        created := CreateStopArrival(site, id, p.recordedAt);
        candidates := candidates - {id};
      }
    }
  }

  // ---- Whole runs of one trip ----

  /** A packet, or the expiry of a stop's marker. */
  datatype Event = Observe(p: Packet) | Lapse(stopId: string)

  function Apply(site: Site, trip: Trip, e: Event): Trip {
    if e.Observe? then Detected(site, trip, e.p).0 else Clear(trip, e.stopId)
  }

  function After(site: Site, es: seq<Event>): Trip {
    if es == [] then Trip([], map[]) else Apply(site, After(site, es[..|es| - 1]), es[|es| - 1])
  }

  /** The time of the last packet. */
  function LastSeen(es: seq<Event>): Option<int> {
    if es == [] then None
    else if es[|es| - 1].Observe? then Some(es[|es| - 1].p.recordedAt)
    else LastSeen(es[..|es| - 1])
  }

  predicate Later(t: int, seen: Option<int>) {
    seen.Some? ==> seen.value < t
  }

  /** Packet times strictly increase. */
  predicate Ascending(es: seq<Event>) {
    es == [] ||
    (Ascending(es[..|es| - 1]) &&
      (es[|es| - 1].Observe? ==> Later(es[|es| - 1].p.recordedAt, LastSeen(es[..|es| - 1]))))
  }

  /** The arrivals are those of the first stops, in order and at increasing times. */
  ghost predicate IsPrefix(stops: seq<Stop>, visits: seq<Visit>) {
    && |visits| <= |stops|
    && (forall i :: 0 <= i < |visits| ==> visits[i].stopId == stops[i].stopId)
    && (forall i, j :: 0 <= i < j < |visits| ==> visits[i].at < visits[j].at)
  }

  /** Only the next stop has a marker, set after the last arrival; nothing lies in the future. */
  ghost predicate Inv(stops: seq<Stop>, trip: Trip, seen: Option<int>) {
    && IsPrefix(stops, trip.visits)
    && (forall id :: id in trip.candidates ==>
          |trip.visits| < |stops| && id == stops[|trip.visits|].stopId
          && seen.Some? && trip.candidates[id] <= seen.value
          && forall i :: 0 <= i < |trip.visits| ==> trip.visits[i].at < trip.candidates[id])
    && (forall i :: 0 <= i < |trip.visits| ==> seen.Some? && trip.visits[i].at <= seen.value)
  }

  lemma ExpectedIsNext(stops: seq<Stop>, visits: seq<Visit>)
    requires DistinctStops(stops) && IsPrefix(stops, visits)
    ensures ExpectedIndex(stops, visits) == |visits|
    ensures |visits| < |stops| ==> !Recorded(visits, stops[|visits|].stopId)
  {
    hide IndexOf;
    if visits != [] {
      var last := |visits| - 1;
      assert Latest(visits) == Some(visits[last]);
      IndexOfStop(stops, last);
    }
  }

  lemma InvLater(stops: seq<Stop>, trip: Trip, seen: Option<int>, now: int)
    requires Inv(stops, trip, seen) && Later(now, seen)
    ensures Inv(stops, trip, Some(now))
  {}

  lemma InvMark(stops: seq<Stop>, trip: Trip, seen: Option<int>, now: int)
    requires Inv(stops, trip, seen) && Later(now, seen) && |trip.visits| < |stops|
    ensures Inv(stops, trip.(candidates := trip.candidates[stops[|trip.visits|].stopId := now]), Some(now))
  {}

  /** A visit to the next stop, at the time of its marker or now, and the marker cleared. */
  lemma InvVisit(stops: seq<Stop>, trip: Trip, seen: Option<int>, now: int, v: Visit)
    requires Inv(stops, trip, seen) && Later(now, seen)
    requires |trip.visits| < |stops| && v.stopId == stops[|trip.visits|].stopId
    requires v.at == now || (v.stopId in trip.candidates && v.at == trip.candidates[v.stopId])
    ensures Inv(stops, Clear(trip.(visits := trip.visits + [v]), v.stopId), Some(now))
  {
    assert forall id :: id in trip.candidates ==> id == v.stopId;
    assert (trip.candidates - {v.stopId}) == map[];
  }

  lemma InvStep(site: Site, trip: Trip, seen: Option<int>, p: Packet)
    requires DistinctStops(site.stops) && Inv(site.stops, trip, seen) && Later(p.recordedAt, seen)
    ensures Inv(site.stops, Detected(site, trip, p).0, Some(p.recordedAt))
  {
    var k := |trip.visits|;
    ExpectedIsNext(site.stops, trip.visits);
    InvLater(site.stops, trip, seen, p.recordedAt);
    hide Inv, WithinRadius, Passed, Chosen, Delay, ExpectedIndex, Recorded, DistinctStops;
    if k < |site.stops| {
      var id := site.stops[k].stopId;
      InvMark(site.stops, trip, seen, p.recordedAt);
      InvVisit(site.stops, trip, seen, p.recordedAt, VisitOf(site, id, p.recordedAt));
      if id in trip.candidates {
        InvVisit(site.stops, trip, seen, p.recordedAt, VisitOf(site, id, trip.candidates[id]));
      }
    }
  }

  /** In every run the recorded arrivals are those of the first stops, each once, at strictly increasing times. */
  lemma {:induction false} ArrivalsArePrefix(site: Site, es: seq<Event>)
    requires DistinctStops(site.stops) && Ascending(es)
    ensures Inv(site.stops, After(site, es), LastSeen(es))
    ensures IsPrefix(site.stops, After(site, es).visits)
  {
    if es != [] {
      var p, e := es[..|es| - 1], es[|es| - 1];
      ArrivalsArePrefix(site, p);
      if e.Observe? { InvStep(site, After(site, p), LastSeen(p), e.p); }
    }
  }

  // ---- What an arrival is evidence of ----

  predicate SeenAt(site: Site, es: seq<Event>, i: nat, k: nat)
    requires i < |es| && k < |site.stops|
  {
    es[i].Observe? && WithinRadius(site, k, es[i].p)
  }

  /** Two packets within the radius, at least the dwell time apart, the first at the given time. */
  ghost predicate Dwelt(site: Site, es: seq<Event>, k: nat, at: int)
    requires k < |site.stops|
  {
    exists i: nat, j: nat :: i < j < |es| && SeenAt(site, es, i, k) && SeenAt(site, es, j, k)
      && es[i].p.recordedAt == at && es[j].p.recordedAt >= at + ARRIVAL_DWELL_MS
  }

  ghost predicate PassedBy(site: Site, es: seq<Event>, k: nat, at: int)
    requires k < |site.stops|
  {
    exists i: nat :: i < |es| && es[i].Observe? && es[i].p.recordedAt == at && Passed(site, k, es[i].p)
  }

  ghost predicate FirstSeen(site: Site, es: seq<Event>, k: nat, at: int)
    requires k < |site.stops|
  {
    exists i: nat :: i < |es| && SeenAt(site, es, i, k) && es[i].p.recordedAt == at
  }

  /** Every marker is the time of a packet at its stop, and every arrival is dwelt or passed. */
  ghost predicate Justified(site: Site, es: seq<Event>, trip: Trip) {
    && |trip.visits| <= |site.stops|
    && (forall id :: id in trip.candidates ==>
          |trip.visits| < |site.stops| && FirstSeen(site, es, |trip.visits|, trip.candidates[id]))
    && (forall k :: 0 <= k < |trip.visits| ==>
          Dwelt(site, es, k, trip.visits[k].at) || PassedBy(site, es, k, trip.visits[k].at))
  }

  lemma Extend(site: Site, es: seq<Event>, e: Event, k: nat, at: int)
    requires k < |site.stops|
    ensures Dwelt(site, es, k, at) ==> Dwelt(site, es + [e], k, at)
    ensures PassedBy(site, es, k, at) ==> PassedBy(site, es + [e], k, at)
    ensures FirstSeen(site, es, k, at) ==> FirstSeen(site, es + [e], k, at)
  {
    hide WithinRadius, Passed;
    var fs := es + [e];
    assert forall i :: 0 <= i < |es| ==> fs[i] == es[i];
    if Dwelt(site, es, k, at) {
      var i: nat, j: nat :| i < j < |es| && SeenAt(site, es, i, k) && SeenAt(site, es, j, k)
        && es[i].p.recordedAt == at && es[j].p.recordedAt >= at + ARRIVAL_DWELL_MS;
      assert SeenAt(site, fs, i, k) && SeenAt(site, fs, j, k);
    }
    if FirstSeen(site, es, k, at) {
      var i: nat :| i < |es| && SeenAt(site, es, i, k) && es[i].p.recordedAt == at;
      assert SeenAt(site, fs, i, k);
    }
  }

  lemma {:induction false} ArrivalsAreJustified(site: Site, es: seq<Event>)
    requires DistinctStops(site.stops) && Ascending(es)
    ensures Justified(site, es, After(site, es))
  {
    if es != [] {
      var p, e := es[..|es| - 1], es[|es| - 1];
      assert es == p + [e];
      ArrivalsAreJustified(site, p);
      ArrivalsArePrefix(site, p);
      JustifiedLater(site, p, e, After(site, p));
      if e.Observe? { JustifiedStep(site, p, e, After(site, p)); }
    }
  }

  lemma JustifiedLater(site: Site, es: seq<Event>, e: Event, trip: Trip)
    requires Justified(site, es, trip)
    ensures Justified(site, es + [e], trip)
  {
    hide Dwelt, PassedBy, FirstSeen;
    if |trip.visits| < |site.stops| {
      forall id | id in trip.candidates ensures FirstSeen(site, es + [e], |trip.visits|, trip.candidates[id]) {
        Extend(site, es, e, |trip.visits|, trip.candidates[id]);
      }
    }
    forall k | 0 <= k < |trip.visits|
      ensures Dwelt(site, es + [e], k, trip.visits[k].at) || PassedBy(site, es + [e], k, trip.visits[k].at)
    {
      Extend(site, es, e, k, trip.visits[k].at);
    }
  }

  lemma JustifiedVisit(site: Site, es: seq<Event>, trip: Trip, v: Visit)
    requires Justified(site, es, trip) && Inv(site.stops, trip, LastSeen(es))
    requires |trip.visits| < |site.stops| && v.stopId == site.stops[|trip.visits|].stopId
    requires Dwelt(site, es, |trip.visits|, v.at) || PassedBy(site, es, |trip.visits|, v.at)
    ensures Justified(site, es, Clear(trip.(visits := trip.visits + [v]), v.stopId))
  {
    hide Dwelt, PassedBy, FirstSeen;
    assert trip.candidates - {v.stopId} == map[];
  }

  lemma JustifiedMark(site: Site, es: seq<Event>, trip: Trip, id: string, at: int)
    requires Justified(site, es, trip) && |trip.visits| < |site.stops|
    requires FirstSeen(site, es, |trip.visits|, at)
    ensures Justified(site, es, trip.(candidates := trip.candidates[id := at]))
  {
    hide Dwelt, PassedBy, FirstSeen;
  }

  lemma JustifiedStep(site: Site, es: seq<Event>, e: Event, trip: Trip)
    requires e.Observe? && DistinctStops(site.stops)
    requires Justified(site, es, trip) && Justified(site, es + [e], trip)
    requires Inv(site.stops, trip, LastSeen(es)) && Later(e.p.recordedAt, LastSeen(es))
    ensures Justified(site, es + [e], Detected(site, trip, e.p).0)
  {
    var k, fs, now := |trip.visits|, es + [e], e.p.recordedAt;
    ExpectedIsNext(site.stops, trip.visits);
    assert LastSeen(fs) == Some(now);
    InvLater(site.stops, trip, LastSeen(es), now);
    if k < |site.stops| {
      var id := site.stops[k].stopId;
      var since := if id in trip.candidates then trip.candidates[id] else now;
      assert id in trip.candidates ==> FirstSeen(site, es, k, since);
      PacketIsEvidence(site, es, e, k, since);
      hide Inv, Justified, WithinRadius, Passed, Chosen, Delay, ExpectedIndex, Recorded;
      hide DistinctStops, Dwelt, PassedBy, FirstSeen;
      if WithinRadius(site, k, e.p) {
        if id !in trip.candidates { JustifiedMark(site, fs, trip, id, now); }
        else if now - since >= ARRIVAL_DWELL_MS { JustifiedVisit(site, fs, trip, VisitOf(site, id, since)); }
      } else if Passed(site, k, e.p) {
        JustifiedVisit(site, fs, trip, VisitOf(site, id, now));
      }
    }
  }

  /** What the last packet shows about stop k, given when the bus was first seen there. */
  lemma PacketIsEvidence(site: Site, es: seq<Event>, e: Event, k: nat, at: int)
    requires e.Observe? && k < |site.stops|
    ensures WithinRadius(site, k, e.p) ==> FirstSeen(site, es + [e], k, e.p.recordedAt)
    ensures Passed(site, k, e.p) ==> PassedBy(site, es + [e], k, e.p.recordedAt)
    ensures WithinRadius(site, k, e.p) && FirstSeen(site, es, k, at) && e.p.recordedAt >= at + ARRIVAL_DWELL_MS
      ==> Dwelt(site, es + [e], k, at)
  {
    hide WithinRadius, Passed;
    var fs := es + [e];
    assert fs[|es|] == e;
    assert SeenAt(site, fs, |es|, k) <==> WithinRadius(site, k, e.p);
    if FirstSeen(site, es, k, at) {
      var i: nat :| i < |es| && SeenAt(site, es, i, k) && es[i].p.recordedAt == at;
      assert SeenAt(site, fs, i, k) && fs[i] == es[i];
    }
  }

  // ---- Leaving the radius ----

  /** Packets outside the radius of stop k that do not pass it either, and expiries of markers. */
  ghost predicate Outside(site: Site, k: nat, es: seq<Event>)
    requires k < |site.stops|
  {
    forall i :: 0 <= i < |es| && es[i].Observe? ==> !WithinRadius(site, k, es[i].p) && !Passed(site, k, es[i].p)
  }

  function Then(site: Site, trip: Trip, es: seq<Event>): Trip
    decreases |es|
  {
    if es == [] then trip else Then(site, Apply(site, trip, es[0]), es[1..])
  }

  lemma {:induction false} OutsideLeavesAlone(site: Site, trip: Trip, es: seq<Event>)
    requires ExpectedIndex(site.stops, trip.visits) < |site.stops|
    requires Outside(site, ExpectedIndex(site.stops, trip.visits), es)
    ensures Then(site, trip, es).visits == trip.visits
    ensures forall id :: id in Then(site, trip, es).candidates <==> id in trip.candidates && Lapse(id) !in es
    ensures forall id :: id in Then(site, trip, es).candidates ==>
      Then(site, trip, es).candidates[id] == trip.candidates[id]
    decreases |es|
  {
    hide WithinRadius, Passed, VisitOf, Recorded, ExpectedIndex;
    if es != [] {
      var k, e := ExpectedIndex(site.stops, trip.visits), es[0];
      assert e.Observe? ==> !WithinRadius(site, k, e.p) && !Passed(site, k, e.p);
      var next := Apply(site, trip, e);
      assert next == if e.Observe? then trip else Clear(trip, e.stopId);
      assert Outside(site, k, es[1..]);
      OutsideLeavesAlone(site, next, es[1..]);
      assert es == [e] + es[1..];
    }
  }

  /** Leaving the radius does not end a dwell: whatever packets from outside come in between, the next one inside
      confirms the arrival, at the marker's time, exactly when the marker did not expire and is old enough. */
  lemma LeavingDoesNotEndDwell(site: Site, trip: Trip, es: seq<Event>, back: Packet)
    requires ExpectedIndex(site.stops, trip.visits) < |site.stops|
    requires
      var k := ExpectedIndex(site.stops, trip.visits);
      && Outside(site, k, es) && WithinRadius(site, k, back)
      && site.stops[k].stopId in trip.candidates && !Recorded(trip.visits, site.stops[k].stopId)
    ensures
      var id := site.stops[ExpectedIndex(site.stops, trip.visits)].stopId;
      var since, r := trip.candidates[id], Detected(site, Then(site, trip, es), back).1;
      && (r == Some(VisitOf(site, id, since)) <==> Lapse(id) !in es && back.recordedAt >= since + ARRIVAL_DWELL_MS)
      && (r.Some? ==> r == Some(VisitOf(site, id, since)))
  {
    OutsideLeavesAlone(site, trip, es);
    hide WithinRadius, Passed, VisitOf, Recorded, ExpectedIndex, Outside;
  }

  /** So a bus that clips the first stop's radius twice, and was outside in between, has arrived there. */
  lemma ClippingTwiceIsArriving(site: Site, near: LatLng, far: LatLng, t: int)
    requires site.stops != []
    requires site.dist(near, site.stops[0].at) <= site.radius < site.dist(far, site.stops[0].at)
    ensures
      var es := [Observe(Packet(near, t)), Observe(Packet(far, t + 4000)), Observe(Packet(near, t + 8000))];
      && Ascending(es)
      && After(site, es).visits == [VisitOf(site, site.stops[0].stopId, t)]
  {
    hide VisitOf;
    var a, b, c := Observe(Packet(near, t)), Observe(Packet(far, t + 4000)), Observe(Packet(near, t + 8000));
    var es := [a, b, c];
    assert es[..2] == [a, b] && [a, b][..1] == [a] && [a][..0] == [];
    assert Ascending([a]) && Ascending([a, b]);
    var marked := Trip([], map[site.stops[0].stopId := t]);
    assert After(site, [a]) == marked;
    assert After(site, [a, b]) == marked;
  }

  /** The time of the last packet outside the radius of stop k. */
  function LastOutside(site: Site, k: nat, es: seq<Event>): Option<int>
    requires k < |site.stops|
  {
    if es == [] then None
    else
      var e := es[|es| - 1];
      if e.Observe? && !WithinRadius(site, k, e.p) then Some(e.p.recordedAt)
      else LastOutside(site, k, es[..|es| - 1])
  }

  /** From the given time on every packet was within the radius of stop k. */
  ghost predicate StayedSince(site: Site, k: nat, es: seq<Event>, t: int)
    requires k < |site.stops|
  {
    forall i :: 0 <= i < |es| && es[i].Observe? && es[i].p.recordedAt >= t ==> WithinRadius(site, k, es[i].p)
  }

  lemma {:induction false} TimesAscend(es: seq<Event>, i: nat)
    requires Ascending(es) && i < |es| && es[i].Observe?
    ensures LastSeen(es).Some? && es[i].p.recordedAt <= LastSeen(es).value
  {
    var rest := es[..|es| - 1];
    if i < |rest| {
      assert rest[i] == es[i];
      TimesAscend(rest, i);
    }
  }

  lemma {:induction false} StayedExactlyWhenNotOutside(site: Site, k: nat, es: seq<Event>, t: int)
    requires k < |site.stops| && Ascending(es)
    ensures StayedSince(site, k, es, t) <==> Later(t, LastOutside(site, k, es))
  {
    hide WithinRadius;
    if es != [] {
      var rest, e := es[..|es| - 1], es[|es| - 1];
      StayedExactlyWhenNotOutside(site, k, rest, t);
      assert forall i :: 0 <= i < |rest| ==> rest[i] == es[i];
      if e.Observe? && !WithinRadius(site, k, e.p) {
        forall i | 0 <= i < |es| && es[i].Observe? ensures es[i].p.recordedAt <= e.p.recordedAt { TimesAscend(es, i); }
      }
    }
  }

  /** What is promised, that the bus stayed within the radius from the recorded arrival on, holds of a confirmed dwell
      exactly when the last packet from outside is older than that arrival. */
  lemma DwellIsUnbrokenExactly(site: Site, es: seq<Event>, back: Packet)
    requires DistinctStops(site.stops) && Ascending(es + [Observe(back)])
    requires ExpectedIndex(site.stops, After(site, es).visits) < |site.stops|
    requires WithinRadius(site, ExpectedIndex(site.stops, After(site, es).visits), back)
    requires Detected(site, After(site, es), back).1.Some?
    ensures
      var k := ExpectedIndex(site.stops, After(site, es).visits);
      var arrival := Detected(site, After(site, es), back).1.value;
      && FirstSeen(site, es, k, arrival.at) && back.recordedAt >= arrival.at + ARRIVAL_DWELL_MS
      && (StayedSince(site, k, es + [Observe(back)], arrival.at) <==> Later(arrival.at, LastOutside(site, k, es)))
  {
    var fs, trip := es + [Observe(back)], After(site, es);
    assert fs[..|es|] == es;
    ArrivalsAreJustified(site, es);
    ArrivalsArePrefix(site, es);
    ExpectedIsNext(site.stops, trip.visits);
    var k, arrival := ExpectedIndex(site.stops, trip.visits), Detected(site, trip, back).1.value;
    StayedExactlyWhenNotOutside(site, k, fs, arrival.at);
    hide Justified, FirstSeen, Dwelt, PassedBy, Passed, Chosen, Delay, Recorded, DistinctStops, StayedSince;
    assert FirstSeen(site, es, k, arrival.at) by { MarkerWasSeen(site, es, trip); }
  }

  lemma MarkerWasSeen(site: Site, es: seq<Event>, trip: Trip)
    requires Justified(site, es, trip)
    ensures forall id :: id in trip.candidates ==>
      |trip.visits| < |site.stops| && FirstSeen(site, es, |trip.visits|, trip.candidates[id])
  {}

  // ---- Which scheduled time an arrival is measured against ----

  /** The scheduled instant lies on the Dhaka day of the arrival. */
  lemma ScheduledOnTheSameDay(recordedAt: int, scheduledTime: int)
    requires !TwoDigitYear(DhakaDay(recordedAt))
    ensures ScheduledAt(recordedAt, scheduledTime) == DayInstant(DhakaDay(recordedAt), scheduledTime)
    ensures DhakaDay(ScheduledAt(recordedAt, scheduledTime)) == DhakaDay(recordedAt)
    ensures Miss(recordedAt, scheduledTime) < MS_PER_DAY
  {
    hide CivilDate, ClockSeconds;
    UtcDayOfDate(DhakaDay(recordedAt));
    DayInstantIs(DhakaDay(recordedAt), scheduledTime);
  }

  lemma {:induction false} ChosenIsClosest(recordedAt: int, schedules: seq<int>, n: nat)
    requires n <= |schedules|
    ensures Chosen(recordedAt, schedules, n).Some? <==> n > 0
    ensures n > 0 ==>
      var c := Chosen(recordedAt, schedules, n).value;
      && c in schedules[..n]
      && forall i :: 0 <= i < n ==> Miss(recordedAt, c) <= Miss(recordedAt, schedules[i])
  {
    hide Miss;
    if n > 0 { ChosenIsClosest(recordedAt, schedules, n - 1); }
  }

  /** How far an arrival is from a stop's scheduled time on the k-th day after its own. */
  function MissOnDay(recordedAt: int, scheduledTime: int, k: int): int {
    Abs(recordedAt - DayInstant(DhakaDay(recordedAt) + k, scheduledTime))
  }

  lemma MissOnOtherDays(recordedAt: int, scheduledTime: int, k: int)
    requires !TwoDigitYear(DhakaDay(recordedAt))
    ensures MissOnDay(recordedAt, scheduledTime, 0) == Miss(recordedAt, scheduledTime)
    ensures k != 0 ==> MissOnDay(recordedAt, scheduledTime, k) >= MS_PER_DAY - Miss(recordedAt, scheduledTime)
    ensures Miss(recordedAt, scheduledTime) > 0 ==>
      exists n :: MissOnDay(recordedAt, scheduledTime, n) == MS_PER_DAY - Miss(recordedAt, scheduledTime)
  {
    hide CivilDate, ClockSeconds, DhakaDay, ScheduledAt;
    ScheduledOnTheSameDay(recordedAt, scheduledTime);
    var n := if recordedAt > ScheduledAt(recordedAt, scheduledTime) then 1 else -1;
    assert Miss(recordedAt, scheduledTime) > 0 ==>
      MissOnDay(recordedAt, scheduledTime, n) == MS_PER_DAY - Miss(recordedAt, scheduledTime);
  }

  /** Some schedule's miss adds up with no other's to more than a day. */
  ghost predicate HasNearSchedule(recordedAt: int, schedules: seq<int>) {
    exists j :: 0 <= j < |schedules| && AddsUpToADay(recordedAt, schedules, j)
  }

  ghost predicate AddsUpToADay(recordedAt: int, schedules: seq<int>, j: int)
    requires 0 <= j < |schedules|
  {
    forall i :: 0 <= i < |schedules| ==> Miss(recordedAt, schedules[j]) + Miss(recordedAt, schedules[i]) <= MS_PER_DAY
  }

  /** The chosen schedule is the closest departure of all days exactly when the timetable has a schedule whose miss adds
      up with each one's to a day at most. */
  lemma ClosestOfAllDaysExactly(recordedAt: int, schedules: seq<int>)
    requires schedules != [] && !TwoDigitYear(DhakaDay(recordedAt))
    ensures Chosen(recordedAt, schedules, |schedules|).Some?
    ensures
      var best := Miss(recordedAt, Chosen(recordedAt, schedules, |schedules|).value);
      (forall i, k :: 0 <= i < |schedules| ==> best <= MissOnDay(recordedAt, schedules[i], k))
      <==> HasNearSchedule(recordedAt, schedules)
  {
    hide Miss, MissOnDay, Chosen, TwoDigitYear;
    ChosenIsClosest(recordedAt, schedules, |schedules|);
    var chosen := Chosen(recordedAt, schedules, |schedules|).value;
    var best := Miss(recordedAt, chosen);
    var c :| 0 <= c < |schedules| && schedules[c] == chosen;
    if HasNearSchedule(recordedAt, schedules) {
      var j :| 0 <= j < |schedules| && AddsUpToADay(recordedAt, schedules, j);
      forall i, k | 0 <= i < |schedules| ensures best <= MissOnDay(recordedAt, schedules[i], k) {
        MissOnOtherDays(recordedAt, schedules[i], k);
        assert best <= Miss(recordedAt, schedules[j]) && best <= Miss(recordedAt, schedules[i]);
      }
    } else {
      assert !AddsUpToADay(recordedAt, schedules, c);
      var i :| 0 <= i < |schedules| && best + Miss(recordedAt, schedules[i]) > MS_PER_DAY;
      MissOnOtherDays(recordedAt, schedules[i], 0);
      MissIsWithinADay(recordedAt, chosen);
      assert exists k :: best > MissOnDay(recordedAt, schedules[i], k);
    }
  }

  lemma MissIsWithinADay(recordedAt: int, scheduledTime: int)
    requires !TwoDigitYear(DhakaDay(recordedAt))
    ensures 0 <= Miss(recordedAt, scheduledTime) < MS_PER_DAY
  {
    ScheduledOnTheSameDay(recordedAt, scheduledTime);
  }

  /** Across midnight it may not be: two minutes late for 23:59 is reported as 1438 minutes early. */
  lemma LateAcrossMidnightIsEarly(site: Site, stopId: string, day: int)
    requires day >= DayFromYear(1900)
    requires
      var recordedAt := day * MS_PER_DAY + 60_000 - DHAKA_OFFSET_MS;
      site.timetable(stopId, recordedAt) == [86_340_000]
    ensures
      var v := VisitOf(site, stopId, day * MS_PER_DAY + 60_000 - DHAKA_OFFSET_MS);
      v.delayMinutes == -1438 && StatusOf(v) == Early
      && MissOnDay(v.at, 86_340_000, -1) == 120_000
  {
    hide CivilDate, DayFromYear, ScheduledAt, DayInstant, DhakaDay;
    var recordedAt := day * MS_PER_DAY + 60_000 - DHAKA_OFFSET_MS;
    CenturiesApart();
    YearIsLate(day);
    ScheduledNear(day, 60_000, 86_340_000);
    OnlySchedule(recordedAt, 86_340_000);
    assert MathRound(-1438.0) == -1438;
  }

  lemma OnlySchedule(recordedAt: int, scheduledTime: int)
    ensures Chosen(recordedAt, [scheduledTime], 1) == Some(scheduledTime)
  {}

  lemma ScheduledNear(day: int, timeOfDay: nat, scheduledTime: int)
    requires timeOfDay < MS_PER_DAY && 0 <= scheduledTime < MS_PER_DAY && scheduledTime % 1000 == 0
    ensures
      var recordedAt := day * MS_PER_DAY + timeOfDay - DHAKA_OFFSET_MS;
      && DhakaDay(recordedAt) == day
      && (!TwoDigitYear(day) ==> recordedAt - ScheduledAt(recordedAt, scheduledTime) == timeOfDay - scheduledTime)
      && forall d :: DayInstant(d, scheduledTime) == d * MS_PER_DAY + scheduledTime - DHAKA_OFFSET_MS
  {
    hide TwoDigitYear, ScheduledAt, DhakaDay, DhakaTimeOfDay, Miss, ClockSeconds;
    DhakaInstant(day, timeOfDay);
    if !TwoDigitYear(day) { ScheduledOnTheSameDay(day * MS_PER_DAY + timeOfDay - DHAKA_OFFSET_MS, scheduledTime); }
    WholeSeconds(scheduledTime);
  }

  lemma WholeSeconds(t: int)
    requires 0 <= t < MS_PER_DAY && t % 1000 == 0
    ensures ClockSeconds(t) * 1000 == t
  {
    ClockSecondsInDay(t);
  }
}
