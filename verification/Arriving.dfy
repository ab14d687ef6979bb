/** When arrivals do happen: the counterpart of what they are evidence of (src/services/arrival.service.ts). */
module Arriving {
  import opened Wrappers
  import opened Rounding
  import opened Calendar
  import opened NextDeparture
  import opened RouteProgress
  import opened RouteStops
  import opened Arrival

  /** The bus is at most the radius away from stop k. */
  predicate IsNear(site: Site, k: nat, p: Packet)
    requires k < |site.stops|
  {
    site.dist(p.at, site.stops[k].at) <= site.radius
  }

  /** The bus is outside the radius of stop k, which is not the first one, at least 35 metres beyond it along the route,
      and still close to stop and route. */
  predicate DrivesBy(site: Site, k: nat, p: Packet)
    requires k < |site.stops|
  {
    var d, progress := site.dist(p.at, site.stops[k].at), ProgressOn(site.dist, site.plane, Route(site.stops), p.at);
    && k > 0 && d > site.radius
    && progress.progressMeters - CumulativeAt(site.dist, Route(site.stops), k) >= 35.0
    && (d <= 220.0 || d <= site.radius * 2.2)
    && (progress.crossTrackMeters <= 130.0 || progress.crossTrackMeters <= site.radius * 1.7)
  }

  /** The bus is near stop k and was first seen there at least eight seconds ago. */
  predicate HasDwelt(site: Site, trip: Trip, k: nat, p: Packet)
    requires k < |site.stops|
  {
    var id := site.stops[k].stopId;
    IsNear(site, k, p) && id in trip.candidates && p.recordedAt >= trip.candidates[id] + 8000
  }

  /** What a packet does while stop k is the next one, of which nothing is recorded yet. */
  lemma StepExactly(site: Site, trip: Trip, p: Packet, k: nat)
    requires k < |site.stops| && ExpectedIndex(site.stops, trip.visits) == k
    requires !Recorded(trip.visits, site.stops[k].stopId)
    ensures
      var id, after := site.stops[k].stopId, Detected(site, trip, p).0;
      && (HasDwelt(site, trip, k, p) ==>
            after.visits == trip.visits + [VisitOf(site, id, trip.candidates[id])] && id !in after.candidates)
      && (DrivesBy(site, k, p) ==>
            after.visits == trip.visits + [VisitOf(site, id, p.recordedAt)] && id !in after.candidates)
      && (!HasDwelt(site, trip, k, p) && !DrivesBy(site, k, p) ==> after.visits == trip.visits)
      && (IsNear(site, k, p) && !HasDwelt(site, trip, k, p) ==>
            id in after.candidates
            && after.candidates[id] == if id in trip.candidates then trip.candidates[id] else p.recordedAt)
      && (!IsNear(site, k, p) && !DrivesBy(site, k, p) ==> after == trip)
      && forall other :: other != id ==> (other in after.candidates <==> other in trip.candidates)
  {
    hide ProgressOn, CumulativeAt, ExpectedIndex, Recorded, VisitOf;
  }

  /** In every run a packet adds an arrival exactly when the bus has dwelt at the next stop or drives by it; the
      arrival is
      that stop's, at the time the bus was first seen there or now. */
  lemma ArrivesExactly(site: Site, es: seq<Event>, p: Packet)
    requires DistinctStops(site.stops) && Ascending(es + [Observe(p)])
    ensures
      var before, after := After(site, es), After(site, es + [Observe(p)]);
      var k := |before.visits|;
      && k <= |site.stops|
      && (k == |site.stops| ==> after.visits == before.visits)
      && (k < |site.stops| ==>
            && (|after.visits| == k + 1 <==> HasDwelt(site, before, k, p) || DrivesBy(site, k, p))
            && (|after.visits| == k + 1 ==>
                  && after.visits[..k] == before.visits && after.visits[k].stopId == site.stops[k].stopId
                  && after.visits[k].at ==
                       if DrivesBy(site, k, p) then p.recordedAt else before.candidates[site.stops[k].stopId])
            && (|after.visits| != k + 1 ==> after.visits == before.visits))
  {
    var fs, before := es + [Observe(p)], After(site, es);
    assert fs[..|es|] == es;
    ArrivalsArePrefix(site, es);
    ExpectedIsNext(site.stops, before.visits);
    var k := |before.visits|;
    hide Ascending, Inv, IsPrefix, DistinctStops, ProgressOn, CumulativeAt, ExpectedIndex, Recorded;
    if k < |site.stops| {
      StepExactly(site, before, p, k);
      hide HasDwelt, DrivesBy, IsNear, Detected;
    }
  }

  /** A bus that drives by its next stop without dwelling arrives there with that packet. */
  lemma PassingIsRecorded(site: Site, es: seq<Event>, p: Packet)
    requires DistinctStops(site.stops) && Ascending(es + [Observe(p)])
    requires |After(site, es).visits| < |site.stops| && DrivesBy(site, |After(site, es).visits|, p)
    ensures
      var k, visits := |After(site, es).visits|, After(site, es + [Observe(p)]).visits;
      |visits| == k + 1 && visits[k].stopId == site.stops[k].stopId && visits[k].at == p.recordedAt
  {
    hide *;
    ArrivesExactly(site, es, p);
  }

  // ---- Dwelling suffices ----

  /** Stop k is recorded, or it is next and the bus was first seen there no later than t. */
  ghost predicate SeenBy(site: Site, trip: Trip, k: nat, t: int)
    requires k < |site.stops|
  {
    var id := site.stops[k].stopId;
    |trip.visits| > k || (|trip.visits| == k && id in trip.candidates && trip.candidates[id] <= t)
  }

  lemma SeenByStays(site: Site, es: seq<Event>, e: Event, k: nat, t: int)
    requires DistinctStops(site.stops) && Ascending(es + [e]) && k < |site.stops|
    requires SeenBy(site, After(site, es), k, t) && e != Lapse(site.stops[k].stopId)
    ensures SeenBy(site, After(site, es + [e]), k, t)
  {
    var before := After(site, es);
    assert (es + [e])[..|es|] == es;
    ArrivalsArePrefix(site, es);
    ExpectedIsNext(site.stops, before.visits);
    if e.Observe? {
      ArrivesExactly(site, es, e.p);
      hide Ascending, Inv, IsPrefix, DistinctStops, HasDwelt, DrivesBy, IsNear, ExpectedIndex, Recorded, Detected;
      if |before.visits| == k { StepExactly(site, before, e.p, k); }
    }
  }

  lemma {:induction false} SeenByRemains(site: Site, es: seq<Event>, fs: seq<Event>, k: nat, t: int)
    requires DistinctStops(site.stops) && Ascending(es + fs) && k < |site.stops|
    requires SeenBy(site, After(site, es), k, t) && Lapse(site.stops[k].stopId) !in fs
    ensures SeenBy(site, After(site, es + fs), k, t)
    decreases |fs|
  {
    hide DistinctStops, SeenBy;
    if fs == [] {
      assert es + fs == es;
    } else {
      var rest, f := fs[..|fs| - 1], fs[|fs| - 1];
      assert es + fs == (es + rest) + [f];
      assert (es + fs)[..|es + fs| - 1] == es + rest;
      SeenByRemains(site, es, rest, k, t);
      hide After;
      SeenByStays(site, es + rest, f, k, t);
    }
  }

  lemma {:induction false} AscendingPrefix(es: seq<Event>, n: nat)
    requires Ascending(es) && n <= |es|
    ensures Ascending(es[..n])
    decreases |es|
  {
    if n < |es| {
      AscendingPrefix(es[..|es| - 1], n);
      assert es[..|es| - 1][..n] == es[..n];
    } else {
      assert es[..n] == es;
    }
  }

  /** Near its next stop now and again at least eight seconds later, wherever it was in between, a bus has arrived there
      by then, unless its marker expired. */
  lemma DwellingIsRecorded(site: Site, es: seq<Event>, p: Packet, fs: seq<Event>, q: Packet)
    requires DistinctStops(site.stops) && Ascending(es + [Observe(p)] + fs + [Observe(q)])
    requires
      var k := |After(site, es).visits|;
      && k < |site.stops| && IsNear(site, k, p) && IsNear(site, k, q)
      && Lapse(site.stops[k].stopId) !in fs && q.recordedAt >= p.recordedAt + 8000
    ensures |After(site, es + [Observe(p)] + fs + [Observe(q)]).visits| > |After(site, es).visits|
  {
    var gs, hs, k := es + [Observe(p)], es + [Observe(p)] + fs, |After(site, es).visits|;
    var all := hs + [Observe(q)];
    AscendingPrefix(all, |es|);
    AscendingPrefix(all, |gs|);
    AscendingPrefix(all, |hs|);
    assert all[..|es|] == es && all[..|gs|] == gs && all[..|hs|] == hs;
    hide Ascending, DistinctStops;
    FirstNear(site, es, p);
    SeenByRemains(site, gs, fs, k, p.recordedAt);
    SecondNear(site, hs, q, k, p.recordedAt);
  }

  lemma FirstNear(site: Site, es: seq<Event>, p: Packet)
    requires DistinctStops(site.stops) && Ascending(es) && Ascending(es + [Observe(p)])
    requires |After(site, es).visits| < |site.stops| && IsNear(site, |After(site, es).visits|, p)
    ensures SeenBy(site, After(site, es + [Observe(p)]), |After(site, es).visits|, p.recordedAt)
  {
    var before, k := After(site, es), |After(site, es).visits|;
    assert (es + [Observe(p)])[..|es|] == es;
    ArrivalsArePrefix(site, es);
    ExpectedIsNext(site.stops, before.visits);
    assert forall id :: id in before.candidates ==> before.candidates[id] < p.recordedAt;
    ArrivesExactly(site, es, p);
    hide Ascending, Inv, IsPrefix, DistinctStops, DrivesBy, HasDwelt, IsNear, ExpectedIndex, Recorded, Detected;
    StepExactly(site, before, p, k);
  }

  lemma SecondNear(site: Site, es: seq<Event>, q: Packet, k: nat, t: int)
    requires DistinctStops(site.stops) && Ascending(es + [Observe(q)]) && k < |site.stops|
    requires SeenBy(site, After(site, es), k, t) && IsNear(site, k, q) && q.recordedAt >= t + 8000
    ensures |After(site, es + [Observe(q)]).visits| > k
  {
    ArrivesExactly(site, es, q);
    hide Ascending, DistinctStops, IsNear, DrivesBy, After;
  }

  // ---- What an arrival row says ----

  /** A row names a scheduled time of the timetable, the delay is the difference to it in minutes, rounded, and the
      status
      its sign; without a timetable there is neither. */
  lemma VisitTells(site: Site, stopId: string, at: int)
    requires !TwoDigitYear(DhakaDay(at))
    ensures
      var v, times := VisitOf(site, stopId, at), site.timetable(stopId, at);
      && v.stopId == stopId && v.at == at
      && (times == [] ==> v.scheduledTime.None? && v.delayMinutes == 0 && StatusOf(v) == NoSchedule)
      && (times != [] ==>
            && v.scheduledTime.Some? && v.scheduledTime.value in times
            && -30_000 <= at - DayInstant(DhakaDay(at), v.scheduledTime.value) - 60_000 * v.delayMinutes < 30_000
            && (StatusOf(v) == Late <==> v.delayMinutes > 0)
            && (StatusOf(v) == Early <==> v.delayMinutes < 0)
            && (StatusOf(v) == OnTime <==> v.delayMinutes == 0))
  {
    var times := site.timetable(stopId, at);
    ChosenIsClosest(at, times, |times|);
    assert times[..|times|] == times;
    hide Chosen, TwoDigitYear, DhakaDay, DayInstant, ScheduledAt, Delay;
    if times != [] {
      var c := Chosen(at, times, |times|).value;
      ScheduledOnTheSameDay(at, c);
      DelayIsRounded(at, c);
    }
  }

  lemma DelayIsRounded(at: int, scheduledTime: int)
    ensures -30_000 <= at - ScheduledAt(at, scheduledTime) - 60_000 * Delay(at, scheduledTime) < 30_000
  {
    hide ScheduledAt;
    var diff := at - ScheduledAt(at, scheduledTime);
    var x := diff as real / 60000.0;
    assert x - 0.5 < MathRound(x) as real <= x + 0.5;
    assert x * 60000.0 == diff as real;
    assert diff as real - 30000.0 < (60_000 * MathRound(x)) as real <= diff as real + 30000.0;
  }
}
