/** When a trip must end at its final stop: the counterpart of what an automatic end is evidence of
    (src/services/tripLifecycle.service.ts). */
module FinalStop {
  import opened Wrappers
  import opened TripLifecycle

  /** Automatic ends apply to the trip and the packet. */
  predicate IsEligible(cfg: Settings, trip: Trip, p: Packet) {
    && cfg.enabled && (cfg.requireHealthySource ==> p.sourceHealthy)
    && trip.status == Running && !trip.autoEndDisabled && p.finalStopDistance.Some?
  }

  /** The bus is known or estimated to have reached the final stop. */
  predicate HasArrived(p: Packet) { p.arrivedAtFinalStop || p.etaFinalStopReached }

  /** The bus is near the final stop, by the distance in whole metres, and stands or crawls; no speed counts as zero. */
  predicate Stands(cfg: Settings, p: Packet) {
    && p.finalStopDistance.Some? && (p.finalStopDistance.value + 0.5).Floor as real <= cfg.proximityMeters
    && (p.isStationary || (if p.speedKmh.Some? then p.speedKmh.value else 0.0) <= cfg.stationarySpeedKmh)
  }

  /** The configured seconds have passed. */
  predicate LongEnough(cfg: Settings, since: int, now: int) {
    cfg.stationarySeconds == 0 || now - since >= 1000 * cfg.stationarySeconds
  }

  lemma DwellIs(cfg: Settings, since: int, p: Packet)
    ensures DwellSatisfied(cfg, since, p) <==> LongEnough(cfg, since, p.recordedAt)
  {
    var ms := p.recordedAt - since;
    assert ms >= 1000 * cfg.stationarySeconds <==> ms as real >= 1000.0 * (cfg.stationarySeconds as real);
  }

  lemma StandsIs(cfg: Settings, p: Packet)
    ensures Stands(cfg, p) <==> NearFinalStop(cfg, p) && StationaryEnough(cfg, p)
  {}

  /** An evaluation ends the trip, at the packet's time, exactly when the trip is eligible and the bus has arrived, or
      has
      been standing at the final stop for long enough; otherwise it starts, keeps or drops the marker. */
  lemma EndsExactly(cfg: Settings, trip: Trip, p: Packet)
    ensures
      var (after, reason) := Evaluated(cfg, trip, p);
      var eligible, waiting := IsEligible(cfg, trip, p), trip.candidate.Some?;
      && (reason == AutoFinalStopArrival <==> eligible && HasArrived(p))
      && (reason == AutoFinalStopStationary <==>
            && eligible && !HasArrived(p) && Stands(cfg, p)
            && waiting && LongEnough(cfg, trip.candidate.value, p.recordedAt))
      && (reason in {AutoFinalStopArrival, AutoFinalStopStationary} ==>
            after == trip.(status := Ended, endTime := Some(p.recordedAt), candidate := None))
      && (reason !in {AutoFinalStopArrival, AutoFinalStopStationary} ==> after == trip.(candidate := after.candidate))
      && (eligible && !HasArrived(p) && !Stands(cfg, p) ==> after.candidate.None?)
      && (eligible && !HasArrived(p) && Stands(cfg, p) && !waiting ==> after.candidate == Some(p.recordedAt))
      && (eligible && reason == PendingFinalStopStationary && waiting ==> after == trip)
      && (cfg.enabled && (cfg.requireHealthySource ==> p.sourceHealthy) && trip.status != Running ==>
            after.candidate.None?)
      && (cfg.enabled && (cfg.requireHealthySource ==> p.sourceHealthy) && trip.autoEndDisabled ==>
            after.candidate.None?)
      && (!cfg.enabled || (cfg.requireHealthySource && !p.sourceHealthy) ==> after == trip)
  {
    StandsIs(cfg, p);
    if trip.candidate.Some? { DwellIs(cfg, trip.candidate.value, p); }
    hide NearFinalStop, StationaryEnough, DwellSatisfied, Stands, LongEnough;
  }

  /** The trip has ended, or runs with automatic ends on, and the bus has stood since t or earlier. */
  predicate StandsSince(trip: Trip, t: int) {
    || trip.status == Ended
    || (trip.status == Running && !trip.autoEndDisabled && trip.candidate.Some? && trip.candidate.value <= t)
  }

  /** The event takes nothing away from a standing bus: no expiry, no switching off, and no packet that shows it away.
      */
  predicate KeepsStanding(cfg: Settings, e: Event) {
    match e
    case Evaluate(p) => p.finalStopDistance.None? || HasArrived(p) || Stands(cfg, p)
    case Lapse => false
    case SetAutoEnd(disabled) => !disabled
    case _ => true
  }

  lemma StandsSinceStays(cfg: Settings, trip: Trip, e: Event, t: int)
    requires StandsSince(trip, t) && KeepsStanding(cfg, e)
    ensures StandsSince(Apply(cfg, trip, e), t)
  {
    if e.Evaluate? {
      EndsExactly(cfg, trip, e.p);
      hide Stands, HasArrived, LongEnough, NearFinalStop, StationaryEnough, DwellSatisfied;
    }
  }

  lemma {:induction false} StandsSinceRemains(cfg: Settings, trip: Trip, es: seq<Event>, fs: seq<Event>, t: int)
    requires StandsSince(After(cfg, trip, es), t) && forall i :: 0 <= i < |fs| ==> KeepsStanding(cfg, fs[i])
    ensures StandsSince(After(cfg, trip, es + fs), t)
    decreases |fs|
  {
    hide KeepsStanding, StandsSince, Apply;
    if fs == [] {
      assert es + fs == es;
    } else {
      var rest, f := fs[..|fs| - 1], fs[|fs| - 1];
      assert es + fs == (es + rest) + [f];
      assert (es + fs)[..|es + fs| - 1] == es + rest;
      StandsSinceRemains(cfg, trip, es, rest, t);
      StandsSinceStays(cfg, After(cfg, trip, es + rest), f, t);
    }
  }

  /** A bus seen standing at the final stop, and again after the configured seconds with nothing to the contrary in
      between, has had its trip ended by then. */
  lemma StandingEndsTrip(cfg: Settings, trip: Trip, es: seq<Event>, p: Packet, fs: seq<Event>, q: Packet)
    requires trip.candidate.None? && AllBefore(es, p.recordedAt)
    requires IsEligible(cfg, After(cfg, trip, es), p) && Stands(cfg, p)
    requires forall i :: 0 <= i < |fs| ==> KeepsStanding(cfg, fs[i])
    requires cfg.requireHealthySource ==> q.sourceHealthy
    requires Stands(cfg, q) && LongEnough(cfg, p.recordedAt, q.recordedAt)
    ensures After(cfg, trip, es + [Evaluate(p)] + fs + [Evaluate(q)]).status == Ended
  {
    hide Evaluated, KeepsStanding, AllBefore, Stands, LongEnough, StandsSince, After;
    FirstStands(cfg, trip, es, p);
    StandsSinceRemains(cfg, trip, es + [Evaluate(p)], fs, p.recordedAt);
    LastEnds(cfg, trip, es + [Evaluate(p)] + fs, p.recordedAt, q);
  }

  lemma FirstStands(cfg: Settings, trip: Trip, es: seq<Event>, p: Packet)
    requires trip.candidate.None? && AllBefore(es, p.recordedAt)
    requires IsEligible(cfg, After(cfg, trip, es), p) && Stands(cfg, p)
    ensures StandsSince(After(cfg, trip, es + [Evaluate(p)]), p.recordedAt)
  {
    assert (es + [Evaluate(p)])[..|es|] == es;
    CandidateIsPast(cfg, trip, es, p.recordedAt);
    EndsExactly(cfg, After(cfg, trip, es), p);
    hide Evaluated, AllBefore, Stands, HasArrived;
  }

  lemma LastEnds(cfg: Settings, trip: Trip, es: seq<Event>, t: int, q: Packet)
    requires StandsSince(After(cfg, trip, es), t) && LongEnough(cfg, t, q.recordedAt)
    requires cfg.enabled && (cfg.requireHealthySource ==> q.sourceHealthy) && Stands(cfg, q)
    ensures After(cfg, trip, es + [Evaluate(q)]).status == Ended
  {
    assert (es + [Evaluate(q)])[..|es|] == es;
    EndsExactly(cfg, After(cfg, trip, es), q);
    hide Evaluated, HasArrived;
  }

  /** A bus that arrives at the final stop of an eligible trip ends it at once, whatever happened before. */
  lemma ArrivingEndsTrip(cfg: Settings, trip: Trip, es: seq<Event>, p: Packet)
    requires IsEligible(cfg, After(cfg, trip, es), p) && HasArrived(p)
    ensures
      var after := After(cfg, trip, es + [Evaluate(p)]);
      after.status == Ended && after.endTime == Some(p.recordedAt)
  {
    assert (es + [Evaluate(p)])[..|es|] == es;
    EndsExactly(cfg, After(cfg, trip, es), p);
    hide Evaluated;
  }
}
