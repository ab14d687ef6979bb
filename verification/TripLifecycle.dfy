/** Ending trips: finalizing, and the automatic end at the final stop (src/services/tripLifecycle.service.ts). */
module TripLifecycle {
  import opened Wrappers
  import opened Rounding

  datatype Status = Planned | PreTrip | Running | Ended

  /** The TELEMATICS_AUTO_END_* settings. */
  datatype Settings = Settings(
    enabled: bool,
    requireHealthySource: bool,
    proximityMeters: real,
    stationarySpeedKmh: real,
    stationarySeconds: nat)

  /** The trip row and the Redis marker of a stationary bus near the final stop. */
  datatype Trip = Trip(status: Status, endTime: Option<int>, autoEndDisabled: bool, candidate: Option<int>)

  /** One location packet with what the surrounding queries answered. */
  datatype Packet = Packet(
    sourceHealthy: bool,
    recordedAt: int,
    speedKmh: Option<real>,
    isStationary: bool,
    finalStopDistance: Option<real>,
    arrivedAtFinalStop: bool,
    etaFinalStopReached: bool)

  datatype Reason =
    | Disabled
    | SourceNotEligible
    | TripNotRunning
    | AutoEndDisabled
    | NoRouteStops
    | AutoFinalStopArrival
    | AutoFinalStopStationary
    | PendingFinalStopStationary
    | NoAutoEndCondition

  /** finalizeTripService: an ended trip keeps its end time. */
  function Finalized(trip: Trip, endedAt: int): Trip {
    if trip.status == Ended then trip.(candidate := None)
    else trip.(status := Ended, endTime := Some(endedAt), candidate := None)
  }

  predicate NearFinalStop(cfg: Settings, p: Packet) {
    p.finalStopDistance.Some? && MathRound(p.finalStopDistance.value) as real <= cfg.proximityMeters
  }

  predicate StationaryEnough(cfg: Settings, p: Packet) {
    p.isStationary || p.speedKmh.UnwrapOr(0.0) <= cfg.stationarySpeedKmh
  }

  predicate DwellSatisfied(cfg: Settings, since: int, p: Packet) {
    Max(0.0, (p.recordedAt - since) as real / 1000.0) >= cfg.stationarySeconds as real
  }

  /** The packet gets as far as the proximity test. */
  predicate ReachesTest(cfg: Settings, trip: Trip, p: Packet) {
    && cfg.enabled && (cfg.requireHealthySource ==> p.sourceHealthy)
    && trip.status == Running && !trip.autoEndDisabled
    && p.finalStopDistance.Some? && !p.arrivedAtFinalStop && !p.etaFinalStopReached
  }

  /** maybeAutoEndTripService as a function of the trip. */
  function Evaluated(cfg: Settings, trip: Trip, p: Packet): (Trip, Reason) {
    if !cfg.enabled then (trip, Disabled)
    else if cfg.requireHealthySource && !p.sourceHealthy then (trip, SourceNotEligible)
    else if trip.status != Running then (trip.(candidate := None), TripNotRunning)
    else if trip.autoEndDisabled then (trip.(candidate := None), AutoEndDisabled)
    else if p.finalStopDistance.None? then (trip, NoRouteStops)
    else if p.arrivedAtFinalStop || p.etaFinalStopReached then (Finalized(trip, p.recordedAt), AutoFinalStopArrival)
    else if NearFinalStop(cfg, p) && StationaryEnough(cfg, p) then
      match trip.candidate
      case None => (trip.(candidate := Some(p.recordedAt)), PendingFinalStopStationary)
      case Some(since) =>
        if DwellSatisfied(cfg, since, p) then (Finalized(trip, p.recordedAt), AutoFinalStopStationary)
        else (trip, PendingFinalStopStationary)
    else (trip.(candidate := None), NoAutoEndCondition)
  }

  class TripRecord {
    var status: Status
    var endTime: Option<int>
    var autoEndDisabled: bool
    var candidate: Option<int>

    constructor (status: Status)
      ensures AsTrip() == Trip(status, None, false, None)
    {
      this.status, endTime, autoEndDisabled, candidate := status, None, false, None;
    }

    function AsTrip(): Trip
      reads this
    {
      Trip(status, endTime, autoEndDisabled, candidate)
    }

    method Finalize(endedAt: int) returns (finalized: bool)
      modifies this
      ensures AsTrip() == Finalized(old(AsTrip()), endedAt)
      ensures finalized <==> old(status) != Ended
      ensures status == Ended && candidate == None
      ensures endTime == if finalized then Some(endedAt) else old(endTime)
    {
      if status == Ended {
        candidate := None;
        return false;
      }
      status, endTime := Ended, Some(endedAt);
      candidate := None;
      finalized := true;
    }

    method MaybeAutoEnd(cfg: Settings, p: Packet) returns (ended: bool, reason: Reason)
      modifies this
      ensures (AsTrip(), reason) == Evaluated(cfg, old(AsTrip()), p)
      ensures ended <==> reason.AutoFinalStopArrival? || reason.AutoFinalStopStationary?
      ensures ended ==> status == Ended && old(status) == Running && endTime == Some(p.recordedAt)
      ensures !ended ==> status == old(status) && endTime == old(endTime)
    {
      if !cfg.enabled { return false, Disabled; }
      if cfg.requireHealthySource && !p.sourceHealthy { return false, SourceNotEligible; }
      if status != Running {
        candidate := None;
        return false, TripNotRunning;
      }
      if autoEndDisabled {
        candidate := None;
        return false, AutoEndDisabled;
      }
      if p.finalStopDistance.None? { return false, NoRouteStops; }
      if p.arrivedAtFinalStop || p.etaFinalStopReached {
        var _ := Finalize(p.recordedAt);
        return true, AutoFinalStopArrival;
      }
      if NearFinalStop(cfg, p) && StationaryEnough(cfg, p) {
        if candidate.None? {
          candidate := Some(p.recordedAt);
          return false, PendingFinalStopStationary;
        }
        if DwellSatisfied(cfg, candidate.value, p) {
          var _ := Finalize(p.recordedAt);
          return true, AutoFinalStopStationary;
        }
        return false, PendingFinalStopStationary;
      }
      candidate := None;
      return false, NoAutoEndCondition;
    }
  }

  // ---- Whole runs of one trip ----

  /** Packets, the marker's expiry, the administrator's switch, the start of the trip, and any other finalizer; each
      is one call that nothing interrupts. */
  datatype Event =
    | Evaluate(p: Packet)
    | Lapse
    | SetAutoEnd(disabled: bool)
    | Promote
    | FinalizeBy(endedAt: int)

  function Apply(cfg: Settings, trip: Trip, e: Event): Trip {
    match e
    case Evaluate(p) => Evaluated(cfg, trip, p).0
    case Lapse => trip.(candidate := None)
    case SetAutoEnd(disabled) => if trip.status == Running then trip.(autoEndDisabled := disabled) else trip
    case Promote => if trip.status in {Planned, PreTrip} then trip.(status := Running) else trip
    case FinalizeBy(endedAt) => Finalized(trip, endedAt)
  }

  function After(cfg: Settings, trip: Trip, es: seq<Event>): Trip {
    if es == [] then trip else Apply(cfg, After(cfg, trip, es[..|es| - 1]), es[|es| - 1])
  }

  /** Event j is an evaluation that reaches the proximity test. */
  predicate TestedAt(cfg: Settings, trip: Trip, es: seq<Event>, j: nat)
    requires j < |es|
  {
    es[j].Evaluate? && ReachesTest(cfg, After(cfg, trip, es[..j]), es[j].p)
  }

  predicate PassedAt(cfg: Settings, es: seq<Event>, j: nat)
    requires j < |es|
  {
    es[j].Evaluate? && NearFinalStop(cfg, es[j].p) && StationaryEnough(cfg, es[j].p)
  }

  /** Since event i, itself a passed test, every test was passed. */
  ghost predicate UnbrokenSince(cfg: Settings, trip: Trip, es: seq<Event>, i: nat) {
    && i < |es| && TestedAt(cfg, trip, es, i)
    && forall j :: i <= j < |es| && TestedAt(cfg, trip, es, j) ==> PassedAt(cfg, es, j)
  }

  lemma ExtendUnbroken(cfg: Settings, trip: Trip, es: seq<Event>, e: Event, i: nat)
    requires UnbrokenSince(cfg, trip, es, i)
    requires TestedAt(cfg, trip, es + [e], |es|) ==> PassedAt(cfg, es + [e], |es|)
    ensures UnbrokenSince(cfg, trip, es + [e], i)
  {
    var fs := es + [e];
    assert forall j :: 0 <= j < |es| ==> fs[..j] == es[..j] && fs[j] == es[j];
    forall j | i <= j < |fs| && TestedAt(cfg, trip, fs, j) ensures PassedAt(cfg, fs, j) {
      if j < |es| { assert TestedAt(cfg, trip, es, j); }
    }
  }

  /** While the marker is set, the tests since the packet that set it were all passed. */
  lemma {:induction false} CandidateIsUnbroken(cfg: Settings, trip: Trip, es: seq<Event>) returns (i: nat)
    requires trip.candidate.None?
    ensures After(cfg, trip, es).candidate.Some? ==>
      UnbrokenSince(cfg, trip, es, i) && After(cfg, trip, es).candidate == Some(es[i].p.recordedAt)
    decreases |es|
  {
    i := 0;
    if es != [] {
      var p, e := es[..|es| - 1], es[|es| - 1];
      assert es == p + [e];
      i := CandidateIsUnbroken(cfg, trip, p);
      var before := After(cfg, trip, p);
      if After(cfg, trip, es).candidate.Some? {
        if before.candidate.Some? {
          ExtendUnbroken(cfg, trip, p, e, i);
        } else {
          i := |p|;
          assert TestedAt(cfg, trip, es, i) && PassedAt(cfg, es, i);
        }
      }
    }
  }

  /** A trip ends as stationary only after an unbroken series of passed tests spanning the configured seconds. */
  lemma StationaryEndMeansDwell(cfg: Settings, trip: Trip, es: seq<Event>, p: Packet) returns (i: nat)
    requires trip.candidate.None?
    requires Evaluated(cfg, After(cfg, trip, es), p).1 == AutoFinalStopStationary
    ensures UnbrokenSince(cfg, trip, es + [Evaluate(p)], i) && i < |es|
    ensures cfg.stationarySeconds > 0 ==> p.recordedAt - es[i].p.recordedAt >= 1000 * cfg.stationarySeconds
  {
    i := CandidateIsUnbroken(cfg, trip, es);
    ExtendUnbroken(cfg, trip, es, Evaluate(p), i);
  }

  /** Ended is final: whatever uninterrupted calls follow, the end time stays. */
  lemma {:induction false} EndTimeIsFinal(cfg: Settings, trip: Trip, es: seq<Event>)
    requires trip.status == Ended
    ensures After(cfg, trip, es).status == Ended && After(cfg, trip, es).endTime == trip.endTime
    decreases |es|
  {
    if es != [] { EndTimeIsFinal(cfg, trip, es[..|es| - 1]); }
  }

  // ---- Expiry of the marker can only delay the end ----

  /** The same run without the marker ever expiring. */
  function WithoutLapses(es: seq<Event>): seq<Event> {
    if es == [] then []
    else
      var rest := WithoutLapses(es[..|es| - 1]);
      if es[|es| - 1].Lapse? then rest else rest + [es[|es| - 1]]
  }

  /** No packet was recorded after time t. */
  predicate AllBefore(es: seq<Event>, t: int) {
    forall i :: 0 <= i < |es| && es[i].Evaluate? ==> es[i].p.recordedAt <= t
  }

  /** Packets are evaluated in the order they were recorded. */
  predicate InOrder(es: seq<Event>) {
    forall i, j :: 0 <= i < j < |es| && es[i].Evaluate? && es[j].Evaluate? ==> es[i].p.recordedAt <= es[j].p.recordedAt
  }

  /** t has ended, or agrees with s and has been stationary at least as long. */
  predicate Ahead(s: Trip, t: Trip) {
    || t.status == Ended
    || (t.(candidate := None) == s.(candidate := None)
        && (s.candidate.Some? ==> t.candidate.Some? && t.candidate.value <= s.candidate.value))
  }

  lemma AheadStep(cfg: Settings, s: Trip, t: Trip, e: Event)
    requires Ahead(s, t)
    requires e.Evaluate? && t.candidate.Some? ==> t.candidate.value <= e.p.recordedAt
    ensures e.Lapse? ==> Ahead(Apply(cfg, s, e), t)
    ensures !e.Lapse? ==> Ahead(Apply(cfg, s, e), Apply(cfg, t, e))
  {
    if e.Evaluate? && s.candidate.Some? && t.candidate.Some? && t.candidate.value <= s.candidate.value {
      LongerDwell(cfg, t.candidate.value, s.candidate.value, e.p);
    }
    hide DwellSatisfied, NearFinalStop, StationaryEnough;
  }

  lemma LongerDwell(cfg: Settings, since: int, later: int, p: Packet)
    requires since <= later
    ensures DwellSatisfied(cfg, later, p) ==> DwellSatisfied(cfg, since, p)
  {}

  lemma {:induction false} CandidateIsPast(cfg: Settings, trip: Trip, es: seq<Event>, t: int)
    requires trip.candidate.None? && AllBefore(es, t)
    ensures After(cfg, trip, es).candidate.Some? ==> After(cfg, trip, es).candidate.value <= t
    decreases |es|
  {
    if es != [] {
      CandidateIsPast(cfg, trip, es[..|es| - 1], t);
      assert es[|es| - 1].Evaluate? ==> es[|es| - 1].p.recordedAt <= t;
    }
  }

  lemma {:induction false} WithoutLapsesBefore(es: seq<Event>, t: int)
    requires AllBefore(es, t)
    ensures AllBefore(WithoutLapses(es), t)
    decreases |es|
  {
    if es != [] { WithoutLapsesBefore(es[..|es| - 1], t); }
  }

  /** If the run with expiries has ended the trip, the run without them has ended it by then too. */
  lemma {:induction false} ExpiryOnlyDelays(cfg: Settings, trip: Trip, es: seq<Event>)
    requires trip.candidate.None? && InOrder(es)
    ensures Ahead(After(cfg, trip, es), After(cfg, trip, WithoutLapses(es)))
    ensures After(cfg, trip, es).status == Ended ==> After(cfg, trip, WithoutLapses(es)).status == Ended
    decreases |es|
  {
    if es != [] {
      var p, e := es[..|es| - 1], es[|es| - 1];
      ExpiryOnlyDelays(cfg, trip, p);
      var clean := WithoutLapses(p);
      if e.Evaluate? {
        WithoutLapsesBefore(p, e.p.recordedAt);
        CandidateIsPast(cfg, trip, clean, e.p.recordedAt);
      }
      AheadStep(cfg, After(cfg, trip, p), After(cfg, trip, clean), e);
      assert (clean + [e])[..|clean|] == clean;
    }
  }
}
