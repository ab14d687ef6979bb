/** The phase of a trip before its departure (src/services/preTripPhase.service.ts). */
module PreTripPhase {
  import opened Wrappers
  import opened Geo

  const ORIGIN_GEOFENCE_METERS := 120.0
  const ORIGIN_DWELL_FOR_AUTO_START_MS := 30_000
  const MOVING_THRESHOLD_KMH := 4.0

  datatype Phase = AtDepot | ApproachingOrigin | AtOrigin

  /** The two columns of the trip row. */
  datatype Stored = Stored(phase: Option<Phase>, originArrivedAt: Option<int>)

  /** A location update together with the origin stop found for the route, if any. */
  datatype Update = Update(origin: Option<LatLng>, position: LatLng, speedKmh: Option<real>, recordedAt: int)

  datatype Derived = Derived(phase: Phase, originArrivedAt: Option<int>, shouldStartTrip: bool)

  predicate InGeofence(dist: Metric, origin: LatLng, position: LatLng) {
    dist(position, origin) <= ORIGIN_GEOFENCE_METERS
  }

  /** derivePreTripPhase */
  function DerivePhase(dist: Metric, origin: LatLng, u: Update, previous: Stored): Derived {
    if InGeofence(dist, origin, u.position) then
      var arrivedAt := previous.originArrivedAt.UnwrapOr(u.recordedAt);
      Derived(AtOrigin, Some(arrivedAt), u.recordedAt - arrivedAt >= ORIGIN_DWELL_FOR_AUTO_START_MS)
    else if u.speedKmh.UnwrapOr(0.0) > MOVING_THRESHOLD_KMH || previous.phase == Some(ApproachingOrigin) then
      Derived(ApproachingOrigin, None, false)
    else Derived(AtDepot, None, false)
  }

  /** The row after an update, as the pure fold has it. */
  function Next(dist: Metric, s: Stored, u: Update): Stored {
    if u.origin.None? then s
    else
      var d := DerivePhase(dist, u.origin.value, u, s);
      Stored(Some(d.phase), d.originArrivedAt)
  }

  function Fold(dist: Metric, s: Stored, us: seq<Update>): Stored {
    if us == [] then s else Next(dist, Fold(dist, s, us[..|us| - 1]), us[|us| - 1])
  }

  class PreTripRow {
    var row: Stored

    /** The window job opens a trip as AT_DEPOT without an arrival. */
    constructor ()
      ensures row == Opened()
    {
      row := Stored(Some(AtDepot), None);
    }

    /** applyPreTripLocationUpdate: writes only on a change, and still follows the fold. */
    method ApplyLocationUpdate(dist: Metric, u: Update) returns (newPhase: Phase, shouldStartTrip: bool, written: bool)
      modifies this
      ensures row == Next(dist, old(row), u)
      ensures written <==> row != old(row)
      ensures u.origin.Some? ==> row.phase == Some(newPhase)
      ensures u.origin.None? ==> newPhase == old(row).phase.UnwrapOr(AtDepot)
      ensures shouldStartTrip <==> ShouldStart(dist, old(row), u)
    {
      if u.origin.None? {
        return row.phase.UnwrapOr(AtDepot), false, false;
      }
      var derived := DerivePhase(dist, u.origin.value, u, row);
      var phaseChanged := Some(derived.phase) != row.phase;
      var arrivedAtChanged := derived.originArrivedAt != row.originArrivedAt;
      written := phaseChanged || arrivedAtChanged;
      if written {
        row := Stored(Some(derived.phase), derived.originArrivedAt);
      }
      newPhase, shouldStartTrip := derived.phase, derived.shouldStartTrip;
    }
  }

  function Opened(): Stored { Stored(Some(AtDepot), None) }

  predicate ShouldStart(dist: Metric, s: Stored, u: Update) {
    u.origin.Some? && DerivePhase(dist, u.origin.value, u, s).shouldStartTrip
  }

  predicate Inside(dist: Metric, u: Update) {
    u.origin.Some? && InGeofence(dist, u.origin.value, u.position)
  }

  predicate Outside(dist: Metric, u: Update) {
    u.origin.Some? && !InGeofence(dist, u.origin.value, u.position)
  }

  /** Fix i begins the unbroken stretch inside the geofence that lasts until the end of us. */
  ghost predicate StretchStart(dist: Metric, us: seq<Update>, i: nat) {
    && i < |us| && Inside(dist, us[i])
    && (forall j :: i <= j < |us| ==> !Outside(dist, us[j]))
    && (forall j :: 0 <= j < i && Inside(dist, us[j]) ==> exists k :: j < k < i && Outside(dist, us[k]))
  }

  lemma StretchStartIsUnique(dist: Metric, us: seq<Update>, i: nat, j: nat)
    requires StretchStart(dist, us, i) && StretchStart(dist, us, j)
    ensures i == j
  {}

  lemma StretchGoesOn(dist: Metric, us: seq<Update>, u: Update, i: nat)
    requires StretchStart(dist, us, i) && !Outside(dist, u)
    ensures StretchStart(dist, us + [u], i)
  {
    var vs := us + [u];
    assert forall j :: 0 <= j < |us| ==> vs[j] == us[j];
    forall j | 0 <= j < i && Inside(dist, vs[j]) ensures exists k :: j < k < i && Outside(dist, vs[k]) {
      var k :| j < k < i && Outside(dist, us[k]);
      assert Outside(dist, vs[k]);
    }
  }

  /** The arrival time is set exactly while a stretch is under way, and is the time of its first fix. */
  lemma {:induction false} ArrivalIsStretchStart(dist: Metric, us: seq<Update>) returns (i: nat)
    ensures
      var s := Fold(dist, Opened(), us);
      && (s.originArrivedAt.Some? <==> s.phase == Some(AtOrigin))
      && (s.originArrivedAt.Some? ==> StretchStart(dist, us, i) && s.originArrivedAt == Some(us[i].recordedAt))
      && (s.originArrivedAt.None? ==> NoStretch(dist, us))
    decreases |us|
  {
    i := 0;
    if us != [] {
      var p, u := us[..|us| - 1], us[|us| - 1];
      assert us == p + [u];
      i := ArrivalIsStretchStart(dist, p);
      var s := Fold(dist, Opened(), p);
      if s.originArrivedAt.Some? && !Outside(dist, u) {
        StretchGoesOn(dist, p, u, i);
      } else if Inside(dist, u) {
        i := |us| - 1;
        NewStretch(dist, p, u);
      } else if u.origin.None? {
        NoStretchStays(dist, p, u);
      }
    }
  }

  /** Every fix inside the geofence was followed by one outside. */
  ghost predicate NoStretch(dist: Metric, us: seq<Update>) {
    forall j :: 0 <= j < |us| && Inside(dist, us[j]) ==> exists k :: j < k < |us| && Outside(dist, us[k])
  }

  lemma NoStretchHasNoStart(dist: Metric, us: seq<Update>, i: nat)
    requires NoStretch(dist, us)
    ensures !StretchStart(dist, us, i)
  {}

  lemma NewStretch(dist: Metric, us: seq<Update>, u: Update)
    requires NoStretch(dist, us) && Inside(dist, u)
    ensures StretchStart(dist, us + [u], |us|)
  {
    var vs := us + [u];
    forall j | 0 <= j < |us| && Inside(dist, vs[j]) ensures exists k :: j < k < |us| && Outside(dist, vs[k]) {
      assert Inside(dist, us[j]);
      var k :| j < k < |us| && Outside(dist, us[k]);
      assert Outside(dist, vs[k]);
    }
  }

  lemma NoStretchStays(dist: Metric, us: seq<Update>, u: Update)
    requires NoStretch(dist, us) && !Inside(dist, u)
    ensures NoStretch(dist, us + [u])
  {
    var vs := us + [u];
    forall j | 0 <= j < |vs| && Inside(dist, vs[j]) ensures exists k :: j < k < |vs| && Outside(dist, vs[k]) {
      assert Inside(dist, us[j]);
      var k :| j < k < |us| && Outside(dist, us[k]);
      assert Outside(dist, vs[k]);
    }
  }

  /** The trip is started exactly when the stretch under way has lasted the dwell time: from a fix at least
      that long ago up to the current one, no fix was outside the origin's geofence. */
  lemma StartNeedsUnbrokenDwell(dist: Metric, us: seq<Update>)
    requires us != []
    ensures ShouldStart(dist, Fold(dist, Opened(), us[..|us| - 1]), us[|us| - 1]) <==>
      us[|us| - 1].origin.Some? &&
      exists i: nat :: StretchStart(dist, us, i) && us[|us| - 1].recordedAt - us[i].recordedAt >= 30_000
  {
    var p, u := us[..|us| - 1], us[|us| - 1];
    var i := ArrivalIsStretchStart(dist, us);
    assert Fold(dist, Opened(), us) == Next(dist, Fold(dist, Opened(), p), u);
    if Fold(dist, Opened(), us).originArrivedAt.Some? {
      forall k: nat | StretchStart(dist, us, k) ensures k == i { StretchStartIsUnique(dist, us, i, k); }
    } else {
      forall k: nat | StretchStart(dist, us, k) ensures false { NoStretchHasNoStart(dist, us, k); }
    }
  }

  /** A bus that was approaching returns to AT_DEPOT only by way of AT_ORIGIN. */
  lemma {:induction false} ApproachIsSticky(dist: Metric, s: Stored, us: seq<Update>) returns (m: nat)
    requires s.phase == Some(ApproachingOrigin)
    ensures Fold(dist, s, us).phase == Some(AtDepot) ==>
      m <= |us| && Fold(dist, s, us[..m]).phase == Some(AtOrigin)
    ensures Fold(dist, s, us).phase.Some?
    decreases |us|
  {
    m := 0;
    if us != [] {
      var p, u := us[..|us| - 1], us[|us| - 1];
      m := ApproachIsSticky(dist, s, p);
      var before, after := Fold(dist, s, p), Fold(dist, s, us);
      assert after == Next(dist, before, u);
      match before.phase.value {
        case AtOrigin =>
          m := |p|;
          assert us[..m] == p;
        case AtDepot =>
          assert us[..m] == p[..m];
        case ApproachingOrigin =>
      }
    }
  }

  /** Some fix of an unbroken series outside the geofence, up to the end of us, moved faster than 4 km/h. */
  ghost predicate MovedSinceOrigin(dist: Metric, us: seq<Update>) {
    exists i: nat :: i < |us| && Outside(dist, us[i]) && us[i].speedKmh.UnwrapOr(0.0) > 4.0
      && forall j :: i <= j < |us| ==> !Inside(dist, us[j])
  }

  lemma MovedGoesOn(dist: Metric, us: seq<Update>, u: Update)
    requires !Inside(dist, u)
    ensures MovedSinceOrigin(dist, us + [u]) <==>
      MovedSinceOrigin(dist, us) || (Outside(dist, u) && u.speedKmh.UnwrapOr(0.0) > 4.0)
  {
    hide Inside, Outside;
    var vs := us + [u];
    assert forall j :: 0 <= j < |us| ==> vs[j] == us[j];
    assert vs[|us|] == u;
    if MovedSinceOrigin(dist, us) {
      var i: nat :| i < |us| && Outside(dist, us[i]) && us[i].speedKmh.UnwrapOr(0.0) > 4.0
        && forall j :: i <= j < |us| ==> !Inside(dist, us[j]);
      assert Outside(dist, vs[i]);
    }
    if MovedSinceOrigin(dist, vs) {
      var i: nat :| i < |vs| && Outside(dist, vs[i]) && vs[i].speedKmh.UnwrapOr(0.0) > 4.0
        && forall j :: i <= j < |vs| ==> !Inside(dist, vs[j]);
      if i < |us| {
        assert Outside(dist, us[i]);
        forall j | i <= j < |us| ensures !Inside(dist, us[j]) { assert !Inside(dist, vs[j]); }
      }
    }
  }

  /** In every run from the opening of a trip the bus is AT_ORIGIN exactly while a stretch inside the geofence is under
      way,
      else APPROACHING_ORIGIN exactly when it has moved since it was last inside, else AT_DEPOT. */
  lemma {:induction false} PhaseIsHistory(dist: Metric, us: seq<Update>)
    ensures
      var phase := Fold(dist, Opened(), us).phase;
      && (phase == Some(ApproachingOrigin) <==> MovedSinceOrigin(dist, us))
      && (phase == Some(AtOrigin) <==> exists i: nat :: StretchStart(dist, us, i))
      && phase.Some?
    decreases |us|
  {
    var i := ArrivalIsStretchStart(dist, us);
    if NoStretch(dist, us) {
      forall k: nat | StretchStart(dist, us, k) ensures false { NoStretchHasNoStart(dist, us, k); }
    }
    ApproachIsHistory(dist, us);
    hide StretchStart, NoStretch, MovedSinceOrigin, Fold;
  }

  lemma {:induction false} ApproachIsHistory(dist: Metric, us: seq<Update>)
    ensures Fold(dist, Opened(), us).phase == Some(ApproachingOrigin) <==> MovedSinceOrigin(dist, us)
    ensures Fold(dist, Opened(), us).phase.Some?
    decreases |us|
  {
    if us != [] {
      var p, u := us[..|us| - 1], us[|us| - 1];
      assert us == p + [u];
      ApproachIsHistory(dist, p);
      if Inside(dist, u) {
        assert !MovedSinceOrigin(dist, us) by { InsideIsNoMove(dist, us); }
      } else {
        MovedGoesOn(dist, p, u);
      }
      hide MovedSinceOrigin;
    }
  }

  lemma InsideIsNoMove(dist: Metric, us: seq<Update>)
    requires us != [] && Inside(dist, us[|us| - 1])
    ensures !MovedSinceOrigin(dist, us)
  {}

  /** Inside the geofence means at most 120 metres from the origin, for a route that has one. */
  lemma InsideIsWithin120(dist: Metric, u: Update)
    ensures Inside(dist, u) <==> u.origin.Some? && dist(u.position, u.origin.value) <= 120.0
    ensures Outside(dist, u) <==> u.origin.Some? && dist(u.position, u.origin.value) > 120.0
  {}
}
