/** Choosing between the driver's phone and the GPS device (src/services/sourceArbitration.service.ts). */
module SourceArbitration {
  import opened Wrappers
  import opened Rounding
  import opened Geo

  datatype SourceType = DriverMobile | GpsDevice

  datatype SourceStatus = Healthy | Stale | Unhealthy | Disconnected

  datatype Reason =
    | StickyPreviousSource
    | GpsPriority
    | DriverFallbackToGps
    | DriverPriority
    | GpsFallbackToDriver
    | GpsOnly
    | DriverOnly
    | MostRecentHealthy
    | HoldLastGoodState
    | NoHealthySource

  datatype Reading = Reading(position: LatLng, displaySpeedKmh: Option<real>)

  datatype Candidate = Candidate(sourceType: SourceType, status: SourceStatus, recordedAt: int, reading: Reading)

  datatype Selection = Selection(candidate: Candidate, reason: Reason)

  /** secondsSince, for one clock reading in milliseconds. */
  function SecondsSince(now: int, t: int): real {
    Max(0.0, (now - t) as real / 1000.0)
  }

  function StatusScore(status: SourceStatus): real {
    match status
    case Healthy => 1000.0
    case Stale => 600.0
    case Unhealthy => 200.0
    case Disconnected => 0.0
  }

  function Freshness(ageSeconds: real): real { Max(0.0, 120.0 - ageSeconds) }

  function WinnerScore(now: int, c: Candidate): real {
    StatusScore(c.status)
    + Freshness(SecondsSince(now, c.recordedAt))
    + if c.sourceType == GpsDevice then 15.0 else 0.0
  }

  /** The candidates of one call: the driver's phone and the GPS device, either of which may be absent. */
  datatype Contest =
    Contest(now: int, previous: Option<SourceType>, driver: Option<Candidate>, gps: Option<Candidate>)
  {
    predicate WellTyped() {
      && (driver.Some? ==> driver.value.sourceType == DriverMobile)
      && (gps.Some? ==> gps.value.sourceType == GpsDevice)
    }

    predicate Competes(c: Candidate) {
      driver == Some(c) || gps == Some(c)
    }
  }

  function CanKeepPreviousSource(c: Contest, hysteresisGap: nat, stickyWindowSeconds: nat): bool {
    if c.previous.None? then false
    else
      var previousCandidate := if c.previous.value == GpsDevice then c.gps else c.driver;
      var otherCandidate := if c.previous.value == GpsDevice then c.driver else c.gps;
      if previousCandidate.None? then false
      else if SecondsSince(c.now, previousCandidate.value.recordedAt) > stickyWindowSeconds as real then false
      else if previousCandidate.value.status == Disconnected then false
      else
        var otherScore := if otherCandidate.Some? then WinnerScore(c.now, otherCandidate.value) else -1.0;
        WinnerScore(c.now, previousCandidate.value) + hysteresisGap as real >= otherScore
  }

  /** The head of [gps, driver] after the stable sort by descending score, and what follows it. */
  function Ranked(c: Contest): (Option<Candidate>, Option<Candidate>) {
    if c.gps.None? then (c.driver, None)
    else if c.driver.None? then (c.gps, None)
    else if WinnerScore(c.now, c.driver.value) > WinnerScore(c.now, c.gps.value) then (c.driver, c.gps)
    else (c.gps, c.driver)
  }

  predicate IsHealthy(c: Option<Candidate>) {
    c.Some? && c.value.status == Healthy
  }

  /** chooseWinner */
  function ChooseWinner(c: Contest, hysteresisGap: nat, stickyWindowSeconds: nat): Option<Selection> {
    var kept := if c.previous == Some(GpsDevice) then c.gps else c.driver;
    if CanKeepPreviousSource(c, hysteresisGap, stickyWindowSeconds) && kept.Some? then
      Some(Selection(kept.value, StickyPreviousSource))
    else
      var (best, second) := Ranked(c);
      if best.None? then None
      else if best.value.sourceType == GpsDevice && best.value.status == Healthy then
        Some(Selection(best.value, if IsHealthy(c.driver) then GpsPriority else DriverFallbackToGps))
      else if best.value.sourceType == DriverMobile && best.value.status == Healthy then
        Some(Selection(best.value, if IsHealthy(c.gps) then DriverPriority else GpsFallbackToDriver))
      else if second.None? then
        Some(Selection(best.value, if best.value.sourceType == GpsDevice then GpsOnly else DriverOnly))
      else Some(Selection(best.value, MostRecentHealthy))
  }

  // ---- The choice ----

  /** The choice is a candidate, exists whenever there is one, and is within the gap of the best. */
  lemma ChoiceIsNearOptimal(c: Contest, gap: nat, sticky: nat)
    requires c.WellTyped()
    ensures
      var w := ChooseWinner(c, gap, sticky);
      && (w.None? <==> c.driver.None? && c.gps.None?)
      && (w.Some? ==> c.Competes(w.value.candidate))
      && (w.Some? ==> forall d :: c.Competes(d) ==>
            WinnerScore(c.now, w.value.candidate) + gap as real >= WinnerScore(c.now, d))
      && (w.Some? && w.value.reason != StickyPreviousSource ==> forall d :: c.Competes(d) ==>
            WinnerScore(c.now, w.value.candidate) >= WinnerScore(c.now, d))
  {
    hide WinnerScore, SecondsSince;
  }

  function HealthRank(status: SourceStatus): nat {
    match status
    case Healthy => 3
    case Stale => 2
    case Unhealthy => 1
    case Disconnected => 0
  }

  /** Some candidate is strictly healthier than the chosen one. */
  predicate PassesOverHealthier(c: Contest, gap: nat, sticky: nat) {
    var w := ChooseWinner(c, gap, sticky);
    && w.Some?
    && ((c.driver.Some? && HealthRank(c.driver.value.status) > HealthRank(w.value.candidate.status))
        || (c.gps.Some? && HealthRank(c.gps.value.status) > HealthRank(w.value.candidate.status)))
  }

  lemma ScoreRange(now: int, c: Candidate)
    ensures StatusScore(c.status) <= WinnerScore(now, c) <= StatusScore(c.status) + 135.0
  {}

  /** A disconnected source is never kept, so a kept source is at least 400 - 135 below a healthier one. */
  lemma SmallGapPrefersHealth(c: Contest, gap: nat, sticky: nat)
    requires c.WellTyped() && gap < 265
    ensures !PassesOverHealthier(c, gap, sticky)
  {
    if c.driver.Some? { ScoreRange(c.now, c.driver.value); }
    if c.gps.Some? { ScoreRange(c.now, c.gps.value); }
    hide WinnerScore, SecondsSince;
  }

  /** Running again with the winner as the previous source keeps it. */
  lemma ChoiceIsStable(c: Contest, gap: nat, sticky: nat)
    requires c.WellTyped() && ChooseWinner(c, gap, sticky).Some?
    ensures
      var w := ChooseWinner(c, gap, sticky).value.candidate;
      var again := ChooseWinner(c.(previous := Some(w.sourceType)), gap, sticky);
      again.Some? && again.value.candidate == w
  {
    hide WinnerScore, SecondsSince;
  }

  // ---- One arbitration of a trip ----

  datatype Settings = Settings(
    driverStaleAfter: nat, driverDisconnectAfter: nat,
    gpsStaleAfter: nat, gpsDisconnectAfter: nat,
    hysteresisGap: nat, stickyWindow: nat, lastGoodHold: nat)

  /** The canonical state of a trip, as stored in Redis. */
  datatype Canonical = Canonical(candidate: Candidate, reason: Reason)

  /** A source row of the bus in the database. */
  datatype SourceRow = SourceRow(
    tripId: Option<string>, status: SourceStatus, recordedAt: Option<int>, reading: Option<Reading>, isSelected: bool)

  function DeriveStatus(now: int, recordedAt: int, staleAfter: nat, unhealthyAfter: nat): SourceStatus {
    var age := SecondsSince(now, recordedAt);
    if age > unhealthyAfter as real then Disconnected
    else if age > staleAfter as real then Stale
    else Healthy
  }

  function DriverCandidate(cfg: Settings, now: int, state: Option<Canonical>): Option<Candidate> {
    if state.None? then None
    else
      var c := state.value.candidate;
      Some(Candidate(DriverMobile, DeriveStatus(now, c.recordedAt, cfg.driverStaleAfter, cfg.driverDisconnectAfter),
        c.recordedAt, c.reading))
  }

  /** The GPS row counts unless it belongs to another trip or lacks a position. */
  function GpsCandidate(cfg: Settings, now: int, tripId: string, row: Option<SourceRow>): Option<Candidate> {
    if row.None? || (row.value.tripId.Some? && row.value.tripId != Some(tripId)) then None
    else if row.value.recordedAt.None? || row.value.reading.None? then None
    else
      var status := if row.value.status == Unhealthy || row.value.status == Disconnected then row.value.status
        else DeriveStatus(now, row.value.recordedAt.value, cfg.gpsStaleAfter, cfg.gpsDisconnectAfter);
      Some(Candidate(GpsDevice, status, row.value.recordedAt.value, row.value.reading.value))
  }

  /** The state to publish: the winner, or for a while the last good state, marked stale. */
  function CanonicalFor(cfg: Settings, c: Contest, lastGood: Option<Canonical>): Option<Canonical> {
    var selected := ChooseWinner(c, cfg.hysteresisGap, cfg.stickyWindow);
    if selected.Some? then Some(Canonical(selected.value.candidate, selected.value.reason))
    else if lastGood.Some? && SecondsSince(c.now, lastGood.value.candidate.recordedAt) <= cfg.lastGoodHold as real then
      Some(Canonical(lastGood.value.candidate.(status := Stale), HoldLastGoodState))
    else None
  }

  function SelectRow(row: SourceRow, kind: SourceType, tripId: string, canonical: Option<Canonical>): SourceRow {
    if row.tripId != Some(tripId) then row
    else if canonical.Some? && canonical.value.candidate.sourceType == kind then
      row.(isSelected := true, status := canonical.value.candidate.status)
    else row.(isSelected := false)
  }

  /** What one call leaves for the next: the state it published and the last good one. */
  datatype Memory = Memory(selected: Option<Canonical>, lastGood: Option<Canonical>)

  function NextMemory(cfg: Settings, c: Contest, lastGood: Option<Canonical>): Memory {
    var canonical := CanonicalFor(cfg, c, lastGood);
    Memory(canonical, if HasGoodWinner(cfg, c) then canonical else lastGood)
  }

  /** The contest had a winner that was healthy or stale. */
  predicate HasGoodWinner(cfg: Settings, c: Contest) {
    var w := ChooseWinner(c, cfg.hysteresisGap, cfg.stickyWindow);
    w.Some? && w.value.candidate.status in {Healthy, Stale}
  }

  /** The row is free or the trip's, and says where the bus was and when. */
  predicate TakesPart(row: SourceRow, tripId: string) {
    row.tripId in {None, Some(tripId)} && row.recordedAt.Some? && row.reading.Some?
  }

  /** The state is a source chosen now, of the given kind, and not the last good one held on to. */
  predicate IsChosen(canonical: Option<Canonical>, kind: SourceType) {
    Publishes(canonical, kind) && canonical.value.reason != HoldLastGoodState
  }

  predicate Publishes(canonical: Option<Canonical>, kind: SourceType) {
    canonical.Some? && canonical.value.candidate.sourceType == kind
  }

  /** Where a chosen state comes from, and when there must be one. */
  lemma CanonicalSources(cfg: Settings, i: Inputs, lastGood: Option<Canonical>)
    ensures
      var canonical := CanonicalFor(cfg, ContestOf(cfg, i), lastGood);
      && (IsChosen(canonical, GpsDevice) ==>
            && i.row.Some? && i.row.value.tripId in {None, Some(i.tripId)}
            && i.row.value.recordedAt == Some(canonical.value.candidate.recordedAt)
            && i.row.value.reading == Some(canonical.value.candidate.reading))
      && (IsChosen(canonical, DriverMobile) ==>
            && i.driverState.Some? && i.driverState.value.candidate.recordedAt == canonical.value.candidate.recordedAt
            && i.driverState.value.candidate.reading == canonical.value.candidate.reading)
      && (i.row.Some? && i.row.value.tripId !in {None, Some(i.tripId)} ==> ContestOf(cfg, i).gps.None?)
      && (i.driverState.None? && i.row.Some? && TakesPart(i.row.value, i.tripId) ==> IsChosen(canonical, GpsDevice))
      && (i.driverState.Some? && (i.row.Some? ==> i.row.value.tripId !in {None, Some(i.tripId)}) ==>
            IsChosen(canonical, DriverMobile))
  {
    hide WinnerScore, SecondsSince, DeriveStatus;
  }

  /** The rows and Redis states that arbitration touches for one bus and one trip. */
  class TripTracking {
    const tripId: string
    var selected: Option<Canonical>
    var lastGood: Option<Canonical>
    var rows: map<SourceType, SourceRow>
    var isStale: bool
    var published: Option<Canonical>

    constructor (tripId: string)
      ensures this.tripId == tripId && selected == None && lastGood == None
      ensures rows == map[] && published == None && !isStale
    {
      this.tripId := tripId;
      selected, lastGood, rows, isStale, published := None, None, map[], false, None;
    }

    function GpsRow(): Option<SourceRow>
      reads this
    {
      if GpsDevice in rows then Some(rows[GpsDevice]) else None
    }

    function ContestAt(cfg: Settings, now: int, driverState: Option<Canonical>): Contest
      reads this
    {
      Contest(now, if selected.Some? then Some(selected.value.candidate.sourceType) else None,
        DriverCandidate(cfg, now, driverState), GpsCandidate(cfg, now, tripId, GpsRow()))
    }

    /** arbitrateTripTrackingSource: afterwards the trip's rows mark exactly the published source, with its status. */
    method Arbitrate(cfg: Settings, now: int, driverState: Option<Canonical>) returns (canonical: Option<Canonical>)
      modifies this
      ensures
        var previous := if old(selected).Some? then Some(old(selected).value.candidate.sourceType) else None;
        var row := if GpsDevice in old(rows) then Some(old(rows)[GpsDevice]) else None;
        var c := ContestOf(cfg, Inputs(now, previous, driverState, tripId, row));
        Memory(selected, lastGood) == NextMemory(cfg, c, old(lastGood))
      ensures canonical == selected
      ensures IsChosen(canonical, GpsDevice) ==>
        && GpsDevice in old(rows) && old(rows)[GpsDevice].tripId in {None, Some(tripId)}
        && old(rows)[GpsDevice].recordedAt == Some(canonical.value.candidate.recordedAt)
        && old(rows)[GpsDevice].reading == Some(canonical.value.candidate.reading)
      ensures IsChosen(canonical, DriverMobile) ==>
        && driverState.Some? && driverState.value.candidate.recordedAt == canonical.value.candidate.recordedAt
        && driverState.value.candidate.reading == canonical.value.candidate.reading
      ensures GpsDevice in old(rows) && old(rows)[GpsDevice].tripId !in {None, Some(tripId)} ==>
        var c := old(ContestAt(cfg, now, driverState));
        Memory(selected, lastGood) == NextMemory(cfg, c.(gps := None), old(lastGood))
      ensures driverState.None? && GpsDevice in old(rows) && TakesPart(old(rows)[GpsDevice], tripId) ==>
        IsChosen(canonical, GpsDevice)
      ensures driverState.Some? && (GpsDevice in old(rows) ==> old(rows)[GpsDevice].tripId !in {None, Some(tripId)}) ==>
        IsChosen(canonical, DriverMobile)
      ensures isStale <==> canonical.None? || canonical.value.candidate.status != Healthy
      ensures published == if canonical.Some? then canonical else old(published)
      ensures rows.Keys == old(rows.Keys)
      ensures forall k :: k in rows && rows[k].tripId == Some(tripId) && Publishes(canonical, k) ==>
        rows[k] == old(rows)[k].(isSelected := true, status := canonical.value.candidate.status)
      ensures forall k :: k in rows && rows[k].tripId == Some(tripId) && !Publishes(canonical, k) ==>
        rows[k] == old(rows)[k].(isSelected := false)
      ensures forall k :: k in rows && rows[k].tripId != Some(tripId) ==> rows[k] == old(rows)[k]
    {
      var c := ContestAt(cfg, now, driverState);
      CanonicalSources(cfg, Inputs(now, c.previous, driverState, tripId, GpsRow()), lastGood);
      hide CanonicalFor, ChooseWinner, DriverCandidate, GpsCandidate, IsChosen, Publishes;
      var winner := ChooseWinner(c, cfg.hysteresisGap, cfg.stickyWindow);
      canonical := CanonicalFor(cfg, c, lastGood);
      if winner.Some? && winner.value.candidate.status in {Healthy, Stale} {
        lastGood := canonical;
      }
      selected := canonical;
      isStale := canonical.None? || canonical.value.candidate.status != Healthy;
      if canonical.Some? {
        published := canonical;
      }
      MarkRows(canonical);
    }

    /** The trip's rows are deselected, except that of the published source, which gets its status. */
    method MarkRows(canonical: Option<Canonical>)
      modifies this`rows
      ensures rows.Keys == old(rows.Keys)
      ensures forall k :: k in rows && rows[k].tripId == Some(tripId) && Publishes(canonical, k) ==>
        rows[k] == old(rows)[k].(isSelected := true, status := canonical.value.candidate.status)
      ensures forall k :: k in rows && rows[k].tripId == Some(tripId) && !Publishes(canonical, k) ==>
        rows[k] == old(rows)[k].(isSelected := false)
      ensures forall k :: k in rows && rows[k].tripId != Some(tripId) ==> rows[k] == old(rows)[k]
    {
      rows := map k | k in rows :: SelectRow(rows[k], k, tripId, canonical);
    }
  }

  // ---- Which gaps let a healthier source lose ----

  /** What one call finds: the clock, the source published last, the driver's Redis state and the GPS row. */
  datatype Inputs = Inputs(
    now: int, previous: Option<SourceType>, driverState: Option<Canonical>, tripId: string, row: Option<SourceRow>)

  function ContestOf(cfg: Settings, i: Inputs): Contest {
    Contest(i.now, i.previous, DriverCandidate(cfg, i.now, i.driverState), GpsCandidate(cfg, i.now, i.tripId, i.row))
  }

  function Least(a: nat, b: nat): nat { if a <= b then a else b }

  /** One millisecond past a limit in whole seconds. */
  function JustPast(seconds: nat): real { seconds as real + 0.001 }

  /** A source can be stale and still recent enough to be kept. */
  predicate KeptStale(staleAfter: nat, disconnectAfter: nat, stickyWindow: nat) {
    staleAfter < disconnectAfter && staleAfter < stickyWindow
  }

  /** The lead of a driver about to be disconnected over an unhealthy GPS reading of this instant. */
  function UnhealthyGpsLead(cfg: Settings): real {
    (if cfg.driverStaleAfter < cfg.driverDisconnectAfter then 265.0 else 665.0) +
      Freshness(cfg.driverDisconnectAfter as real)
  }

  /** The lead of a driver about to go stale over a GPS reading that just has. */
  function StaleGpsLead(cfg: Settings): real {
    var driverAge := Least(cfg.driverStaleAfter, cfg.driverDisconnectAfter) as real;
    385.0 + Freshness(driverAge) - Freshness(JustPast(cfg.gpsStaleAfter))
  }

  /** The lead of a GPS reading about to go stale over a driver that just has. */
  function StaleDriverLead(cfg: Settings): real {
    var gpsAge := Least(cfg.gpsStaleAfter, cfg.gpsDisconnectAfter) as real;
    415.0 + Freshness(gpsAge) - Freshness(JustPast(cfg.driverStaleAfter))
  }

  /** The least lead in score of a healthier source over one that may be kept, over all that the freshness settings
      admit. */
  function LeastLead(cfg: Settings): real {
    var least :=
      if KeptStale(cfg.gpsStaleAfter, cfg.gpsDisconnectAfter, cfg.stickyWindow) then
        Min(UnhealthyGpsLead(cfg), StaleGpsLead(cfg))
      else UnhealthyGpsLead(cfg);
    if KeptStale(cfg.driverStaleAfter, cfg.driverDisconnectAfter, cfg.stickyWindow) then
      Min(least, StaleDriverLead(cfg))
    else least
  }

  /** Only a kept source can pass over a healthier one. */
  lemma PassingIsKeeping(c: Contest, gap: nat, sticky: nat)
    requires c.WellTyped() && PassesOverHealthier(c, gap, sticky)
    ensures c.previous.Some? && c.driver.Some? && c.gps.Some?
    ensures
      var kept := if c.previous.value == GpsDevice then c.gps.value else c.driver.value;
      var other := if c.previous.value == GpsDevice then c.driver.value else c.gps.value;
      && kept.status != Disconnected && HealthRank(other.status) > HealthRank(kept.status)
      && SecondsSince(c.now, kept.recordedAt) <= sticky as real
      && WinnerScore(c.now, kept) + gap as real >= WinnerScore(c.now, other)
  {
    if c.driver.Some? { ScoreRange(c.now, c.driver.value); }
    if c.gps.Some? { ScoreRange(c.now, c.gps.value); }
    hide WinnerScore, SecondsSince;
  }

  /** A derived status bounds the age. */
  lemma StatusBoundsAge(now: int, recordedAt: int, staleAfter: nat, disconnectAfter: nat)
    ensures
      var age, status := SecondsSince(now, recordedAt), DeriveStatus(now, recordedAt, staleAfter, disconnectAfter);
      && age >= 0.0
      && status != Unhealthy
      && (status == Healthy ==> age <= Least(staleAfter, disconnectAfter) as real)
      && (status == Stale ==> JustPast(staleAfter) <= age <= disconnectAfter as real)
  {
    WholeMilliseconds(now, recordedAt, staleAfter);
    hide SecondsSince;
  }

  /** Ages come in whole milliseconds. */
  lemma WholeMilliseconds(now: int, recordedAt: int, seconds: nat)
    ensures SecondsSince(now, recordedAt) >= 0.0
    ensures SecondsSince(now, recordedAt) > seconds as real ==> SecondsSince(now, recordedAt) >= JustPast(seconds)
  {
    var ms := now - recordedAt;
    assert ms > 1000 * seconds ==> ms as real >= (1000 * seconds + 1) as real;
    assert ms <= 1000 * seconds ==> ms as real <= (1000 * seconds) as real;
    assert (1000 * seconds) as real == 1000.0 * (seconds as real);
  }

  lemma FreshnessFalls(a: real, b: real)
    requires a <= b
    ensures 0.0 <= Freshness(b) <= Freshness(a)
  {}

  /** What arbitration's own candidates look like. */
  ghost predicate IsDerived(cfg: Settings, now: int, c: Candidate) {
    var age := SecondsSince(now, c.recordedAt);
    var staleAfter := if c.sourceType == GpsDevice then cfg.gpsStaleAfter else cfg.driverStaleAfter;
    var disconnectAfter := if c.sourceType == GpsDevice then cfg.gpsDisconnectAfter else cfg.driverDisconnectAfter;
    && age >= 0.0
    && (c.sourceType == DriverMobile ==> c.status != Unhealthy)
    && (c.status == Healthy ==> age <= Least(staleAfter, disconnectAfter) as real)
    && (c.status == Stale ==> JustPast(staleAfter) <= age <= disconnectAfter as real)
  }

  lemma CandidatesAreDerived(cfg: Settings, i: Inputs)
    ensures ContestOf(cfg, i).WellTyped()
    ensures ContestOf(cfg, i).driver.Some? ==> IsDerived(cfg, i.now, ContestOf(cfg, i).driver.value)
    ensures ContestOf(cfg, i).gps.Some? ==> IsDerived(cfg, i.now, ContestOf(cfg, i).gps.value)
  {
    hide SecondsSince, DeriveStatus;
    if i.driverState.Some? {
      StatusBoundsAge(i.now, i.driverState.value.candidate.recordedAt, cfg.driverStaleAfter, cfg.driverDisconnectAfter);
    }
    if i.row.Some? && i.row.value.recordedAt.Some? {
      StatusBoundsAge(i.now, i.row.value.recordedAt.value, cfg.gpsStaleAfter, cfg.gpsDisconnectAfter);
    }
  }

  lemma LeadIsAtLeast(cfg: Settings, now: int, kept: Candidate, other: Candidate)
    requires IsDerived(cfg, now, kept) && IsDerived(cfg, now, other) && kept.sourceType != other.sourceType
    requires kept.status != Disconnected && HealthRank(other.status) > HealthRank(kept.status)
    requires SecondsSince(now, kept.recordedAt) <= cfg.stickyWindow as real
    ensures WinnerScore(now, other) - WinnerScore(now, kept) >= LeastLead(cfg)
  {
    var keptAge, otherAge := SecondsSince(now, kept.recordedAt), SecondsSince(now, other.recordedAt);
    FreshnessFalls(0.0, keptAge);
    hide SecondsSince;
    if kept.status == Unhealthy {
      FreshnessFalls(otherAge, cfg.driverDisconnectAfter as real);
    } else if kept.sourceType == GpsDevice {
      FreshnessFalls(JustPast(cfg.gpsStaleAfter), keptAge);
      FreshnessFalls(otherAge, Least(cfg.driverStaleAfter, cfg.driverDisconnectAfter) as real);
    } else {
      FreshnessFalls(JustPast(cfg.driverStaleAfter), keptAge);
      FreshnessFalls(otherAge, Least(cfg.gpsStaleAfter, cfg.gpsDisconnectAfter) as real);
    }
    hide Freshness, JustPast;
  }

  function SecondsBefore(now: int, seconds: nat): int { now - 1000 * seconds }

  function DriverStateAt(at: LatLng, recordedAt: int): Canonical {
    Canonical(Candidate(DriverMobile, Healthy, recordedAt, Reading(at, None)), DriverOnly)
  }

  function GpsRowAt(at: LatLng, status: SourceStatus, recordedAt: int): SourceRow {
    SourceRow(None, status, Some(recordedAt), Some(Reading(at, None)), false)
  }

  /** An unhealthy GPS reading of this instant and a driver about to be disconnected. */
  function UnhealthyGpsInputs(cfg: Settings, now: int, at: LatLng): Inputs {
    Inputs(now, Some(GpsDevice), Some(DriverStateAt(at, SecondsBefore(now, cfg.driverDisconnectAfter))), "",
      Some(GpsRowAt(at, Unhealthy, now)))
  }

  /** A GPS reading that has just gone stale and a driver about to. */
  function StaleGpsInputs(cfg: Settings, now: int, at: LatLng): Inputs {
    Inputs(now, Some(GpsDevice),
      Some(DriverStateAt(at, SecondsBefore(now, Least(cfg.driverStaleAfter, cfg.driverDisconnectAfter)))), "",
      Some(GpsRowAt(at, Healthy, SecondsBefore(now, cfg.gpsStaleAfter) - 1)))
  }

  /** A driver that has just gone stale and a GPS reading about to. */
  function StaleDriverInputs(cfg: Settings, now: int, at: LatLng): Inputs {
    Inputs(now, Some(DriverMobile), Some(DriverStateAt(at, SecondsBefore(now, cfg.driverStaleAfter) - 1)), "",
      Some(GpsRowAt(at, Healthy, SecondsBefore(now, Least(cfg.gpsStaleAfter, cfg.gpsDisconnectAfter)))))
  }

  /** One of three inputs attains the least lead, so a gap that covers it lets a healthier source lose. */
  lemma LeastLeadIsAttained(cfg: Settings, now: int, at: LatLng) returns (i: Inputs)
    requires cfg.hysteresisGap as real >= LeastLead(cfg)
    ensures i in {UnhealthyGpsInputs(cfg, now, at), StaleGpsInputs(cfg, now, at), StaleDriverInputs(cfg, now, at)}
    ensures PassesOverHealthier(ContestOf(cfg, i), cfg.hysteresisGap, cfg.stickyWindow)
  {
    UnhealthyGpsPasses(cfg, now, at);
    StaleGpsPasses(cfg, now, at);
    StaleDriverPasses(cfg, now, at);
    hide PassesOverHealthier, UnhealthyGpsInputs, StaleGpsInputs, StaleDriverInputs, ContestOf;
    i := UnhealthyGpsInputs(cfg, now, at);
    if KeptStale(cfg.gpsStaleAfter, cfg.gpsDisconnectAfter, cfg.stickyWindow)
      && cfg.hysteresisGap as real >= StaleGpsLead(cfg) {
      i := StaleGpsInputs(cfg, now, at);
    } else if KeptStale(cfg.driverStaleAfter, cfg.driverDisconnectAfter, cfg.stickyWindow)
      && cfg.hysteresisGap as real >= StaleDriverLead(cfg) {
      i := StaleDriverInputs(cfg, now, at);
    }
  }

  lemma UnhealthyGpsPasses(cfg: Settings, now: int, at: LatLng)
    ensures cfg.hysteresisGap as real >= UnhealthyGpsLead(cfg) ==>
      PassesOverHealthier(ContestOf(cfg, UnhealthyGpsInputs(cfg, now, at)), cfg.hysteresisGap, cfg.stickyWindow)
  {
    var c := ContestOf(cfg, UnhealthyGpsInputs(cfg, now, at));
    assert SecondsSince(now, now) == 0.0;
    AgeOf(now, cfg.driverDisconnectAfter);
    hide SecondsSince, Freshness;
    assert Freshness(0.0) == 120.0 by { FreshNow(); }
  }

  lemma FreshNow()
    ensures Freshness(0.0) == 120.0
  {}

  lemma AgeOf(now: int, seconds: nat)
    ensures SecondsSince(now, SecondsBefore(now, seconds)) == seconds as real
    ensures SecondsSince(now, SecondsBefore(now, seconds) - 1) == JustPast(seconds)
  {}

  lemma StaleGpsPasses(cfg: Settings, now: int, at: LatLng)
    ensures (KeptStale(cfg.gpsStaleAfter, cfg.gpsDisconnectAfter, cfg.stickyWindow)
             && cfg.hysteresisGap as real >= StaleGpsLead(cfg)) ==>
      PassesOverHealthier(ContestOf(cfg, StaleGpsInputs(cfg, now, at)), cfg.hysteresisGap, cfg.stickyWindow)
  {
    AgeOf(now, cfg.gpsStaleAfter);
    AgeOf(now, Least(cfg.driverStaleAfter, cfg.driverDisconnectAfter));
    hide SecondsSince, Freshness, SecondsBefore;
  }

  lemma StaleDriverPasses(cfg: Settings, now: int, at: LatLng)
    ensures (KeptStale(cfg.driverStaleAfter, cfg.driverDisconnectAfter, cfg.stickyWindow)
             && cfg.hysteresisGap as real >= StaleDriverLead(cfg)) ==>
      PassesOverHealthier(ContestOf(cfg, StaleDriverInputs(cfg, now, at)), cfg.hysteresisGap, cfg.stickyWindow)
  {
    AgeOf(now, cfg.driverStaleAfter);
    AgeOf(now, Least(cfg.gpsStaleAfter, cfg.gpsDisconnectAfter));
    hide SecondsSince, Freshness, SecondsBefore;
  }

  /** A strictly healthier source is never passed over, whatever a call finds, exactly when the gap is below the
      least lead that the freshness settings admit. */
  lemma HealthierNeverPassedOverExactly(cfg: Settings)
    ensures
      (forall i: Inputs :: !PassesOverHealthier(ContestOf(cfg, i), cfg.hysteresisGap, cfg.stickyWindow))
      <==> (cfg.hysteresisGap as real) < LeastLead(cfg)
  {
    hide PassesOverHealthier, ContestOf, LeastLead, WinnerScore, SecondsSince, IsDerived, HealthRank;
    if (cfg.hysteresisGap as real) < LeastLead(cfg) {
      forall i: Inputs ensures !PassesOverHealthier(ContestOf(cfg, i), cfg.hysteresisGap, cfg.stickyWindow) {
        CandidatesAreDerived(cfg, i);
        var c := ContestOf(cfg, i);
        if PassesOverHealthier(c, cfg.hysteresisGap, cfg.stickyWindow) {
          PassingIsKeeping(c, cfg.hysteresisGap, cfg.stickyWindow);
          TypesOfContest(cfg, i);
          if c.previous.value == GpsDevice {
            LeadIsAtLeast(cfg, i.now, c.gps.value, c.driver.value);
          } else {
            LeadIsAtLeast(cfg, i.now, c.driver.value, c.gps.value);
          }
        }
      }
    } else {
      var i := LeastLeadIsAttained(cfg, 0, LatLng(0.0, 0.0));
    }
  }

  lemma TypesOfContest(cfg: Settings, i: Inputs)
    ensures ContestOf(cfg, i).now == i.now
    ensures ContestOf(cfg, i).driver.Some? ==> ContestOf(cfg, i).driver.value.sourceType == DriverMobile
    ensures ContestOf(cfg, i).gps.Some? ==> ContestOf(cfg, i).gps.value.sourceType == GpsDevice
  {}

  /** The defaults (src/config/env.ts), with any gap in place of 25. */
  function Defaults(gap: nat): Settings {
    Settings(35, 90, 90, 180, gap, 45, 120)
  }

  /** At the default freshness settings the least lead is 295. */
  lemma DefaultsPreferHealthExactly(gap: nat)
    ensures
      (forall i: Inputs :: !PassesOverHealthier(ContestOf(Defaults(gap), i), gap, 45)) <==> gap < 295
  {
    HealthierNeverPassedOverExactly(Defaults(gap));
    hide PassesOverHealthier, ContestOf;
    assert LeastLead(Defaults(gap)) == 295.0;
  }

  // ---- Whole runs ----

  /** A call, given by what it was up against, or the expiry of the last good state in Redis. */
  datatype Event = Call(c: Contest) | Lapse

  /** The states kept after a run. */
  function After(cfg: Settings, es: seq<Event>): Memory {
    if es == [] then Memory(None, None)
    else
      var m, e := After(cfg, es[..|es| - 1]), es[|es| - 1];
      if e.Lapse? then m.(lastGood := None) else NextMemory(cfg, e.c, m.lastGood)
  }

  /** The event replaces the last good state, or drops it. */
  predicate Replaces(cfg: Settings, e: Event) {
    e.Lapse? || HasGoodWinner(cfg, e.c)
  }

  /** Event i is the last call with a good winner, and what it stored has not expired. */
  ghost predicate LastGoodCall(cfg: Settings, es: seq<Event>, i: nat) {
    && i < |es| && es[i].Call? && HasGoodWinner(cfg, es[i].c)
    && forall j :: i < j < |es| ==> !Replaces(cfg, es[j])
  }

  /** The last good state is the winner of the last call that had a healthy or stale one, until it expires. */
  lemma {:induction false} LastGoodIsLastGoodWinner(cfg: Settings, es: seq<Event>) returns (i: nat)
    ensures
      var lastGood := After(cfg, es).lastGood;
      && (lastGood.None? ==> forall j: nat :: !LastGoodCall(cfg, es, j))
      && (lastGood.Some? ==> (LastGoodCall(cfg, es, i) && lastGood.value.candidate == WinnerOf(cfg, es[i].c)))
  {
    hide ChooseWinner;
    i := 0;
    if es != [] {
      var rest, e := es[..|es| - 1], es[|es| - 1];
      i := LastGoodIsLastGoodWinner(cfg, rest);
      assert forall j :: 0 <= j < |rest| ==> es[j] == rest[j];
      if e.Call? && HasGoodWinner(cfg, e.c) {
        i := |rest|;
      } else {
        forall j: nat | LastGoodCall(cfg, es, j) ensures e.Call? && LastGoodCall(cfg, rest, j) {
          assert !(j == |rest|);
        }
      }
    }
  }

  /** In every run, a call that finds no source publishes the winner of the last call that had a good one, marked
      stale, exactly while it is stored and its reading is within the grace period. */
  lemma HoldsLastGoodExactly(cfg: Settings, es: seq<Event>, c: Contest)
    requires c.driver.None? && c.gps.None?
    ensures
      After(cfg, es + [Call(c)]).selected.Some? <==>
        exists i: nat :: LastGoodCall(cfg, es, i) && WithinGrace(cfg, c.now, es[i].c)
    ensures
      var selected := After(cfg, es + [Call(c)]).selected;
      forall i: nat :: selected.Some? && LastGoodCall(cfg, es, i) ==>
        selected == Some(Canonical(WinnerOf(cfg, es[i].c).(status := Stale), HoldLastGoodState))
  {
    var k := LastGoodIsLastGoodWinner(cfg, es);
    assert (es + [Call(c)])[..|es|] == es;
    assert forall i: nat :: LastGoodCall(cfg, es, i) ==> After(cfg, es).lastGood.Some? && i == k;
    NothingToChoose(cfg, c);
    hide ChooseWinner, SecondsSince, HasGoodWinner;
  }

  lemma NothingToChoose(cfg: Settings, c: Contest)
    requires c.driver.None? && c.gps.None?
    ensures ChooseWinner(c, cfg.hysteresisGap, cfg.stickyWindow) == None
  {}

  function WinnerOf(cfg: Settings, c: Contest): Candidate
    requires HasGoodWinner(cfg, c)
  {
    ChooseWinner(c, cfg.hysteresisGap, cfg.stickyWindow).value.candidate
  }

  predicate WithinGrace(cfg: Settings, now: int, c: Contest) {
    HasGoodWinner(cfg, c) && SecondsSince(now, WinnerOf(cfg, c).recordedAt) <= cfg.lastGoodHold as real
  }
}
