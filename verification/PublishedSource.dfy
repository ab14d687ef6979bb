/** What a published state tells about the sources it was chosen from (src/services/sourceArbitration.service.ts). */
module PublishedSource {
  import opened Wrappers
  import opened SourceArbitration

  // ---- Candidates ----

  /** How old a reading is, in milliseconds. */
  function AgeMs(now: int, recordedAt: int): nat {
    if now > recordedAt then now - recordedAt else 0
  }

  lemma AgeIs(now: int, recordedAt: int)
    ensures SecondsSince(now, recordedAt) * 1000.0 == AgeMs(now, recordedAt) as real
  {}

  /** The status by age: disconnected past its limit, else stale past the other one, else healthy. */
  lemma StatusByAge(now: int, recordedAt: int, staleAfter: nat, disconnectAfter: nat)
    ensures
      var status, age := DeriveStatus(now, recordedAt, staleAfter, disconnectAfter), AgeMs(now, recordedAt);
      && (status == Disconnected <==> age > 1000 * disconnectAfter)
      && (status == Stale <==> 1000 * staleAfter < age <= 1000 * disconnectAfter)
      && (status == Healthy <==> age <= 1000 * staleAfter && age <= 1000 * disconnectAfter)
      && status != Unhealthy
  {
    AgeIs(now, recordedAt);
    WholeSeconds(AgeMs(now, recordedAt), staleAfter);
    WholeSeconds(AgeMs(now, recordedAt), disconnectAfter);
    hide SecondsSince, AgeMs;
  }

  lemma WholeSeconds(ms: nat, seconds: nat)
    ensures ms > 1000 * seconds <==> ms as real > 1000.0 * (seconds as real)
  {
    assert (1000 * seconds) as real == 1000.0 * (seconds as real);
  }

  /** A driver takes part whenever it has a state, a GPS device whenever its row is free or the trip's and complete;
      what
      an ingesting service found unhealthy or disconnected stays so, and all other statuses go by age. */
  lemma CandidatesExactly(cfg: Settings, i: Inputs)
    ensures
      var c := ContestOf(cfg, i);
      && (c.driver.None? <==> i.driverState.None?)
      && (c.driver.Some? ==>
            var state := i.driverState.value.candidate;
            && c.driver.value.recordedAt == state.recordedAt && c.driver.value.reading == state.reading
            && c.driver.value.status ==
                 DeriveStatus(i.now, state.recordedAt, cfg.driverStaleAfter, cfg.driverDisconnectAfter))
      && (c.gps.Some? <==> i.row.Some? && TakesPart(i.row.value, i.tripId))
      && (c.gps.Some? ==>
            var row := i.row.value;
            && c.gps.value.recordedAt == row.recordedAt.value && c.gps.value.reading == row.reading.value
            && (row.status in {Unhealthy, Disconnected} ==> c.gps.value.status == row.status)
            && (row.status !in {Unhealthy, Disconnected} ==>
                  c.gps.value.status ==
                    DeriveStatus(i.now, row.recordedAt.value, cfg.gpsStaleAfter, cfg.gpsDisconnectAfter)))
  {
    hide DeriveStatus;
  }

  /** A row of another trip takes no part: every call goes as it would without a row. */
  lemma ForeignRowIsIgnored(cfg: Settings, i: Inputs)
    requires i.row.Some? && i.row.value.tripId.Some? && i.row.value.tripId.value != i.tripId
    ensures ContestOf(cfg, i) == ContestOf(cfg, i.(row := None))
  {}

  // ---- Scores and reasons ----

  /** A score is 1000, 600, 200 or 0 by status, a point for each second below two minutes, and 15 for GPS. */
  lemma ScoreExactly(now: int, c: Candidate)
    ensures
      var base :=
        if c.status == Healthy then 1000.0 else if c.status == Stale then 600.0
        else if c.status == Unhealthy then 200.0 else 0.0;
      var bias, ms := if c.sourceType == GpsDevice then 15.0 else 0.0, AgeMs(now, c.recordedAt);
      && (ms >= 120_000 ==> WinnerScore(now, c) == base + bias)
      && (ms <= 120_000 ==> WinnerScore(now, c) == base + bias + (120_000 - ms) as real / 1000.0)
  {
    AgeIs(now, c.recordedAt);
    hide SecondsSince, AgeMs;
  }

  /** The source published last, if it is among the candidates. */
  function Previous(c: Contest): Option<Candidate> {
    if c.previous == Some(GpsDevice) then c.gps else if c.previous == Some(DriverMobile) then c.driver else None
  }

  function Other(c: Contest): Option<Candidate> {
    if c.previous == Some(GpsDevice) then c.driver else c.gps
  }

  /** The source published last is kept exactly while it is recent, connected and trails the other by the gap at most.
      */
  lemma KeepsExactly(c: Contest, gap: nat, sticky: nat)
    requires c.WellTyped()
    ensures
      var w, previous, other := ChooseWinner(c, gap, sticky), Previous(c), Other(c);
      (w.Some? && w.value.reason == StickyPreviousSource) <==>
        && previous.Some? && previous.value.status != Disconnected
        && AgeMs(c.now, previous.value.recordedAt) <= 1000 * sticky
        && (other.Some? ==>
              WinnerScore(c.now, other.value) - WinnerScore(c.now, previous.value) <= gap as real)
    ensures
      var w := ChooseWinner(c, gap, sticky);
      w.Some? && w.value.reason == StickyPreviousSource ==> Previous(c) == Some(w.value.candidate)
  {
    var previous := Previous(c);
    if previous.Some? {
      AgeIs(c.now, previous.value.recordedAt);
      WholeSeconds(AgeMs(c.now, previous.value.recordedAt), sticky);
      ScoreIsPositive(c.now, previous.value);
    }
    hide WinnerScore, SecondsSince, AgeMs;
  }

  lemma ScoreIsPositive(now: int, c: Candidate)
    ensures WinnerScore(now, c) >= 0.0
  {}

  /** Every other reason says what it names about the two candidates. */
  lemma ReasonsAreTrue(c: Contest, gap: nat, sticky: nat)
    requires c.WellTyped() && ChooseWinner(c, gap, sticky).Some?
    requires ChooseWinner(c, gap, sticky).value.reason != StickyPreviousSource
    ensures
      var w := ChooseWinner(c, gap, sticky).value;
      var gpsHealthy := c.gps.Some? && c.gps.value.status == Healthy;
      var driverHealthy := c.driver.Some? && c.driver.value.status == Healthy;
      var isGps := w.candidate.sourceType == GpsDevice;
      && (w.reason == GpsPriority <==> isGps && gpsHealthy && driverHealthy)
      && (w.reason == DriverFallbackToGps <==> isGps && gpsHealthy && !driverHealthy)
      && (w.reason == DriverPriority <==> !isGps && driverHealthy && gpsHealthy)
      && (w.reason == GpsFallbackToDriver <==> !isGps && driverHealthy && !gpsHealthy)
      && (w.reason == GpsOnly <==> c.driver.None? && !gpsHealthy)
      && (w.reason == DriverOnly <==> c.gps.None? && !driverHealthy)
      && (w.reason == MostRecentHealthy <==> c.gps.Some? && c.driver.Some? && w.candidate.status != Healthy)
  {
    hide WinnerScore, SecondsSince, CanKeepPreviousSource;
  }

  // ---- Whole runs of one trip ----

  /** The calls of a run with what each found, or the expiry of the last good state. */
  function Calls(cfg: Settings, inputs: seq<Option<Inputs>>): (es: seq<Event>)
    ensures |es| == |inputs|
  {
    if inputs == [] then []
    else
      var last := inputs[|inputs| - 1];
      Calls(cfg, inputs[..|inputs| - 1]) + [if last.Some? then Call(ContestOf(cfg, last.value)) else Lapse]
  }

  /** The candidate repeats the GPS row, free or the trip's, that call j found. */
  predicate IsRowOf(inputs: seq<Option<Inputs>>, j: nat, tripId: string, c: Candidate)
    requires j < |inputs|
  {
    && inputs[j].Some? && inputs[j].value.row.Some?
    && inputs[j].value.row.value.tripId in {None, Some(tripId)}
    && inputs[j].value.row.value.recordedAt == Some(c.recordedAt)
    && inputs[j].value.row.value.reading == Some(c.reading)
  }

  /** A GPS state comes from a row that some call of the run found. */
  ghost predicate IsOwn(inputs: seq<Option<Inputs>>, tripId: string, state: Option<Canonical>) {
    state.Some? && state.value.candidate.sourceType == GpsDevice ==>
      exists j: nat :: j < |inputs| && IsRowOf(inputs, j, tripId, state.value.candidate)
  }

  lemma OwnStays(inputs: seq<Option<Inputs>>, i: Option<Inputs>, tripId: string, state: Option<Canonical>)
    requires IsOwn(inputs, tripId, state)
    ensures IsOwn(inputs + [i], tripId, state)
  {
    if state.Some? && state.value.candidate.sourceType == GpsDevice {
      var j: nat :| j < |inputs| && IsRowOf(inputs, j, tripId, state.value.candidate);
      assert IsRowOf(inputs + [i], j, tripId, state.value.candidate);
    }
  }

  /** A chosen GPS candidate is the row that this call found. */
  lemma ChosenIsRow(cfg: Settings, i: Inputs)
    ensures
      var w := ChooseWinner(ContestOf(cfg, i), cfg.hysteresisGap, cfg.stickyWindow);
      w.Some? && w.value.candidate.sourceType == GpsDevice ==>
        IsRowOf([Some(i)], 0, i.tripId, w.value.candidate)
  {
    var c := ContestOf(cfg, i);
    CandidatesAreDerived(cfg, i);
    CandidatesExactly(cfg, i);
    ChoiceIsNearOptimal(c, cfg.hysteresisGap, cfg.stickyWindow);
    hide ChooseWinner, ContestOf, DeriveStatus;
  }

  /** In every run of calls for one trip, whatever rows other trips put in between, a GPS position that is published or
      held as the last good one is that of a row which was free or this trip's when a call found it. */
  lemma {:induction false} GpsStatesAreOwn(cfg: Settings, inputs: seq<Option<Inputs>>, tripId: string)
    requires forall j :: 0 <= j < |inputs| && inputs[j].Some? ==> inputs[j].value.tripId == tripId
    ensures
      var m := After(cfg, Calls(cfg, inputs));
      IsOwn(inputs, tripId, m.selected) && IsOwn(inputs, tripId, m.lastGood)
  {
    hide IsOwn, ChooseWinner, ContestOf, SecondsSince;
    if inputs == [] {
      NothingIsOwn(tripId);
    } else {
      var rest, last := inputs[..|inputs| - 1], inputs[|inputs| - 1];
      GpsStatesAreOwn(cfg, rest, tripId);
      assert inputs == rest + [last];
      var es, m := Calls(cfg, rest), After(cfg, Calls(cfg, rest));
      var e := if last.Some? then Call(ContestOf(cfg, last.value)) else Lapse;
      assert Calls(cfg, inputs) == es + [e] && (es + [e])[..|es|] == es;
      OwnStays(rest, last, tripId, m.selected);
      OwnStays(rest, last, tripId, m.lastGood);
      NoneIsOwn(inputs, tripId);
      if last.Some? { CallKeepsOwn(cfg, rest, last.value, m.lastGood); }
    }
  }

  lemma NothingIsOwn(tripId: string)
    ensures IsOwn([], tripId, None)
  {}

  lemma NoneIsOwn(inputs: seq<Option<Inputs>>, tripId: string)
    ensures IsOwn(inputs, tripId, None)
  {}

  lemma CallKeepsOwn(cfg: Settings, rest: seq<Option<Inputs>>, i: Inputs, lastGood: Option<Canonical>)
    requires IsOwn(rest + [Some(i)], i.tripId, lastGood)
    ensures
      var m := NextMemory(cfg, ContestOf(cfg, i), lastGood);
      IsOwn(rest + [Some(i)], i.tripId, m.selected) && IsOwn(rest + [Some(i)], i.tripId, m.lastGood)
  {
    ChosenIsRow(cfg, i);
    var inputs, w := rest + [Some(i)], ChooseWinner(ContestOf(cfg, i), cfg.hysteresisGap, cfg.stickyWindow);
    hide ChooseWinner, ContestOf, SecondsSince, IsRowOf;
    if lastGood.Some? { HeldIsOwn(inputs, i.tripId, lastGood.value); }
    if w.Some? && w.value.candidate.sourceType == GpsDevice {
      RowAtEnd(rest, i, w.value.candidate);
      assert IsRowOf(inputs, |rest|, i.tripId, w.value.candidate);
    }
  }

  lemma RowAtEnd(rest: seq<Option<Inputs>>, i: Inputs, c: Candidate)
    requires IsRowOf([Some(i)], 0, i.tripId, c)
    ensures IsRowOf(rest + [Some(i)], |rest|, i.tripId, c)
  {}

  /** Holding on to a state changes its status alone. */
  lemma HeldIsOwn(inputs: seq<Option<Inputs>>, tripId: string, state: Canonical)
    requires IsOwn(inputs, tripId, Some(state))
    ensures IsOwn(inputs, tripId, Some(Canonical(state.candidate.(status := Stale), HoldLastGoodState)))
  {
    if state.candidate.sourceType == GpsDevice {
      var j: nat :| j < |inputs| && IsRowOf(inputs, j, tripId, state.candidate);
      assert IsRowOf(inputs, j, tripId, state.candidate.(status := Stale));
    }
  }
}
