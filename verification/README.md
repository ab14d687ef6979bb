# Verified models of the bus-tracking backend

The backend follows buses on their routes: it takes positions from drivers' phones and GPS devices, starts and ends
trips, records arrivals at stops, estimates arrival times and keeps a shared Redis store consistent among many
concurrent requests. These Dafny modules model the services in which that logic lives and prove what they promise,
for every input, every run and every interleaving. `dafny verify dfyconfig.toml` checks all of them.

**Redis protocols.** `Redis` is a store of keys with expiry times and the atomic commands SET, SET NX, GET, DEL and
compare-and-delete. Each protocol is modelled twice: as a class whose methods are the service's functions, called one
at a time, and as a machine whose events are the individual commands of any number of callers, with time passing in
between. `TripLock` is the token lock, `Idempotency` the request record, `StopsCache` the versioned cache of stop
lists, and `TripStart` the sequence lock, recheck, create, release, built on the machine of `TripLock`. `TripWrites`
interleaves the reads and writes of one trip row. Lifetimes are
the configured defaults (10 seconds for the lock, one hour for the record).

**Per-packet state machines.** `Arrival`, `PreTripPhase`, `TripLifecycle`, `SourceArbitration`, `TrackingFilter` and
`RefreshTokens` each give the service as a class or method that updates the stored state, the same step as a function,
and theorems about every run of that function. `Arriving`, `FinalStop`, `PublishedSource` and `TrackedSpeed` add when
things must happen and what the published values mean, in terms of distances, times and rows; `DriverTrips` does so for
trips per driver and `NextStop` for the stop ahead.

**Arithmetic.** `RouteProgress`, `Eta`, `RouteMetrics`, `TrackingFilter` and `DisplaySpeed` work over the reals, with
the source's roundings written out in `Rounding`. Great-circle distance is any non-negative function of two
positions (`Geo.Metric`); the local projection is any function that yields a fraction between 0 and 1 and a
non-negative distance (`RouteProgress.Projector`). `Calendar` and `NextDeparture` compute with integer milliseconds
and ECMAScript's civil calendar.

**A codec.** `Polyline` is the decoder of encoded polylines with JavaScript's 32-bit operators, together with the
encoder of Google's Encoded Polyline Algorithm Format.

## What the code does differently from what one may expect

Where a natural statement is false of the code, the code is modelled as it is; a lemma gives the failing input and
another one says exactly when the statement holds.

- The comments at `src/services/arrival.service.ts:13` and `:355-357` say that a bus must *stay* within a stop's radius
  for the dwell time. The code only looks at the age of the first packet seen there: leaving the radius in between
  changes nothing while the 90-second marker lives (`Arrival.ClippingTwiceIsArriving`). `Arrival.LeavingDoesNotEndDwell`
  says exactly when the arrival is confirmed; `Arrival.DwellIsUnbrokenExactly` merely restates staying for a caller that remembers the last packet from outside.
- A stop's scheduled time is always placed on the Dhaka day of the arrival, so two minutes late for 23:59 is 1438
  minutes early (`Arrival.LateAcrossMidnightIsEarly`); `Arrival.ClosestOfAllDaysExactly` says when the choice is right.
- The first INCR of an absent version key yields the default version, so the first invalidation of a route need not
  take effect, even with an empty cache (`StopsCache.SlowReaderOutlivesInvalidation`);
  `StopsCache.InvalidationTakesEffectExactly` says when every later read is fresh.
- A start that fails can call `failIdempotentRequest` twice and delete its successor's record, in progress or completed
  (`Idempotency.DoubleFailLetsTwoOwnersIn`, `Idempotency.DoubleFailRepeatsACompletedRequest`); it changes nothing exactly
  when the key is absent (`Idempotency.SecondFailIsHarmlessExactlyWhenAbsent`).
- A starter that outlives its lock can create a second running trip (`TripStart.SlowSectionBreaksIt`); the deadlines that
  exclude it are those up to the lock's lifetime (`TripStart.DeadlineSufficesExactly`).
- An owner that takes longer than its record lives can be joined by a second one (`Idempotency.SlowOwnerIsReplaced`,
  `Idempotency.DeadlineSufficesExactly`).
- Finalizing and promoting read a trip's status first and write by id alone, so a second finalizer can move the end time
  and a late promotion can revive an ended trip (`TripWrites.SecondFinalizerMovesEndTime`,
  `TripWrites.LatePromotionRevives`); `TripWrites.EndIsFinalExactlyWhenSettled` says when the end is final.
- A promotion from PRE_TRIP looks at no other trip and takes no lock, so it can make a second running trip, at once or by
  overtaking a starter (`TripStart.PromotionSlipsIn`); `TripStart.PromotionIsSafeExactlyWhenUncontested` says when it cannot.
- A large hysteresis gap keeps a source although a strictly healthier one is there
  (`SourceArbitration.LeastLeadIsAttained`); `SourceArbitration.HealthierNeverPassedOverExactly` gives the gap, 295 at the
  default freshness settings, where 25 is configured.
- `etaMinutes` is computed from the rounded distance and the first entry of `stopEtas` from the exact one, so they may
  differ (`Eta.HeadEtasCanDiffer`); `Eta.HeadEtasAgreeExactly` says when they agree and when a minute covers the
  difference, which at 0.03 km/h or more it always does (`Eta.MinuteSufficesExactlyFrom`).
- `Date.UTC` reads the years 0 to 99 as 1900 to 1999, so the next departure is the earliest one exactly when no date
  involved lies in those years (`NextDeparture.YearFiftyIsMisread`, `NextDeparture.NextOccurrenceIsEarliestExactly`).
- The rolling average is limited by the segment limit and not by the server's speed limit
  (`TrackingFilter.AverageCanExceedServerLimit`); `TrackingFilter.AverageBelowServerLimitExactly` says when the latter
  holds as well.
- The polyline decoder works in 32 bits, so it inverts the encoder exactly when every step fits in 31 bits
  (`Polyline.LeastMisfitTurns`, `Polyline.DecodeUndoesEncode`); on the globe every step does.
- Negative distances from the routing service are stored as they come (`RouteMetrics.NegativeLegIsStored`);
  `RouteMetrics.MetricsValidExactly` says which replies yield a valid series.

## Model

| member | source | states |
|---|---|---|
| TripLock.TripLockService.Acquire | src/services/tripLock.service.ts:31-66 | which of the three results is returned, exactly; a refusal leaves the store untouched; an acquisition adds its own bus and driver key under a new token with the lock's lifetime and changes no other entry |
| TripLock.TripLockService.ReleaseKey | src/services/tripLock.service.ts:68-83 | afterwards the key is gone unless another token holds it; every other key and every surviving entry is as before |
| TripLock.TripLockService.Release | src/services/tripLock.service.ts:85-92 | removes the lock's own keys that still hold its token and nothing else |
| TripLock.TripLockService.AcquireThenRelease | src/services/tripLock.service.ts:31-92 | releasing undoes acquiring: the store is as before, whatever the result was |
| TripLock.InvariantAlways | src/services/tripLock.service.ts:31-92 | in every interleaving of commands and expiries, stored keys and unexpired owners correspond |
| TripLock.OnlyOwnKeysAreRemoved | src/services/tripLock.service.ts:68-92 | in every run, whatever the other callers acquire, roll back or release, a key stays with its token until that token's caller gives it back or its lifetime is over |
| TripLock.RefusedHoldsNothing | src/services/tripLock.service.ts:50-66 | in every interleaving a refused or released caller has no key left under its token |
| TripLock.MutualExclusion | src/services/tripLock.service.ts:31-66 | in every interleaving two unexpired acquisitions share neither a bus key nor a driver key |
| TripLock.UninterruptedAcquire | src/services/tripLock.service.ts:31-66 | the commands of an acquisition run without interruption change the store as the Acquire method does |
| TripStart.CreateStep | src/services/telematicsLifecycle.service.ts:423-551 | creating under a live lock keeps one running trip per bus, since the recheck was made under that lock |
| TripStart.InvariantAlways | src/services/telematicsLifecycle.service.ts:423-551 | in every disciplined run, a starter cleared by its recheck has no competitor while its lock lives |
| TripStart.OneRunningTripPerBus | src/services/trip.service.ts:689-825 | in every interleaving of telematics, driver and admin starters whose sections finish within the lock's lifetime, safe promotions included, no bus has two running trips |
| TripStart.DeadlineSufficesExactly | src/services/tripLock.service.ts:4 | a deadline on the time from taking the lock to creating the trip keeps one running trip per bus in every run without promotions if and only if it does not exceed the lock's lifetime |
| TripStart.PromoteStep | src/services/preTripPromotion.service.ts:14-53 | the write of a promotion, its read possibly out of date, keeps the invariant of the start protocol if and only if the bus has no running trip and no starter of it, its lock alive, stands between recheck and create |
| TripStart.PromotionIsSafeExactlyWhenUncontested | src/services/preTripPromotion.service.ts:14-53 | over all disciplined continuations, a promotion leads to no second running trip under that same condition and no other |
| TripStart.PromotionSlipsIn | src/services/preTripPromotion.service.ts:14-53 | a run in which a promotion meets an idle bus and the create it overtook gives the bus a second running trip |
| TripStart.SlowSectionBreaksIt | src/services/tripLock.service.ts:4 | for every longer deadline a run that meets it, without promotions, in which a bus gets two running trips |
| DriverTrips.OneRunningTripPerDriver | src/services/adminOperations.service.ts:63-136 | in every interleaving of administrators' starters that create under live locks, without promotions, no driver has two running trips |
| DriverTrips.CreateKeepsDriversExactly | src/services/adminOperations.service.ts:89-104 | a create keeps one running trip per driver if and only if the driver has none at that moment, which only the administrators' recheck looks at |
| DriverTrips.DriverStartsTwice | src/services/trip.service.ts:708-716 | a run in which a driver's own start, which looks at the bus alone, gives the driver a second running trip |
| TripStart.TripStarter.StartTrip | src/services/adminOperations.service.ts:63-136 | a started trip met no running trip of its bus, for the telematics starter no waiting one either, and for an administrator none of its driver; an active trip is reported only when one stands in the way; the lock decides refusals, and is given back on every path |
| TripStart.BlockedExactly | src/services/adminOperations.service.ts:75-105 | the queries of the recheck find something if and only if some trip stands in the way of this starter |
| Idempotency.IdempotencyService.Begin | src/services/idempotency.service.ts:43-87 | only an absent record is claimed; another fingerprint conflicts, a completed record is replayed word for word, one in progress is busy |
| Idempotency.IdempotencyService.Complete | src/services/idempotency.service.ts:89-110 | the record holds the response for the full lifetime |
| Idempotency.IdempotencyService.Fail | src/services/idempotency.service.ts:112-116 | removes this record and no other |
| Idempotency.IdempotencyService.RetryAfterCompletion | src/services/idempotency.service.ts:43-110 | a retry gets exactly the stored response, or a conflict for another fingerprint |
| Idempotency.InvariantAlways | src/services/idempotency.service.ts:43-116 | in every disciplined interleaving owners and records in progress correspond and every completed record is somebody's completion |
| Idempotency.AtMostOneOwner | src/services/idempotency.service.ts:43-87 | with one complete or fail call per owner before its record expires, at most one caller proceeds with a key at a time |
| Idempotency.DeadlineSufficesExactly | src/services/idempotency.service.ts:5 | a deadline on the time from the claim to the complete or fail call keeps one owner per key in every run if and only if it does not exceed the record's lifetime |
| Idempotency.SlowOwnerIsReplaced | src/services/idempotency.service.ts:5 | for every longer deadline a run that meets it in which two callers own one key |
| Idempotency.OwnedKeyTurnsOthersAway | src/services/idempotency.service.ts:43-87 | whoever looks at an owned key is told busy, or conflict for another fingerprint |
| Idempotency.VerdictsAreJustified | src/services/idempotency.service.ts:43-87 | in every disciplined run a look-up goes on to write if and only if there is no record, conflicts if and only if the record has another fingerprint, which an owner or the last completion did use, and is told to wait only for an owner of the same request |
| Idempotency.ReplayIsFaithful | src/services/idempotency.service.ts:89-110 | a replayed response is the one stored by a finished owner of the same key and fingerprint |
| Idempotency.SecondFailIsHarmlessExactlyWhenAbsent | src/services/trip.service.ts:827 | a second fail call leaves the state and every new look-up as they were if and only if the key is absent by then; a completed record's replay turns into a fresh start |
| Idempotency.SecondFailKeepsExclusionExactlyWhenUnowned | src/services/trip.service.ts:827 | over all disciplined continuations, a second fail call never lets two callers own one key if and only if nobody owns the key by then; about owners only |
| Idempotency.DoubleFailLetsTwoOwnersIn | src/services/trip.service.ts:680 | a run in which failing twice lets two callers own one key |
| Idempotency.DoubleFailRepeatsACompletedRequest | src/services/trip.service.ts:680 | a run in which failing twice deletes a stored response that nobody owned, and the completed request is carried out again |
| StopsCache.TripStopsCache.RouteVersion | src/services/tripStopsCache.service.ts:24-29 | no cache entry carries a later version than the current one |
| StopsCache.TripStopsCache.InvalidateStops | src/services/tripStopsCache.service.ts:31-33 | with a counter the version goes up and no entry can be found under it; without one the version stays the default; other routes keep theirs |
| StopsCache.TripStopsCache.GetStops | src/services/tripStopsCache.service.ts:35-67 | a hit under the current version, else the database row which is then cached, else not found |
| StopsCache.TripStopsCache.SaveStops | src/controllers/routeStop.controller.ts:268-306 | stores the stops and, once there is a counter, leaves no entry under the new version |
| StopsCache.TripStopsCache.SaveThenGet | src/services/tripStopsCache.service.ts:24-67 | which stops the next read sees after a save, with and without a counter |
| StopsCache.InvariantAlways | src/services/tripStopsCache.service.ts:24-67 | in every interleaving each entry is a database row no older than the moment its version came up |
| StopsCache.ReadsAfterInvalidationAreFresh | src/services/tripStopsCache.service.ts:24-67 | once there is a counter, a read begun after an invalidation returned never yields stops older than that writer's commit, whatever slower readers write back |
| StopsCache.InvalidationTakesEffectExactly | src/services/tripStopsCache.service.ts:24-67 | over all continuations, every read begun after the invalidation yields stops no older than the writer's commit if and only if there was a counter, or nothing older is cached or held by a slow reader under the default version |
| StopsCache.SlowReaderOutlivesInvalidation | src/services/tripStopsCache.service.ts:24-67 | a run from an empty cache in which a slow reader writes old stops back after the first invalidation and a later reader gets them |
| RefreshTokens.SessionStore.CreateSession | src/services/auth.service.ts:97-146 | one new session in a new family holding the hash of the token returned |
| RefreshTokens.SessionStore.RotateRefreshToken | src/services/auth.service.ts:148-279 | every refusal with its effect on the sessions, and on success the new hash and token |
| RefreshTokens.SessionStore.RevokeSession | src/services/auth.service.ts:281-293 | the session, if there is one, becomes revoked and is otherwise unchanged; every other session is as before |
| RefreshTokens.SessionStore.RevokeSessionFamily | src/services/auth.service.ts:295-312 | exactly the user's sessions of the family become revoked; they are otherwise unchanged and every other session is as before |
| RefreshTokens.InvariantAlways | src/services/auth.service.ts:148-279 | in every run each session holds the hash of the last token issued for it |
| RefreshTokens.ExactlyTheLatestIsRedeemable | src/services/auth.service.ts:148-279 | in every run an unrevoked session of an active user has exactly one redeemable token, the last issued |
| RefreshTokens.IssuedTokensFailForThreeReasons | src/services/auth.service.ts:148-279 | a token the server issued is only ever refused for revocation, inactivity or reuse |
| RefreshTokens.IssuedTokenOutcomeExactly | src/services/auth.service.ts:148-279 | in every run the fate of an issued token is decided by revocation, activity and whether it is the last one, in that order, and what changes with it |
| RefreshTokens.RotationMovesOn | src/services/auth.service.ts:226-260 | after a rotation the new token redeems and the old one does not |
| RefreshTokens.OtherStringsAreRefused | src/services/auth.service.ts:148-180 | a string that is no signed refresh token is refused and changes nothing |
| RefreshTokens.RevokedFamilyStaysRevoked | src/services/auth.service.ts:295-312 | a revoked family stays revoked in every continuation |
| RefreshTokens.ReuseRevokesFamilyForever | src/services/auth.service.ts:226-234 | presenting a superseded token revokes the family and no token of it is ever rotated again (the pattern of section 4.14.2 of RFC 9700) |
| Arrival.TripArrivals.CreateStopArrival | src/services/arrival.service.ts:197-306 | a stop is recorded if and only if it was not yet, as one further row at the given time, against the first of its closest schedules |
| Arrival.TripArrivals.DetectStopArrival | src/services/arrival.service.ts:308-425 | the new arrivals and markers are those of the step function: waiting, dwelling, passing, or nothing |
| Arrival.Latest | src/services/stopArrivalProgress.service.ts:3-12 | an arrival with the greatest time |
| Arrival.ExpectedIsNext | src/services/arrival.service.ts:335-341 | when the arrivals are those of the first k stops, the expected stop is the next one and is not recorded yet |
| Arrival.ArrivalsArePrefix | src/services/arrival.service.ts:335-425 | in every run on a route of distinct stops with increasing packet times, the arrivals are those of the first k stops in order, each once, at strictly increasing times, back-dating and marker expiry included |
| Arrival.ArrivalsAreJustified | src/services/arrival.service.ts:351-425 | in every run each arrival is backed by two packets within the radius, the dwell time apart, the first at the recorded time, or by a packet at the recorded time that passed the stop |
| Arriving.StepExactly | src/services/arrival.service.ts:351-424 | what a packet does to arrivals and markers while a stop is next: dwelling, first seen, driving by, or nothing |
| Arriving.ArrivesExactly | src/services/arrival.service.ts:335-425 | in every run a packet adds an arrival if and only if the bus has been seen near the next stop for eight seconds or drives by it, 35 metres beyond along the route and still close; which stop and time it is |
| Arriving.PassingIsRecorded | src/services/arrival.service.ts:391-421 | in every run a bus that drives by its next stop arrives there with that packet |
| Arriving.DwellingIsRecorded | src/services/arrival.service.ts:351-388 | in every run a bus near its next stop twice, eight seconds apart, has arrived there unless the marker expired |
| Arrival.LeavingDoesNotEndDwell | src/services/arrival.service.ts:351-424 | after any packets outside the radius and any expiries, the next packet inside confirms the arrival at the marker's time if and only if the marker did not expire and is old enough |
| Arrival.ClippingTwiceIsArriving | src/services/arrival.service.ts:351-424 | three packets, the middle one outside, that record an arrival |
| Arrival.ScheduledOnTheSameDay | src/services/arrival.service.ts:41-57 | the scheduled instant lies on the Dhaka day of the arrival and less than a day from it |
| Arrival.ChosenIsClosest | src/services/arrival.service.ts:223-244 | the chosen schedule misses the arrival by no more than any other |
| Arriving.VisitTells | src/services/arrival.service.ts:246-306 | the row names a scheduled time of the timetable, the delay is the difference to it in minutes, rounded, and the status its sign |
| Arrival.ClosestOfAllDaysExactly | src/services/arrival.service.ts:223-244 | the choice is the closest departure of any day if and only if the timetable has a schedule whose miss adds up with each schedule's to a day at most |
| Arrival.LateAcrossMidnightIsEarly | src/services/arrival.service.ts:41-57 | arriving at 00:01 for 23:59 is reported as 1438 minutes early |
| PreTripPhase.PreTripRow.ApplyLocationUpdate | src/services/preTripPhase.service.ts:146-222 | the row equals the pure fold although unchanged rows are not written, and when a start is requested |
| PreTripPhase.StretchStartIsUnique | src/services/preTripPhase.service.ts:57-110 | a run has one current stretch inside the geofence at most |
| PreTripPhase.ArrivalIsStretchStart | src/services/preTripPhase.service.ts:57-110 | in every run the arrival time is set if and only if the phase is AT_ORIGIN, and is the time of the first fix of the current unbroken stretch |
| PreTripPhase.StartNeedsUnbrokenDwell | src/services/preTripPhase.service.ts:57-110 | a start is requested if and only if the current unbroken stretch began at least the dwell time ago |
| PreTripPhase.ApproachIsSticky | src/services/preTripPhase.service.ts:57-110 | from APPROACHING_ORIGIN a trip returns to AT_DEPOT only by way of AT_ORIGIN |
| PreTripPhase.PhaseIsHistory | src/services/preTripPhase.service.ts:57-110 | in every run the phase is AT_ORIGIN if and only if a stretch is under way, APPROACHING_ORIGIN if and only if the bus moved faster than 4 km/h outside since it was last inside, and else AT_DEPOT |
| PreTripPhase.InsideIsWithin120 | src/services/preTripPhase.service.ts:27-29 | inside means at most 120 metres from the origin, for a route that has one |
| TripLifecycle.TripRecord.Finalize | src/services/tripLifecycle.service.ts:121-289 | a trip is ended once; finalizing again changes neither status nor end time |
| TripLifecycle.TripRecord.MaybeAutoEnd | src/services/tripLifecycle.service.ts:291-576 | the reason and the new trip for every branch; ended if and only if the reason is one of the two automatic ones |
| FinalStop.EndsExactly | src/services/tripLifecycle.service.ts:291-576 | an evaluation ends the trip, at the packet's time, if and only if it is eligible and the bus has arrived or stood at the final stop for long enough; otherwise what becomes of the marker |
| FinalStop.ArrivingEndsTrip | src/services/tripLifecycle.service.ts:424-480 | in every run a packet that shows the bus arrived ends an eligible trip at once |
| FinalStop.StandingEndsTrip | src/services/tripLifecycle.service.ts:482-573 | in every run a bus seen standing at the final stop, and again after the configured seconds with nothing to the contrary in between, has had its trip ended |
| TripLifecycle.CandidateIsUnbroken | src/services/tripLifecycle.service.ts:482-573 | in every run, while the marker is set every test since the packet that set it found the bus near and stationary |
| TripLifecycle.StationaryEndMeansDwell | src/services/tripLifecycle.service.ts:482-573 | an AUTO_FINAL_STOP_STATIONARY end follows an unbroken series of passed tests spanning the configured seconds |
| TripLifecycle.EndTimeIsFinal | src/services/tripLifecycle.service.ts:121-289 | as long as every call is uninterrupted, the status and end time of an ended trip stay whatever calls follow |
| TripWrites.EndIsFinalExactlyWhenSettled | src/services/tripLifecycle.service.ts:124-176 | with reads and writes of finalizers, promoters and the no-show clean-up interleaved, an ended trip keeps status and end time in every continuation if and only if no caller that read a live status has still to write anything else |
| TripWrites.AloneMeansFinal | src/services/tripLifecycle.service.ts:132-160 | without such callers nothing at all changes any more |
| TripWrites.SecondFinalizerMovesEndTime | src/services/tripLifecycle.service.ts:124-176 | a run in which a second finalizer replaces the end time |
| TripWrites.LatePromotionRevives | src/services/preTripPromotion.service.ts:24-45 | a run in which a promoter sets a trip that the clean-up has ended back to running |
| TripLifecycle.ExpiryOnlyDelays | src/services/tripLifecycle.service.ts:482-573 | a run with expiring markers has ended the trip only if the same run without expiries has ended it |
| SourceArbitration.ChoiceIsNearOptimal | src/services/sourceArbitration.service.ts:206-330 | there is a choice if and only if there is a candidate, and its score plus the gap is at least every candidate's |
| SourceArbitration.SmallGapPrefersHealth | src/services/sourceArbitration.service.ts:206-330 | whatever the settings, below a gap of 265 a strictly healthier candidate is never passed over |
| SourceArbitration.LeadIsAtLeast | src/services/sourceArbitration.service.ts:206-220 | a healthier source leads a kept one by at least the least lead, a function of the freshness settings |
| SourceArbitration.LeastLeadIsAttained | src/services/sourceArbitration.service.ts:332-412 | for every larger gap, a driver state and a GPS row that arbitration turns into candidates of which the less healthy is chosen |
| SourceArbitration.HealthierNeverPassedOverExactly | src/services/sourceArbitration.service.ts:93-412 | whatever driver state and GPS row a call finds, a healthier source is never passed over if and only if the gap is below the least lead that the freshness settings admit |
| SourceArbitration.DefaultsPreferHealthExactly | src/config/env.ts:101-134 | at the default freshness settings that gap is 295 |
| SourceArbitration.ChoiceIsStable | src/services/sourceArbitration.service.ts:235-330 | running again with the winner as previous source keeps it |
| SourceArbitration.TripTracking.Arbitrate | src/services/sourceArbitration.service.ts:332-527 | the canonical state and the last good one by what was stored; a chosen GPS state repeats the stored row, which is free or this trip's, and a chosen driver state the driver's; a free or own row is chosen when there is no driver, a driver when there is no such row; staleness, and exactly the published source's row is selected, with its status |
| SourceArbitration.TripTracking.MarkRows | src/services/sourceArbitration.service.ts:502-523 | this trip's rows are deselected but for the published source's, which gets its status; other trips' rows stay |
| PublishedSource.ForeignRowIsIgnored | src/services/sourceArbitration.service.ts:391-399 | a GPS row of another trip leaves every call as it would be without a row |
| PublishedSource.GpsStatesAreOwn | src/services/sourceArbitration.service.ts:332-527 | in every run, whatever rows other trips put in between, a GPS position published or held is that of a row that was free or this trip's when a call found it |
| PublishedSource.CandidatesExactly | src/services/sourceArbitration.service.ts:107-204 | who takes part, with what reading, time and status |
| PublishedSource.StatusByAge | src/services/sourceArbitration.service.ts:93-105 | a derived status is decided by the age in milliseconds |
| PublishedSource.KeepsExactly | src/services/sourceArbitration.service.ts:235-258 | the source published last is kept if and only if it is recent, connected and trails the other by the gap at most |
| PublishedSource.ReasonsAreTrue | src/services/sourceArbitration.service.ts:260-330 | every other reason says what it names about the two candidates |
| PublishedSource.ScoreExactly | src/services/sourceArbitration.service.ts:206-220 | the score by status, age and kind |
| SourceArbitration.LastGoodIsLastGoodWinner | src/services/sourceArbitration.service.ts:411-418 | in every run, expiries included, the last good state is the winner of the last call that had a healthy or stale one |
| SourceArbitration.HoldsLastGoodExactly | src/services/sourceArbitration.service.ts:420-446 | in every run a call that finds no source publishes that winner, marked stale, if and only if it is still stored and within its grace period |
| RouteStops.SortIsOrderedPermutation | src/services/eta.service.ts:128-148 | ordering the stops keeps each as often as it occurs |
| RouteStops.SortIsStable | src/services/eta.service.ts:128-148 | stops of the same order keep their places relative to each other |
| RouteStops.NormalizedAreOnGlobe | src/services/eta.service.ts:128-148 | exactly the points on the globe are kept, in order |
| RouteStops.IndexOf | src/services/eta.service.ts:337-344 | the first index of a stop id, or -1 when there is none |
| RouteProgress.BuildCumulativeDistances | src/services/eta.service.ts:150-167 | the running totals of the distances between stops |
| RouteProgress.CumulativeAscends | src/services/eta.service.ts:150-167 | distances along the route start at 0 and never decrease |
| RouteProgress.EstimateRouteProgress | src/services/eta.service.ts:182-253 | the loop yields the best proper segment's progress |
| RouteProgress.ProgressIsNearest | src/services/arrival.service.ts:89-156 | progress lies within its segment and the route, and no proper segment is closer to the position |
| RouteProgress.ProgressIsProjected | src/services/eta.service.ts:200-253 | the progress is that of the projection onto the first proper segment at the least cross-track distance, and zero without one |
| RouteProgress.NearestIsLeast | src/services/eta.service.ts:169-180 | the first stop at the least distance |
| Eta.ComputeNextStopAndEta | src/services/eta.service.ts:292-528 | the method's loops yield the estimate as specified, speeds rendered to two decimals, or none for a route without usable stops |
| Eta.FindNext | src/services/eta.service.ts:381-417 | the search along the cumulative distances finds the specified next stop |
| Eta.NextIndexRange | src/services/eta.service.ts:378-417 | a next stop lies strictly after the last arrived one and ahead of the bus's segment |
| Eta.NextStopIsNullExactlyAtTheEnd | src/services/eta.service.ts:346-422 | no next stop, the final stop reached, and the bus known or seen to be at the final stop are one condition |
| Eta.NearestIndexIsNearest | src/services/eta.service.ts:337-339 | on distinct stops the index found by id is that of the nearest stop |
| NextStop.NextAtAStop | src/services/eta.service.ts:383-395 | at a stop, the next one follows the nearest or the last one reached, whichever is further, and there is none after the final stop |
| NextStop.NextBetweenStops | src/services/eta.service.ts:396-417 | between stops, the next one is the first after the last one reached that lies beyond the bus, by 3 metres or 15 percent of the radius, along the route, or else the final stop |
| NextStop.ReportsNextAndNearest | src/services/eta.service.ts:357-508 | the result names that stop and the nearest one, with their distances to the nearest metre |
| NextStop.SpeedIsTrusted | src/services/eta.service.ts:255-290 | which of the three speeds is used, what the confidence means, and how the speeds are shown |
| Eta.DistanceIsDirectOrAlongRoute | src/services/eta.service.ts:424-457 | the unrounded distance is the direct one within the radius and else the greater of direct and along-route, so the cap never binds and no distance undercuts the straight line |
| Eta.StopEtasAreTheSuffix | src/services/eta.service.ts:424-508 | the list is exactly the route from the next stop on, headed by that stop and its distance, and empty at the end |
| Eta.MinutesAgreeExactly | src/services/eta.service.ts:467-475 | two distances give the same minutes if and only if no boundary between minutes separates them |
| Eta.HeadEtasAgreeExactly | src/services/eta.service.ts:467-508 | of a result with a next stop, `etaMinutes` and the head of `stopEtas` agree if and only if no boundary separates the rounded from the exact distance, and differ by a minute at most if and only if no two boundaries in a row do |
| Eta.MinuteSufficesExactlyFrom | src/services/eta.service.ts:467-508 | from a given speed on, a minute covers the difference at every distance if and only if that speed is at least 0.03 km/h |
| Eta.HeadEtasCanDiffer | src/services/eta.service.ts:467-508 | the estimate for a bus 1499.5 metres from the only stop at 60 km/h says 2 minutes and 1 minute |
| TrackingFilter.ComputeRollingAverageKmh | src/services/trackingFilter.service.ts:84-138 | the loop's average is that of the kept segments' totals |
| TrackingFilter.SumsAreMediant | src/services/trackingFilter.service.ts:100-132 | total distance over total time lies between any bounds on the kept segments' speeds |
| TrackingFilter.AverageIsBetweenSegments | src/services/trackingFilter.service.ts:84-138 | the rounded average lies between the rounded bounds, or is 0 |
| TrackingFilter.ComputeRecentDistanceMeters | src/services/trackingFilter.service.ts:194-208 | the sum of the distances between consecutive samples |
| TrackingFilter.FilterTrackingPoint | src/services/trackingFilter.service.ts:267-621 | the next state in every case, and that a point is accepted unless its accuracy is beyond the hard limit |
| TrackedSpeed.SpeedIsDistanceOverTime | src/services/trackingFilter.service.ts:436-621 | a standing bus has speed zero; a moving one that of distance over time since the last point, capped, and averaged with the device's at 0.22 to 0.48 where there is one |
| TrackedSpeed.ClearMoveSpeed | src/services/trackingFilter.service.ts:436-621 | after a clear move without a device speed the rounded, capped distance over time is published |
| TrackedSpeed.MovingSpeedIsBetween | src/services/trackingFilter.service.ts:210-265 | with a device speed, the published speed lies between the rounded server-derived and device speeds |
| TrackedSpeed.DeviceWeightExactly | src/services/trackingFilter.service.ts:236-265 | how much the device counts, by accuracy and by what speaks for movement |
| TrackedSpeed.ConfidenceFalls | src/services/trackingFilter.service.ts:140-152 | poorer accuracy never earns more confidence |
| TrackedSpeed.MovesExactlyOnEvidence | src/services/trackingFilter.service.ts:447-563 | a bus moves if and only if accuracy is acceptable, it is not held and something speaks for movement; when it takes the reported position |
| TrackedSpeed.TargetIs | src/services/trackingFilter.service.ts:582-587 | the display's target is 65 parts of the current speed and 35 of the average, between the two |
| TrackedSpeed.DisplayFollowsTarget | src/services/trackingFilter.service.ts:154-192 | the display of a moving bus steps toward the target, by the rate that applies, and not past it |
| TrackedSpeed.FirstPointStarts | src/services/trackingFilter.service.ts:399-435 | where and how fast a first point starts the state |
| TrackedSpeed.RejectedKeepsPlace | src/services/trackingFilter.service.ts:330-397 | a point is turned away if and only if its accuracy is beyond the hard limit; the bus then stands where it was |
| TrackedSpeed.AcceptedKeepsWindow | src/services/trackingFilter.service.ts:564-621 | which samples are kept, and that the average is theirs |
| TrackedSpeed.SegmentCountsExactly | src/services/trackingFilter.service.ts:100-128 | a segment counts if and only if time passed and it is neither too short nor too fast |
| TrackedSpeed.AverageIsRatio | src/services/trackingFilter.service.ts:130-137 | when there is no average, when it is zero, and else that it is the rounded ratio of the totals |
| TrackedSpeed.RecentDistanceGrows | src/services/trackingFilter.service.ts:194-208 | each sample lengthens the recent path by its distance to the one before |
| TrackingFilter.BlendInLimit | src/services/trackingFilter.service.ts:210-265 | a rounded blend of speeds within the limits is within them |
| TrackingFilter.AcceptedIsBounded | src/services/trackingFilter.service.ts:410-621 | an accepted point keeps every speed of the state and its samples within the limit |
| TrackingFilter.SpeedsAreBounded | src/services/trackingFilter.service.ts:267-621 | in every driver-only run, expiries included, every filtered, average, display and sample speed lies between 0 and the greater of the two limits rounded to a tenth |
| TrackingFilter.SpeedsStayBelowServerLimit | src/services/trackingFilter.service.ts:267-621 | for a one-decimal server limit not below the segment limit, that bound is the server limit |
| TrackingFilter.AverageFollowsSegment | src/services/trackingFilter.service.ts:84-138 | after two good points the average is the rounded speed between them, up to the segment limit |
| TrackingFilter.AverageCanExceedServerLimit | src/services/trackingFilter.service.ts:309-312 | a segment limit of 150 lets the average reach 150 under a server limit of 120 |
| TrackingFilter.AverageBelowServerLimitExactly | src/services/trackingFilter.service.ts:84-138 | under a one-decimal server limit, and with two places a window's drive at the segment limit apart, no run takes the average beyond the server limit if and only if the rounded segment limit is not beyond it |
| TrackingFilter.DisplayIsOneDecimal | src/services/trackingFilter.service.ts:154-192 | in every run the display speed is a multiple of 0.1 |
| TrackingFilter.DisplayNeverJumps | src/services/trackingFilter.service.ts:267-621 | in every run the display speed changes by no more than the rates allow over the time since the last point, up to rounding, whether the point is accepted or rejected |
| TrackingFilter.MovesOnlyOnEvidence | src/services/trackingFilter.service.ts:509-548 | the position stays or moves to the reported one, the latter only on usable accuracy and by more than the smallest movement |
| TrackingFilter.ParkedBusStaysParked | src/services/trackingFilter.service.ts:509-548 | in every run a standing bus whose reports jitter within the hold distance keeps its place at speed 0 and its display never rises |
| DisplaySpeed.SmoothStaysWithin | src/services/trackingFilter.service.ts:154-192 | a step keeps within bounds that are one-decimal speeds |
| DisplaySpeed.StepInTenths | src/services/trackingFilter.service.ts:154-192 | between one-decimal speeds a step moves toward the target by whole tenths and never past it |
| DisplaySpeed.StepIsBounded | src/services/trackingFilter.service.ts:154-192 | a step lands between the previous speed and the target and moves by at most rate times time plus rounding |
| DisplaySpeed.StallsExactly | src/services/trackingFilter.service.ts:154-192 | a step stalls short of its target if and only if its reach rounds to no tenth |
| DisplaySpeed.FollowReachesTarget | src/services/trackingFilter.service.ts:154-192 | any run of steps whose strides cover the gap ends exactly at the target |
| DisplaySpeed.AtTargetStays | src/services/trackingFilter.service.ts:154-192 | a reached target is kept |
| DisplaySpeed.DefaultsReachTarget | src/config/env.ts:92-94 | with the default rates a sixteenth as many steps as there are tenths in the gap suffice, however closely spaced |
| DisplaySpeed.RestReachesZero | src/services/trackingFilter.service.ts:173-176 | stationary steps reach exactly 0 |
| RouteMetrics.BuildFallbackRouteMetrics | src/services/googleRoutes.service.ts:103-145 | the straight-line series and geometry |
| RouteMetrics.BuildCumulativeDistancesFromLegs | src/services/googleRoutes.service.ts:147-180 | the series from the legs, else the stretched straight-line series, else none |
| RouteMetrics.BuildRouteMetrics | src/services/googleRoutes.service.ts:182-346 | a usable reply's series and decoded geometry, or the fallback whenever anything is missing |
| RouteMetrics.StraightSeriesValid | src/services/googleRoutes.service.ts:103-145 | the straight-line series has one entry per stop, starts at 0 and never decreases after rounding |
| RouteMetrics.LegSeriesValid | src/services/googleRoutes.service.ts:170-180 | the series from the legs is valid if and only if its rounded running totals never fall, as those of non-negative legs |
| RouteMetrics.ScaledSeriesValid | src/services/googleRoutes.service.ts:152-168 | the stretched series is valid if and only if the reported length does not round below zero; it ends at that length |
| RouteMetrics.MetricsValidExactly | src/services/googleRoutes.service.ts:321-346 | whatever the routing service answers, the accepted series is valid if and only if the distances it is built from are acceptable: leg totals that never fall, or a length not below zero |
| RouteMetrics.MetricsAlwaysValid | src/services/googleRoutes.service.ts:321-346 | any answer with non-negative distances yields a valid series |
| RouteMetrics.NegativeLegIsStored | src/services/googleRoutes.service.ts:170-180 | a leg of -1000 metres yields a series that falls |
| RouteMetrics.SeriesAddUp | src/services/googleRoutes.service.ts:103-180 | what each stop adds to the two series before rounding |
| RouteMetrics.ScaledIsProportional | src/services/googleRoutes.service.ts:164-168 | the stretched series keeps the straight-line proportions to half a metre |
| RouteMetrics.ReplyIsUsedExactly | src/services/googleRoutes.service.ts:182-346 | when a reply is used, for which distances and geometry, and that all else is straight lines |
| RouteMetrics.CheckRouteReady | src/services/serviceSchedule.service.ts:47-151 | the verdict is that of the first check that fails |
| RouteMetrics.ReadyExactly | src/services/serviceSchedule.service.ts:47-151 | a route is ready if and only if it is active, numbered from 1, and has no distances or a full series from zero that never falls |
| RouteMetrics.RefusalsAreTrue | src/services/serviceSchedule.service.ts:47-151 | each refusal names a fault that is there |
| RouteMetrics.ReadyExactlyWhenValid | src/services/serviceSchedule.service.ts:73-150 | a stored series passes all checks if and only if it has two stops and is valid |
| RouteMetrics.SavedRoutesAreSchedulable | src/controllers/routeStop.controller.ts:234-280 | an active route that the editor saves passes the scheduling checks if and only if it has two stops and the distances were acceptable, as all non-negative ones are |
| Polyline.ReadValue | src/services/googleRoutes.service.ts:73-77 | each inner loop moves the index forward and at most one past the end |
| Polyline.DecodePolyline | src/services/googleRoutes.service.ts:61-101 | the decoder terminates on every string and yields the points of the specification, in degrees |
| Polyline.DecodeDelta | src/services/googleRoutes.service.ts:69-92 | one coordinate's step and the index behind it |
| Polyline.DecodeUndoesEncode | src/services/googleRoutes.service.ts:61-101 | decoding an encoded list returns it if and only if every step fits in 31 bits, and always returns as many points |
| Polyline.LeastMisfitTurns | src/services/googleRoutes.service.ts:79 | the least step that does not fit, 2^30, comes back as -2^30 |
| Polyline.RoundTripOnEarth | src/services/googleRoutes.service.ts:61-101 | every list of legal coordinates survives the round trip |
| Polyline.DegreesExact | src/services/googleRoutes.service.ts:29-31 | rounding the degrees to seven decimals loses nothing |
| Polyline.DecodeIsBounded | src/services/googleRoutes.service.ts:61-101 | every decoded point of an arbitrary string consumes at least one unit |
| Polyline.ShiftCountWraps | src/services/googleRoutes.service.ts:75 | from the seventh continuation on an overlong value comes back to the low bits |
| Rounding.Round1Idempotent | src/services/trackingFilter.service.ts:43-46 | rounding to one decimal twice is rounding once |
| Rounding.ToFixed3Monotone | src/services/googleRoutes.service.ts:33-35 | rounding to three decimals keeps the order of distances |
| Rounding.ToFixedIsNear | src/services/googleRoutes.service.ts:29-35 | rounding to decimals moves a value by half a unit of the last one at most, and is symmetric |
| Calendar.CivilDate | src/services/schedulesToday.service.ts:112-126 | the date of a day, with its year's bounds |
| Calendar.CivilDateInvertsDayNumber | src/services/schedulesToday.service.ts:128-144 | dates and day numbers correspond one to one |
| NextDeparture.DaysAheadIsNext | src/services/schedulesToday.service.ts:146-167 | the computed number of days leads to the earliest departure |
| NextDeparture.ShiftedDayIs | src/services/schedulesToday.service.ts:128-144 | where shifting a date ends up, the misread years included |
| NextDeparture.NextOccurrenceIsEarliestExactly | src/services/schedulesToday.service.ts:146-167 | the result is the earliest instant strictly after now with the Dhaka weekday and clock time if and only if no date involved lies in the years 0 to 99 |
| NextDeparture.YearFiftyIsMisread | src/services/schedulesToday.service.ts:92-110 | asked at the start of the year 50, the result lies in 1900 or later and is not the next departure |
| NextDeparture.NextOccurrenceSince1970 | src/services/schedulesToday.service.ts:146-167 | from 1970 on it always is |

## Left out

- The trigonometry of great-circle distance and of the local projection: only non-negativity and the range of the projected fraction are used.
- Floating-point error: arithmetic is over the reals, with the source's roundings written out.
- JSON, date strings, Prisma's decimals and the HTTP, Google, Traccar, mail and push clients: their results are inputs.
- Randomness: tokens, session and family ids are fresh by construction, and SHA-256 is taken to be injective; an expired signed token counts as unverifiable.
- TripStart.OneRunningTripPerBus: admits only promotions of PRE_TRIP rows that are safe, which the code does not check; `TripStart.PromotionIsSafeExactlyWhenUncontested` says which those are. Per driver, `DriverTrips` covers the administrators' starter alone, since the others do not recheck the driver under their lock.
- RefreshTokens.ExactlyTheLatestIsRedeemable: each call of the session service is atomic; two simultaneous uses of one token are not interleaved.
- SourceArbitration.ChoiceIsNearOptimal: one call reads the clock once, where the source reads it for every age.
- Interleavings inside one call of the per-packet services (arrival, pre-trip phase, auto-end, arbitration, tracking filter): each call is atomic there; only the writes of the trip row are interleaved, in `TripWrites`.
- The choice of a schedule when a trip starts (`pickBestScheduleForBus`, `pickBestScheduleForDriver`) and the movement test before it: filters and sorts without a property across calls.
- Stale stop coordinates: editing a stop issues no invalidation, only the cache's lifetime bounds them. The cache machine follows one route; entries of different routes have different keys.
- The five-minute memory of a route's origin stop: the origin found is part of each location update.
- Date's range limit of 8.64e15 milliseconds, beyond which ECMAScript yields an invalid date.
- GPS packets and source changes within the runs of the tracking filter: its runs are those of a driver's phone alone.
- The duration of a route.
- The weekday filter of the timetable lookup for an arrival, which uses the server's local day: the timetable is a parameter.
- Settings other than the ones named are parameters; the lifetimes of the lock and of the idempotency record are the defaults.
- Analytics, audit entries, notifications, occupancy, favourites, listings and the remaining CRUD.
