/** Running trips per driver: only the administrators' starter looks for them under its lock
    (src/services/adminOperations.service.ts). */
module DriverTrips {
  import opened Wrappers
  import Lock = TripLock
  import opened TripStart

  /** No driver has two running trips. */
  ghost predicate OnePerDriver(trips: seq<Trip>) {
    forall i, j :: 0 <= i < j < |trips| && trips[i].status == Running && trips[j].status == Running ==>
      trips[i].driverId.None? || trips[i].driverId != trips[j].driverId
  }

  /** The driver, if there is one, has no running trip. */
  ghost predicate IsIdle(trips: seq<Trip>, driverId: Option<string>) {
    driverId.Some? ==> forall i :: 0 <= i < |trips| && trips[i].status == Running ==> trips[i].driverId != driverId
  }

  /** Only administrators start trips, they create them while their locks live, and nothing is promoted. */
  predicate ByAdmin(s: State, e: Event)
    requires Enabled(s, e)
  {
    match e
    case Start(_, starter, _, _) => starter == Admin
    case Create(t) => s.lock.attempts[t].driverId.Some? ==> s.lock.now < s.lock.attempts[t].driverExpiry
    case Promote(_) => false
    case _ => true
  }

  ghost predicate RunsByAdmins(s: State, es: seq<Event>)
    requires Runs(s, es, None)
    decreases |es|
  {
    es == [] || (RunsByAdmins(s, es[..|es| - 1]) && ByAdmin(After(s, es[..|es| - 1], None), es[|es| - 1]))
  }

  ghost predicate DriversMatch(s: State) {
    forall t :: t in s.sections ==>
      && s.sections[t].starter == Admin
      && t in s.lock.attempts && s.lock.attempts[t].driverId == s.sections[t].driverId
      && (s.sections[t].stage == Cleared ==> s.lock.attempts[t].phase == Lock.Held)
  }

  /** While its driver's lock lives, a starter cleared to create has an idle driver. */
  ghost predicate ClearedDriverIsIdle(s: State) {
    forall t :: InSection(s, t, Cleared) && s.lock.now < s.lock.attempts[t].driverExpiry ==>
      IsIdle(s.trips, s.sections[t].driverId)
  }

  ghost predicate DriverInvariant(s: State) {
    Lock.Invariant(s.lock) && OnePerDriver(s.trips) && DriversMatch(s) && ClearedDriverIsIdle(s)
  }

  lemma AddTripOfDriver(trips: seq<Trip>, t: Trip)
    ensures OnePerDriver(trips + [t]) <==> OnePerDriver(trips) && (t.status == Running ==> IsIdle(trips, t.driverId))
    ensures forall d ::
      IsIdle(trips + [t], d) <==> IsIdle(trips, d) && (t.status == Running && d.Some? ==> t.driverId != d)
  {
    var trips' := trips + [t];
    assert trips'[|trips|] == t;
    assert forall i :: 0 <= i < |trips| ==> trips'[i] == trips[i];
    if OnePerDriver(trips') {
      forall i, j | 0 <= i < j < |trips| && trips[i].status == Running && trips[j].status == Running
        ensures trips[i].driverId.None? || trips[i].driverId != trips[j].driverId
      {
        assert trips'[i].driverId.None? || trips'[i].driverId != trips'[j].driverId;
      }
      forall i | 0 <= i < |trips| && trips[i].status == Running && t.status == Running && t.driverId.Some?
        ensures trips[i].driverId != t.driverId
      {
        assert trips'[i].driverId.None? || trips'[i].driverId != trips'[|trips|].driverId;
      }
    }
    forall d | IsIdle(trips', d) ensures IsIdle(trips, d) && (t.status == Running && d.Some? ==> t.driverId != d) {
      forall i | 0 <= i < |trips| && trips[i].status == Running && d.Some? ensures trips[i].driverId != d {
        assert trips'[i].driverId != d;
      }
    }
  }

  lemma EndTripOfDriver(trips: seq<Trip>, i: nat)
    requires i < |trips|
    ensures
      var trips' := trips[i := trips[i].(status := Ended)];
      && (OnePerDriver(trips) ==> OnePerDriver(trips'))
      && forall d :: IsIdle(trips, d) ==> IsIdle(trips', d)
  {}

  lemma LockKeepsDrivers(s: Lock.State, l: Lock.Event)
    requires Lock.Enabled(s, l)
    ensures
      var s' := Lock.Apply(s, l);
      && (forall t :: t in s.attempts ==> t in s'.attempts && s'.attempts[t].driverId == s.attempts[t].driverId)
      && (l.Begin? ==> l.token in s'.attempts && s'.attempts[l.token].driverId == l.driverId)
  {}

  lemma DriverHolderIsUnique(s: Lock.State, t: Lock.Token, u: Lock.Token)
    requires Lock.Invariant(s)
    requires t in s.attempts && s.attempts[t].phase == Lock.Held && s.now < s.attempts[t].driverExpiry
    requires u in s.attempts && s.attempts[u].phase == Lock.Held && s.now < s.attempts[u].driverExpiry
    requires s.attempts[t].driverId.Some? && s.attempts[t].driverId == s.attempts[u].driverId
    ensures t == u
  {
    var k := Lock.DriverKey(s.attempts[t].driverId.value);
    assert Lock.Owns(s.attempts[t], k) && Lock.Owns(s.attempts[u], k);
    assert s.store[k].value == t;
  }

  lemma LockingMatchesDrivers(s: State, e: Event)
    requires DriversMatch(s) && Enabled(s, e) && ByAdmin(s, e) && (e.Start? || e.Locking? || e.Leave?)
    ensures DriversMatch(Apply(s, e))
  {
    LockKeepsDrivers(s.lock, CommandOf(e));
    LockKeepsHolders(s.lock, CommandOf(e));
    hide Lock.Apply, Lock.Enabled;
  }

  lemma LockingKeepsIdle(s: State, e: Event)
    requires DriversMatch(s) && ClearedDriverIsIdle(s) && Enabled(s, e) && (e.Start? || e.Locking? || e.Leave?)
    ensures ClearedDriverIsIdle(Apply(s, e))
  {
    LockKeepsHolders(s.lock, CommandOf(e));
    hide IsIdle, Lock.Apply, Lock.Enabled;
    var s' := Apply(s, e);
    forall t | InSection(s', t, Cleared) && s'.lock.now < s'.lock.attempts[t].driverExpiry
      ensures IsIdle(s'.trips, s'.sections[t].driverId)
    {
      assert InSection(s, t, Cleared);
    }
  }

  lemma LockingStepOfDrivers(s: State, e: Event)
    requires DriverInvariant(s) && Enabled(s, e) && ByAdmin(s, e) && (e.Start? || e.Locking? || e.Leave?)
    ensures DriverInvariant(Apply(s, e))
  {
    hide Lock.Invariant, OnePerDriver, DriversMatch, ClearedDriverIsIdle, Lock.Apply, Lock.Enabled;
    hide Apply, Enabled, CommandOf, ByAdmin;
    LockingApplies(s, e);
    Lock.InvariantStep(s.lock, CommandOf(e));
    LockingMatchesDrivers(s, e);
    LockingKeepsIdle(s, e);
  }

  /** Creating under a live lock cannot collide: another cleared starter of the driver would hold the same key. */
  lemma CreateStepOfDrivers(s: State, e: Event)
    requires DriverInvariant(s) && Enabled(s, e) && ByAdmin(s, e) && e.Create?
    ensures DriverInvariant(Apply(s, e))
  {
    var t, s' := e.token, Apply(s, e);
    var driverId := s.sections[t].driverId;
    AddTripOfDriver(s.trips, Trip(s.sections[t].busId, driverId, Running));
    NobodyIsIdle(s.trips);
    hide OnePerDriver, IsIdle, Lock.Invariant;
    forall u | InSection(s', u, Cleared) && s'.lock.now < s'.lock.attempts[u].driverExpiry
      ensures IsIdle(s'.trips, s'.sections[u].driverId)
    {
      assert InSection(s, u, Cleared) && u != t;
      if driverId.Some? && s.sections[u].driverId == driverId {
        DriverHolderIsUnique(s.lock, t, u);
      }
    }
  }

  lemma NobodyIsIdle(trips: seq<Trip>)
    ensures IsIdle(trips, None)
  {}

  /** The recheck lets a starter through only when its driver is idle. */
  lemma RecheckFindsIdle(trips: seq<Trip>, busId: string, driverId: Option<string>)
    ensures !Blocked(trips, Admin, busId, driverId) ==> IsIdle(trips, driverId)
  {}

  lemma OtherStepOfDrivers(s: State, e: Event)
    requires DriverInvariant(s) && Enabled(s, e) && ByAdmin(s, e)
    requires e.Recheck? || e.GiveUp? || e.End? || e.OpenPreTrip?
    ensures DriverInvariant(Apply(s, e))
  {
    if e.Recheck? {
      RecheckFindsIdle(s.trips, s.sections[e.token].busId, s.sections[e.token].driverId);
    } else if e.End? {
      EndTripOfDriver(s.trips, e.trip);
    } else if e.OpenPreTrip? {
      AddTripOfDriver(s.trips, Trip(e.busId, e.driverId, PreTrip));
    }
    hide OnePerDriver, IsIdle, Blocked, Lock.Invariant;
    var s' := Apply(s, e);
    forall t | InSection(s', t, Cleared) && s'.lock.now < s'.lock.attempts[t].driverExpiry
      ensures IsIdle(s'.trips, s'.sections[t].driverId)
    {
      assert InSection(s, t, Cleared) || e == Recheck(t);
    }
  }

  lemma DriverInvariantStep(s: State, e: Event)
    requires DriverInvariant(s) && Enabled(s, e) && ByAdmin(s, e)
    ensures DriverInvariant(Apply(s, e))
  {
    hide DriverInvariant, Apply;
    match e {
      case Create(_) => CreateStepOfDrivers(s, e);
      case Promote(_) =>
      case Start(_, _, _, _) => LockingStepOfDrivers(s, e);
      case Locking(_) => LockingStepOfDrivers(s, e);
      case Leave(_) => LockingStepOfDrivers(s, e);
      case _ => OtherStepOfDrivers(s, e);
    }
  }

  lemma {:induction false} DriverInvariantAlways(s: State, es: seq<Event>)
    requires DriverInvariant(s) && Runs(s, es, None) && RunsByAdmins(s, es)
    ensures DriverInvariant(After(s, es, None))
    decreases |es|
  {
    if es != [] {
      DriverInvariantAlways(s, es[..|es| - 1]);
      hide DriverInvariant, Apply, Enabled, ByAdmin;
      DriverInvariantStep(After(s, es[..|es| - 1], None), es[|es| - 1]);
    }
  }

  /** In every interleaving of administrators' starters that create under live locks, no driver has two running trips.
      */
  lemma OneRunningTripPerDriver(now: int, trips: seq<Trip>, es: seq<Event>)
    requires OnePerDriver(trips) && Runs(Initial(now, trips), es, None) && RunsByAdmins(Initial(now, trips), es)
    ensures OnePerDriver(After(Initial(now, trips), es, None).trips)
  {
    DriverInvariantAlways(Initial(now, trips), es);
  }

  /** Whoever creates, the claim survives exactly when the driver is idle at that moment ... */
  lemma CreateKeepsDriversExactly(s: State, t: Lock.Token)
    requires OnePerDriver(s.trips) && Enabled(s, Create(t))
    ensures OnePerDriver(Apply(s, Create(t)).trips) <==> IsIdle(s.trips, s.sections[t].driverId)
  {
    AddTripOfDriver(s.trips, Trip(s.sections[t].busId, s.sections[t].driverId, Running));
  }

  /** ... and a driver's own start does not see to that: it looks at the bus alone. */
  lemma DriverStartsTwice(now: int, driverId: string) returns (es: seq<Event>)
    ensures
      var s := Initial(now, [Trip("A", Some(driverId), Running)]);
      Runs(s, es, None) && !OnePerDriver(After(s, es, None).trips)
  {
    var s, d := Initial(now, [Trip("A", Some(driverId), Running)]), Some(driverId);
    es := [Start(0, Driver, "B", d)] + [Locking(Lock.SetBus(0))] + [Locking(Lock.SetDriver(0))] + [Recheck(0)]
      + [Create(0)];
    var s4 := DriverCleared(now, driverId);
    assert !IsIdle(s.trips, d) by { assert s.trips[0].driverId == d; }
    hide Runs, After, Apply, Enabled, IsIdle, OnePerDriver;
    NoEvents(s, None);
    var a, b, c, r := Start(0, Driver, "B", d), Locking(Lock.SetBus(0)), Locking(Lock.SetDriver(0)), Recheck(0);
    Extend(s, [], a, None);
    assert [] + [a] == [a];
    Extend(s, [a], b, None);
    Extend(s, [a] + [b], c, None);
    Extend(s, [a] + [b] + [c], r, None);
    Extend(s, [a] + [b] + [c] + [r], Create(0), None);
    OneOfDriver(driverId);
    CreateKeepsDriversExactly(s4, 0);
  }

  lemma OneOfDriver(driverId: string)
    ensures OnePerDriver([Trip("A", Some(driverId), Running)])
  {}

  lemma DriverCleared(now: int, driverId: string) returns (s4: State)
    ensures
      var s, d := Initial(now, [Trip("A", Some(driverId), Running)]), Some(driverId);
      && Enabled(s, Start(0, Driver, "B", d))
      && var s1 := Apply(s, Start(0, Driver, "B", d));
         && Enabled(s1, Locking(Lock.SetBus(0)))
         && var s2 := Apply(s1, Locking(Lock.SetBus(0)));
            && Enabled(s2, Locking(Lock.SetDriver(0)))
            && var s3 := Apply(s2, Locking(Lock.SetDriver(0)));
               && Enabled(s3, Recheck(0)) && s4 == Apply(s3, Recheck(0))
               && Enabled(s4, Create(0)) && s4.trips == s.trips && s4.sections[0].driverId == d
  {
    var s, d := Initial(now, [Trip("A", Some(driverId), Running)]), Some(driverId);
    var s3 := Apply(Apply(Apply(s, Start(0, Driver, "B", d)), Locking(Lock.SetBus(0))), Locking(Lock.SetDriver(0)));
    s4 := Apply(s3, Recheck(0));
  }
}
