/** Starting trips under the lock: take the lock, look again, create, release
    (src/services/telematicsLifecycle.service.ts, trip.service.ts, adminOperations.service.ts). */
module TripStart {
  import opened Wrappers
  import Redis
  import Lock = TripLock

  datatype Starter = Telematics | Driver | Admin

  datatype Status = PreTrip | Running | Ended

  datatype Trip = Trip(busId: string, driverId: Option<string>, status: Status)

  /** Waiting for the lock or the recheck, cleared to create, or on the way out. */
  datatype Stage = Waiting | Cleared | Leaving

  datatype Section = Section(starter: Starter, busId: string, driverId: Option<string>, stage: Stage)

  datatype State = State(lock: Lock.State, sections: map<Lock.Token, Section>, trips: seq<Trip>)

  datatype Event =
    | Start(token: Lock.Token, starter: Starter, busId: string, driverId: Option<string>)
    | Locking(e: Lock.Event)
    | Recheck(token: Lock.Token)
    | GiveUp(token: Lock.Token)
    | Create(token: Lock.Token)
    | Leave(token: Lock.Token)
    | End(trip: nat)
    | OpenPreTrip(busId: string, driverId: Option<string>)
    | Promote(trip: nat)

  predicate BusRuns(trips: seq<Trip>, busId: string) {
    exists i :: 0 <= i < |trips| && trips[i].busId == busId && trips[i].status == Running
  }

  predicate DriverRuns(trips: seq<Trip>, driverId: string) {
    exists i :: 0 <= i < |trips| && trips[i].driverId == Some(driverId) && trips[i].status == Running
  }

  predicate BusWaits(trips: seq<Trip>, busId: string) {
    exists i :: 0 <= i < |trips| && trips[i].busId == busId && trips[i].status == PreTrip
  }

  /** What each starter looks for once it holds the lock. */
  predicate Blocked(trips: seq<Trip>, starter: Starter, busId: string, driverId: Option<string>) {
    match starter
    case Telematics => BusRuns(trips, busId) || BusWaits(trips, busId)
    case Driver => BusRuns(trips, busId)
    case Admin => BusRuns(trips, busId) || (driverId.Some? && DriverRuns(trips, driverId.value))
  }

  predicate InSection(s: State, t: Lock.Token, stage: Stage) {
    && t in s.sections && s.sections[t].stage == stage
    && t in s.lock.attempts && s.lock.attempts[t].phase == Lock.Held
  }

  predicate Enabled(s: State, e: Event) {
    match e
    case Start(t, _, busId, driverId) => t !in s.sections && Lock.Enabled(s.lock, Lock.Begin(t, busId, driverId))
    case Locking(l) => !l.Begin? && !l.BeginRelease? && Lock.Enabled(s.lock, l)
    case Recheck(t) => InSection(s, t, Waiting)
    case GiveUp(t) => InSection(s, t, Cleared)
    case Create(t) => InSection(s, t, Cleared)
    case Leave(t) => InSection(s, t, Leaving)
    case End(i) => i < |s.trips|
    case OpenPreTrip(_, _) => true
    case Promote(i) => i < |s.trips| && s.trips[i].status != Running
  }

  function MoveTo(s: State, t: Lock.Token, stage: Stage): map<Lock.Token, Section>
    requires t in s.sections
  {
    s.sections[t := s.sections[t].(stage := stage)]
  }

  function Apply(s: State, e: Event): State
    requires Enabled(s, e)
  {
    match e
    case Start(t, starter, busId, driverId) =>
      State(Lock.Apply(s.lock, Lock.Begin(t, busId, driverId)),
        s.sections[t := Section(starter, busId, driverId, Waiting)], s.trips)
    case Locking(l) => s.(lock := Lock.Apply(s.lock, l))
    case Recheck(t) =>
      var c := s.sections[t];
      s.(sections := MoveTo(s, t, if Blocked(s.trips, c.starter, c.busId, c.driverId) then Leaving else Cleared))
    case GiveUp(t) => s.(sections := MoveTo(s, t, Leaving))
    case Create(t) =>
      var c := s.sections[t];
      s.(sections := MoveTo(s, t, Leaving), trips := s.trips + [Trip(c.busId, c.driverId, Running)])
    case Leave(t) => s.(lock := Lock.Apply(s.lock, Lock.BeginRelease(t)))
    case End(i) => s.(trips := s.trips[i := s.trips[i].(status := Ended)])
    case OpenPreTrip(busId, driverId) => s.(trips := s.trips + [Trip(busId, driverId, PreTrip)])
    case Promote(i) => s.(trips := s.trips[i := s.trips[i].(status := Running)])
  }

  /** Starter t has passed its recheck and its lock on the bus is alive. */
  predicate IsCompeting(s: State, t: Lock.Token, busId: string) {
    InSection(s, t, Cleared) && s.sections[t].busId == busId && s.lock.now < s.lock.attempts[t].busExpiry
  }

  /** Promoting trip i can neither meet a running trip of its bus nor be followed by the create of a cleared starter. */
  ghost predicate PromotionIsSafe(s: State, i: nat)
    requires i < |s.trips|
  {
    && !BusRuns(s.trips, s.trips[i].busId)
    && forall t :: !IsCompeting(s, t, s.trips[i].busId)
  }

  /** Every create comes less than the deadline after its lock was taken, and promotions are safe. */
  ghost predicate Disciplined(s: State, e: Event, deadline: int)
    requires Enabled(s, e)
  {
    match e
    case Create(t) => s.lock.now - (s.lock.attempts[t].busExpiry - Lock.LOCK_TTL_MS) < deadline
    case Promote(i) => PromotionIsSafe(s, i)
    case _ => true
  }

  /** A run, given by its events; with a deadline, one that is disciplined at every step. */
  ghost predicate Runs(s: State, es: seq<Event>, deadline: Option<int>)
    decreases |es|, 0
  {
    es == [] ||
    var p := es[..|es| - 1];
    var e := es[|es| - 1];
    && Runs(s, p, deadline)
    && Enabled(After(s, p, deadline), e)
    && (deadline.Some? ==> Disciplined(After(s, p, deadline), e, deadline.value))
  }

  ghost function After(s: State, es: seq<Event>, deadline: Option<int>): State
    requires Runs(s, es, deadline)
    decreases |es|, 1
  {
    if es == [] then s else Apply(After(s, es[..|es| - 1], deadline), es[|es| - 1])
  }

  /** No bus has two running trips. */
  ghost predicate OneRunning(trips: seq<Trip>) {
    forall i, j :: 0 <= i < j < |trips| && trips[i].status == Running && trips[j].status == Running ==>
      trips[i].busId != trips[j].busId
  }

  function Initial(now: int, trips: seq<Trip>): State {
    State(Lock.Initial(now), map[], trips)
  }

  ghost predicate SectionsMatch(s: State) {
    forall t :: t in s.sections ==>
      && t in s.lock.attempts && s.lock.attempts[t].busId == s.sections[t].busId
      && (s.sections[t].stage == Cleared ==> s.lock.attempts[t].phase == Lock.Held)
  }

  /** While its lock lives, a starter cleared to create has no competitor. */
  ghost predicate ClearedIsCurrent(s: State) {
    forall t :: InSection(s, t, Cleared) && s.lock.now < s.lock.attempts[t].busExpiry ==>
      !BusRuns(s.trips, s.sections[t].busId)
  }

  ghost predicate Invariant(s: State) {
    Lock.Invariant(s.lock) && OneRunning(s.trips) && SectionsMatch(s) && ClearedIsCurrent(s)
  }

  /** A lock command leaves a holder's bus and expiry alone, and never moves time back. */
  lemma LockKeepsHolders(s: Lock.State, l: Lock.Event)
    requires Lock.Enabled(s, l)
    ensures
      var s' := Lock.Apply(s, l);
      && s.now <= s'.now
      && (forall t :: t in s.attempts ==> t in s'.attempts && s'.attempts[t].busId == s.attempts[t].busId)
      && (l.Begin? ==> l.token in s'.attempts && s'.attempts[l.token].busId == l.busId)
      && (forall t :: t in s.attempts && s.attempts[t].phase == Lock.Held && l != Lock.BeginRelease(t) ==>
          s'.attempts[t] == s.attempts[t])
  {}

  /** The lock command of a step that leaves the trips alone. */
  function CommandOf(e: Event): Lock.Event
    requires e.Start? || e.Locking? || e.Leave?
  {
    if e.Start? then Lock.Begin(e.token, e.busId, e.driverId)
    else if e.Locking? then e.e
    else Lock.BeginRelease(e.token)
  }

  lemma LockingMatches(s: State, e: Event)
    requires SectionsMatch(s) && Enabled(s, e) && (e.Start? || e.Locking? || e.Leave?)
    ensures SectionsMatch(Apply(s, e))
  {
    LockKeepsHolders(s.lock, CommandOf(e));
    hide Lock.Apply, Lock.Enabled;
  }

  lemma LockingKeepsCleared(s: State, e: Event)
    requires SectionsMatch(s) && ClearedIsCurrent(s) && Enabled(s, e) && (e.Start? || e.Locking? || e.Leave?)
    ensures ClearedIsCurrent(Apply(s, e))
  {
    LockKeepsHolders(s.lock, CommandOf(e));
    hide BusRuns, Lock.Apply, Lock.Enabled;
    var s' := Apply(s, e);
    forall t | InSection(s', t, Cleared) && s'.lock.now < s'.lock.attempts[t].busExpiry
      ensures !BusRuns(s'.trips, s'.sections[t].busId)
    {
      assert InSection(s, t, Cleared);
    }
  }

  lemma LockingApplies(s: State, e: Event)
    requires Enabled(s, e) && (e.Start? || e.Locking? || e.Leave?)
    ensures Lock.Enabled(s.lock, CommandOf(e))
    ensures Apply(s, e).lock == Lock.Apply(s.lock, CommandOf(e)) && Apply(s, e).trips == s.trips
  {
    hide Lock.Apply;
  }

  lemma LockingStep(s: State, e: Event)
    requires Invariant(s) && Enabled(s, e) && (e.Start? || e.Locking? || e.Leave?)
    ensures Invariant(Apply(s, e))
  {
    hide Lock.Invariant, OneRunning, SectionsMatch, ClearedIsCurrent, Lock.Apply, Lock.Enabled;
    hide Apply, Enabled, CommandOf;
    LockingApplies(s, e);
    Lock.InvariantStep(s.lock, CommandOf(e));
    LockingMatches(s, e);
    LockingKeepsCleared(s, e);
  }

  lemma AddTrip(trips: seq<Trip>, t: Trip)
    ensures forall b :: BusRuns(trips + [t], b) <==> BusRuns(trips, b) || (t.status == Running && t.busId == b)
    ensures OneRunning(trips + [t]) <==> OneRunning(trips) && (t.status == Running ==> !BusRuns(trips, t.busId))
  {
    var trips' := trips + [t];
    forall b ensures BusRuns(trips', b) <==> BusRuns(trips, b) || (t.status == Running && t.busId == b) {
      if BusRuns(trips, b) {
        var i :| 0 <= i < |trips| && trips[i].busId == b && trips[i].status == Running;
        assert trips'[i] == trips[i];
      }
      if t.status == Running && t.busId == b {
        assert trips'[|trips|] == t;
      }
    }
    if t.status == Running && BusRuns(trips, t.busId) {
      var i :| 0 <= i < |trips| && trips[i].busId == t.busId && trips[i].status == Running;
      assert trips'[i].busId == trips'[|trips|].busId;
      assert !OneRunning(trips');
    } else if !OneRunning(trips) {
      var i, j :| 0 <= i < j < |trips| && trips[i].status == Running && trips[j].status == Running &&
        trips[i].busId == trips[j].busId;
      assert trips'[i].busId == trips'[j].busId;
      assert !OneRunning(trips');
    }
  }

  lemma ChangeTrip(trips: seq<Trip>, i: nat, status: Status)
    requires i < |trips| && OneRunning(trips)
    ensures
      var trips' := trips[i := trips[i].(status := status)];
      && (status != Running ==> OneRunning(trips') && forall b :: BusRuns(trips', b) ==> BusRuns(trips, b))
      && (status == Running && trips[i].status != Running ==>
            (OneRunning(trips') <==> !BusRuns(trips, trips[i].busId)))
  {
    var trips' := trips[i := trips[i].(status := status)];
    if status == Running && trips[i].status != Running && BusRuns(trips, trips[i].busId) {
      var j :| 0 <= j < |trips| && trips[j].busId == trips[i].busId && trips[j].status == Running;
      assert trips'[j] == trips[j] && trips'[i].status == Running && i != j;
      assert !OneRunning(trips') by {
        if i < j { assert trips'[i].busId == trips'[j].busId; } else { assert trips'[j].busId == trips'[i].busId; }
      }
    }
  }

  lemma HolderIsUnique(s: Lock.State, t: Lock.Token, u: Lock.Token)
    requires Lock.Invariant(s)
    requires t in s.attempts && s.attempts[t].phase == Lock.Held && s.now < s.attempts[t].busExpiry
    requires u in s.attempts && s.attempts[u].phase == Lock.Held && s.now < s.attempts[u].busExpiry
    requires s.attempts[t].busId == s.attempts[u].busId
    ensures t == u
  {
    var k := Lock.BusKey(s.attempts[t].busId);
    assert Lock.Owns(s.attempts[t], k) && Lock.Owns(s.attempts[u], k);
    assert s.store[k].value == t;
  }

  /** Creating under a live lock cannot collide: another cleared starter of the bus would hold the same key. */
  lemma CreateStep(s: State, e: Event)
    requires Invariant(s) && Enabled(s, e) && e.Create? && Disciplined(s, e, Lock.LOCK_TTL_MS)
    ensures Invariant(Apply(s, e))
  {
    var t, s' := e.token, Apply(s, e);
    var busId := s.sections[t].busId;
    AddTrip(s.trips, Trip(busId, s.sections[t].driverId, Running));
    hide OneRunning, BusRuns;
    forall u | InSection(s', u, Cleared) && s'.lock.now < s'.lock.attempts[u].busExpiry
      ensures !BusRuns(s'.trips, s'.sections[u].busId)
    {
      assert InSection(s, u, Cleared) && u != t;
      if s.sections[u].busId == busId {
        HolderIsUnique(s.lock, t, u);
      }
    }
  }

  lemma TripStep(s: State, e: Event)
    requires Invariant(s) && Enabled(s, e) && (e.Recheck? || e.GiveUp? || e.End? || e.OpenPreTrip?)
    ensures Invariant(Apply(s, e))
  {
    hide Lock.Invariant;
    if e.End? {
      ChangeTrip(s.trips, e.trip, Ended);
    } else if e.OpenPreTrip? {
      AddTrip(s.trips, Trip(e.busId, e.driverId, PreTrip));
    }
    hide OneRunning, BusRuns;
    var s' := Apply(s, e);
    forall t | InSection(s', t, Cleared) && s'.lock.now < s'.lock.attempts[t].busExpiry
      ensures !BusRuns(s'.trips, s'.sections[t].busId)
    {
      assert InSection(s, t, Cleared) || e == Recheck(t);
    }
  }

  /** Promoting keeps the invariant exactly when it is safe. */
  lemma PromoteStep(s: State, i: nat)
    requires Invariant(s) && Enabled(s, Promote(i))
    ensures Invariant(Apply(s, Promote(i))) <==> PromotionIsSafe(s, i)
  {
    var s', busId := Apply(s, Promote(i)), s.trips[i].busId;
    ChangeTrip(s.trips, i, Running);
    PromotedRuns(s.trips, i);
    hide OneRunning, BusRuns, Lock.Invariant;
    forall t | InSection(s', t, Cleared) && s'.lock.now < s'.lock.attempts[t].busExpiry
      ensures BusRuns(s'.trips, s'.sections[t].busId) <==> IsCompeting(s, t, busId)
    {
      assert InSection(s, t, Cleared);
    }
    if t :| IsCompeting(s, t, busId) {
      assert InSection(s', t, Cleared);
    }
  }

  lemma PromotedRuns(trips: seq<Trip>, i: nat)
    requires i < |trips|
    ensures
      var trips' := trips[i := trips[i].(status := Running)];
      forall b :: BusRuns(trips', b) <==> BusRuns(trips, b) || b == trips[i].busId
  {
    var trips' := trips[i := trips[i].(status := Running)];
    assert trips'[i].status == Running;
    forall b | BusRuns(trips, b) ensures BusRuns(trips', b) {
      var j :| 0 <= j < |trips| && trips[j].busId == b && trips[j].status == Running;
      assert trips'[j].busId == b;
    }
  }

  lemma InvariantStep(s: State, e: Event)
    requires Invariant(s) && Enabled(s, e) && Disciplined(s, e, Lock.LOCK_TTL_MS)
    ensures Invariant(Apply(s, e))
  {
    hide Invariant, Apply;
    match e {
      case Create(_) => CreateStep(s, e);
      case Promote(i) => PromoteStep(s, i);
      case Start(_, _, _, _) => LockingStep(s, e);
      case Locking(_) => LockingStep(s, e);
      case Leave(_) => LockingStep(s, e);
      case _ => TripStep(s, e);
    }
  }

  lemma {:induction false} InvariantAlways(s: State, es: seq<Event>, deadline: int)
    requires Invariant(s) && Runs(s, es, Some(deadline)) && deadline <= Lock.LOCK_TTL_MS
    ensures Invariant(After(s, es, Some(deadline)))
    decreases |es|
  {
    if es != [] {
      InvariantAlways(s, es[..|es| - 1], deadline);
      hide Invariant, Apply;
      InvariantStep(After(s, es[..|es| - 1], Some(deadline)), es[|es| - 1]);
    }
  }

  /** In every disciplined interleaving of the three starters, safe promotions included, no bus ever has two
      running trips. */
  lemma OneRunningTripPerBus(now: int, trips: seq<Trip>, es: seq<Event>)
    requires OneRunning(trips) && Runs(Initial(now, trips), es, Some(Lock.LOCK_TTL_MS))
    ensures OneRunning(After(Initial(now, trips), es, Some(Lock.LOCK_TTL_MS)).trips)
  {
    InvariantAlways(Initial(now, trips), es, Lock.LOCK_TTL_MS);
  }

  // ---- Which promotions are harmless ----

  /** Whatever disciplined run follows, no bus gets two running trips. */
  ghost predicate StaysSound(s: State) {
    forall es: seq<Event> :: Runs(s, es, Some(Lock.LOCK_TTL_MS)) ==>
      OneRunning(After(s, es, Some(Lock.LOCK_TTL_MS)).trips)
  }

  /** Promotion looks at nothing but its own row. Over everything that may follow it is harmless exactly when the
      bus has no running trip and no starter of the bus stands between its recheck and its create. */
  lemma PromotionIsSafeExactlyWhenUncontested(s: State, i: nat)
    requires Invariant(s) && Enabled(s, Promote(i))
    ensures StaysSound(Apply(s, Promote(i))) <==> PromotionIsSafe(s, i)
  {
    var s', busId := Apply(s, Promote(i)), s.trips[i].busId;
    if PromotionIsSafe(s, i) {
      PromoteStep(s, i);
      forall es: seq<Event> | Runs(s', es, Some(Lock.LOCK_TTL_MS))
        ensures OneRunning(After(s', es, Some(Lock.LOCK_TTL_MS)).trips)
      {
        InvariantAlways(s', es, Lock.LOCK_TTL_MS);
      }
    } else {
      var es := PromotionCollides(s, i);
    }
  }

  /** An unsafe promotion collides at once, or with the create it overtook. */
  lemma PromotionCollides(s: State, i: nat) returns (es: seq<Event>)
    requires Invariant(s) && Enabled(s, Promote(i)) && !PromotionIsSafe(s, i)
    ensures Runs(Apply(s, Promote(i)), es, Some(Lock.LOCK_TTL_MS))
    ensures !OneRunning(After(Apply(s, Promote(i)), es, Some(Lock.LOCK_TTL_MS)).trips)
  {
    var s', busId := Apply(s, Promote(i)), s.trips[i].busId;
    ChangeTrip(s.trips, i, Running);
    PromotedRuns(s.trips, i);
    es := [];
    hide OneRunning, BusRuns, Lock.Invariant;
    if !BusRuns(s.trips, busId) {
      var t :| IsCompeting(s, t, busId);
      es := [Create(t)];
      assert es[..0] == [];
      assert InSection(s', t, Cleared);
      AddTrip(s'.trips, Trip(busId, s.sections[t].driverId, Running));
    }
  }

  lemma Extend(s: State, es: seq<Event>, e: Event, deadline: Option<int>)
    requires Runs(s, es, deadline) && Enabled(After(s, es, deadline), e)
    requires deadline.Some? ==> Disciplined(After(s, es, deadline), e, deadline.value)
    ensures Runs(s, es + [e], deadline)
    ensures After(s, es + [e], deadline) == Apply(After(s, es, deadline), e)
  {
    hide Enabled, Apply, Disciplined;
    assert (es + [e])[..|es|] == es;
  }

  /** The commands of a starter without a driver, up to the recheck. */
  function RecheckEvents(t: Lock.Token, busId: string): seq<Event> {
    [Start(t, Admin, busId, None), Locking(Lock.SetBus(t)), Recheck(t)]
  }

  /** The state after them, when lock and bus are free. */
  function Rechecked(s: State, t: Lock.Token, busId: string): State {
    var expiry := s.lock.now + Lock.LOCK_TTL_MS;
    var attempt := Lock.Attempt(busId, None, Lock.Held, expiry, s.lock.now);
    s.(
      lock := Lock.State(Redis.SetNx(s.lock.store, s.lock.now, Lock.BusKey(busId), t, Lock.LOCK_TTL_MS), s.lock.now,
        s.lock.attempts[t := attempt]),
      sections := s.sections[t := Section(Admin, busId, None, Cleared)])
  }

  /** The token is new, and neither lock nor bus is taken. */
  predicate IsFree(s: State, t: Lock.Token, busId: string) {
    && t !in s.lock.attempts && t !in s.sections
    && Lock.BusKey(busId) !in s.lock.store && !BusRuns(s.trips, busId)
  }

  lemma RecheckSteps(s: State, t: Lock.Token, busId: string)
    requires IsFree(s, t, busId)
    ensures Enabled(s, Start(t, Admin, busId, None))
    ensures
      var s1 := Apply(s, Start(t, Admin, busId, None));
      && Enabled(s1, Locking(Lock.SetBus(t))) && Enabled(Apply(s1, Locking(Lock.SetBus(t))), Recheck(t))
      && Apply(Apply(s1, Locking(Lock.SetBus(t))), Recheck(t)) == Rechecked(s, t, busId)
  {
    hide BusRuns;
  }

  lemma Undisputed(s: State, e: Event, deadline: Option<int>)
    requires Enabled(s, e) && !e.Create? && !e.Promote?
    ensures deadline.Some? ==> Disciplined(s, e, deadline.value)
  {}

  lemma ReachesRecheck(s: State, es: seq<Event>, t: Lock.Token, busId: string, deadline: Option<int>)
    requires Runs(s, es, deadline) && IsFree(After(s, es, deadline), t, busId)
    ensures Runs(s, es + RecheckEvents(t, busId), deadline)
    ensures After(s, es + RecheckEvents(t, busId), deadline) == Rechecked(After(s, es, deadline), t, busId)
  {
    hide Runs, After, Enabled, Apply, Disciplined, IsFree, Rechecked;
    var s0, a, b, c := After(s, es, deadline), Start(t, Admin, busId, None), Locking(Lock.SetBus(t)), Recheck(t);
    RecheckSteps(s0, t, busId);
    Undisputed(s0, a, deadline);
    Undisputed(Apply(s0, a), b, deadline);
    Undisputed(Apply(Apply(s0, a), b), c, deadline);
    Extend(s, es, a, deadline);
    Extend(s, es + [a], b, deadline);
    Extend(s, es + [a] + [b], c, deadline);
    assert es + [a] + [b] + [c] == es + RecheckEvents(t, busId);
  }

  lemma NoEvents(s: State, deadline: Option<int>)
    ensures Runs(s, [], deadline) && After(s, [], deadline) == s
  {}

  lemma TwoRun(busId: string)
    ensures !OneRunning([Trip(busId, None, Running), Trip(busId, None, Running)])
  {
    var trips := [Trip(busId, None, Running), Trip(busId, None, Running)];
    assert trips[0].busId == trips[1].busId;
  }

  lemma NothingRuns(busId: string)
    ensures !BusRuns([], busId) && !BusRuns([Trip(busId, None, PreTrip)], busId)
  {}

  /** The promotion that breaks the claim meets an idle bus: it slips in between a starter's recheck and its create. */
  lemma PromotionSlipsIn(now: int, busId: string) returns (es: seq<Event>)
    ensures Runs(Initial(now, []), es, None) && !OneRunning(After(Initial(now, []), es, None).trips)
    ensures |es| == 6 && es[4] == Promote(0) && es[5] == Create(0)
    ensures Runs(Initial(now, []), es[..4], None) && !BusRuns(After(Initial(now, []), es[..4], None).trips, busId)
  {
    hide Runs, After, Enabled, Apply, OneRunning, Rechecked, IsFree, Initial, BusRuns;
    var s0, open := Initial(now, []), OpenPreTrip(busId, None);
    assert Runs(s0, [], None) && After(s0, [], None) == s0 by { NoEvents(s0, None); }
    PromotesOverCleared(now, busId);
    ReachesRecheck(s0, [], 0, busId, None);
    es := [] + RecheckEvents(0, busId);
    Extend(s0, es, open, None);
    es := es + [open];
    ghost var idle := es;
    Extend(s0, es, Promote(0), None);
    es := es + [Promote(0)];
    Extend(s0, es, Create(0), None);
    es := es + [Create(0)];
    assert es[..4] == idle;
    TwoRun(busId);
  }

  /** With starter 0 cleared, a trip is opened and promoted on an idle bus, and the starter creates another. */
  lemma PromotesOverCleared(now: int, busId: string)
    ensures IsFree(Initial(now, []), 0, busId)
    ensures
      var s1, open := Rechecked(Initial(now, []), 0, busId), OpenPreTrip(busId, None);
      && Enabled(s1, open) && !BusRuns(Apply(s1, open).trips, busId)
      && Enabled(Apply(s1, open), Promote(0))
      && var s2 := Apply(Apply(s1, open), Promote(0));
         && Enabled(s2, Create(0))
         && Apply(s2, Create(0)).trips == [Trip(busId, None, Running), Trip(busId, None, Running)]
  {
    NothingRuns(busId);
    hide BusRuns;
    assert Apply(Rechecked(Initial(now, []), 0, busId), OpenPreTrip(busId, None)).trips == [Trip(busId, None, PreTrip)];
  }

  // ---- How much time a section may take ----

  /** Without promotions, no bus gets two running trips in any run that meets the deadline. */
  ghost predicate DeadlineSuffices(deadline: int) {
    forall now: int, trips: seq<Trip>, es: seq<Event> ::
      OneRunning(trips) && Runs(Initial(now, trips), es, Some(deadline)) && WithoutPromotions(es) ==>
        OneRunning(After(Initial(now, trips), es, Some(deadline)).trips)
  }

  ghost predicate WithoutPromotions(es: seq<Event>) {
    forall i :: 0 <= i < |es| ==> !es[i].Promote?
  }

  /** A deadline on the time from taking the lock to creating the trip keeps one running trip per bus exactly when it
      does not exceed the lock's lifetime. */
  lemma DeadlineSufficesExactly(deadline: int)
    ensures DeadlineSuffices(deadline) <==> deadline <= 10_000
  {
    if deadline <= Lock.LOCK_TTL_MS {
      forall now: int, trips: seq<Trip>, es: seq<Event> |
        OneRunning(trips) && Runs(Initial(now, trips), es, Some(deadline)) && WithoutPromotions(es)
        ensures OneRunning(After(Initial(now, trips), es, Some(deadline)).trips)
      {
        InvariantAlways(Initial(now, trips), es, deadline);
      }
    } else {
      var es := SlowSectionBreaksIt(0, "", deadline);
      assert OneRunning([]);
    }
  }

  /** With any later deadline two starters can meet: the first one's lock expires between its recheck and its create. */
  lemma SlowSectionBreaksIt(now: int, busId: string, deadline: int) returns (es: seq<Event>)
    requires deadline > Lock.LOCK_TTL_MS
    ensures Runs(Initial(now, []), es, Some(deadline)) && WithoutPromotions(es)
    ensures !OneRunning(After(Initial(now, []), es, Some(deadline)).trips)
  {
    hide Runs, After, Enabled, Apply, Disciplined, OneRunning, Rechecked, IsFree, Initial, IsClearedFor;
    var s0, d, tick := Initial(now, []), Some(deadline), Locking(Lock.Tick(Lock.LOCK_TTL_MS));
    assert Runs(s0, [], d) && After(s0, [], d) == s0 by { NoEvents(s0, d); }
    FirstIsLate(now, busId, deadline);
    ReachesRecheck(s0, [], 0, busId, d);
    es := [] + RecheckEvents(0, busId);
    Undisputed(Rechecked(s0, 0, busId), tick, d);
    Extend(s0, es, tick, d);
    es := es + [tick];
    ReachesRecheck(s0, es, 1, busId, d);
    es := es + RecheckEvents(1, busId);
    CreatesTwice(s0, es, busId, deadline);
    es := es + [Create(0)] + [Create(1)];
  }

  /** Starter t of the bus, without a driver, is cleared and may still create. */
  predicate IsClearedFor(s: State, t: Lock.Token, busId: string, deadline: int) {
    && InSection(s, t, Cleared) && s.sections[t].busId == busId && s.sections[t].driverId == None
    && s.lock.now - (s.lock.attempts[t].busExpiry - Lock.LOCK_TTL_MS) < deadline
  }

  /** After its lock has expired the first starter is still cleared, and the second one finds lock and bus free. */
  lemma FirstIsLate(now: int, busId: string, deadline: int)
    requires deadline > Lock.LOCK_TTL_MS
    ensures IsFree(Initial(now, []), 0, busId)
    ensures
      var s1, tick := Rechecked(Initial(now, []), 0, busId), Locking(Lock.Tick(Lock.LOCK_TTL_MS));
      && Enabled(s1, tick) && IsFree(Apply(s1, tick), 1, busId)
      && var s2 := Rechecked(Apply(s1, tick), 1, busId);
         IsClearedFor(s2, 0, busId, deadline) && IsClearedFor(s2, 1, busId, deadline) && s2.trips == []
  {
    NothingRuns(busId);
    hide BusRuns;
  }

  /** Two cleared starters of a bus, both within their deadlines, create a trip each. */
  lemma CreatesTwice(s: State, es: seq<Event>, busId: string, deadline: int)
    requires Runs(s, es, Some(deadline)) && After(s, es, Some(deadline)).trips == []
    requires IsClearedFor(After(s, es, Some(deadline)), 0, busId, deadline)
    requires IsClearedFor(After(s, es, Some(deadline)), 1, busId, deadline)
    ensures Runs(s, es + [Create(0)] + [Create(1)], Some(deadline))
    ensures !OneRunning(After(s, es + [Create(0)] + [Create(1)], Some(deadline)).trips)
  {
    hide Runs, After, OneRunning;
    Extend(s, es, Create(0), Some(deadline));
    var t := After(s, es, Some(deadline));
    assert Apply(Apply(t, Create(0)), Create(1)).trips == [Trip(busId, None, Running), Trip(busId, None, Running)];
    Extend(s, es + [Create(0)], Create(1), Some(deadline));
    TwoRun(busId);
  }

  // ---- One uninterrupted start ----

  /** The trip stands in the way: it runs on the bus, or waits on it for the telematics starter, or runs under the
      driver for an administrator. */
  predicate Opposes(trip: Trip, starter: Starter, busId: string, driverId: Option<string>) {
    || (trip.status == Running && trip.busId == busId)
    || (trip.status == PreTrip && trip.busId == busId && starter == Telematics)
    || (trip.status == Running && driverId.Some? && trip.driverId == driverId && starter == Admin)
  }

  /** The queries of the recheck find something exactly when some trip stands in the way. */
  lemma BlockedExactly(trips: seq<Trip>, starter: Starter, busId: string, driverId: Option<string>)
    ensures Blocked(trips, starter, busId, driverId) <==>
      exists i :: 0 <= i < |trips| && Opposes(trips[i], starter, busId, driverId)
    ensures BusRuns(trips, busId) ==> Blocked(trips, starter, busId, driverId)
  {
    if i :| 0 <= i < |trips| && Opposes(trips[i], starter, busId, driverId) {
      assert trips[i].status == Running || trips[i].status == PreTrip;
    }
    if j :| 0 <= j < |trips| && trips[j].busId == busId && trips[j].status == Running {
      assert Opposes(trips[j], starter, busId, driverId);
    }
    if j :| 0 <= j < |trips| && trips[j].busId == busId && trips[j].status == PreTrip {
      assert starter == Telematics ==> Opposes(trips[j], starter, busId, driverId);
    }
    if j :| 0 <= j < |trips| && trips[j].driverId == driverId && trips[j].status == Running {
      assert starter == Admin && driverId.Some? ==> Opposes(trips[j], starter, busId, driverId);
    }
  }

  datatype StartResult = Started(trip: nat) | LockRefused | AlreadyActive

  class TripStarter {
    const locks: Lock.TripLockService
    var trips: seq<Trip>

    constructor (locks: Lock.TripLockService)
      ensures this.locks == locks && trips == []
    {
      this.locks := locks;
      trips := [];
    }

    /** The locked section shared by the three starters; the lock is given back on every path. */
    method StartTrip(starter: Starter, busId: string, driverId: Option<string>) returns (r: StartResult)
      requires locks.Valid()
      modifies this, locks
      ensures locks.Valid() && locks.store == old(locks.store) && locks.now == old(locks.now)
      ensures r == LockRefused <==>
        Lock.BusKey(busId) in old(locks.store) || (driverId.Some? && Lock.DriverKey(driverId.value) in old(locks.store))
      ensures r.Started? ==>
        forall i :: 0 <= i < |old(trips)| && old(trips)[i].status == Running ==> old(trips)[i].busId != busId
      ensures r.Started? && starter == Telematics ==>
        forall i :: 0 <= i < |old(trips)| && old(trips)[i].status == PreTrip ==> old(trips)[i].busId != busId
      ensures r.Started? && starter == Admin && driverId.Some? ==>
        forall i :: 0 <= i < |old(trips)| && old(trips)[i].status == Running ==> old(trips)[i].driverId != driverId
      ensures r == AlreadyActive ==>
        exists i :: 0 <= i < |old(trips)| && Opposes(old(trips)[i], starter, busId, driverId)
      ensures r.Started? ==> r.trip == |old(trips)| && trips == old(trips) + [Trip(busId, driverId, Running)]
      ensures !r.Started? ==> trips == old(trips)
      ensures OneRunning(old(trips)) ==> OneRunning(trips)
    {
      BlockedExactly(trips, starter, busId, driverId);
      hide BusRuns, DriverRuns, BusWaits, OneRunning, Blocked;
      var lock := locks.Acquire(busId, driverId);
      if !lock.Acquired? { return LockRefused; }
      if Blocked(trips, starter, busId, driverId) {
        r := AlreadyActive;
      } else {
        AddTrip(trips, Trip(busId, driverId, Running));
        r := Started(|trips|);
        trips := trips + [Trip(busId, driverId, Running)];
      }
      locks.Release(lock.lock);
    }
  }
}
