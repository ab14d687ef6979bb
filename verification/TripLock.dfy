/** The token lock that guards trip starts (src/services/tripLock.service.ts). */
module TripLock {
  import opened Wrappers
  import opened Redis

  const LOCK_TTL_MS := 10000

  datatype Key = BusKey(busId: string) | DriverKey(driverId: string)

  /** Tokens are random strings in the source; here each acquisition draws a fresh number. */
  type Token = nat

  type LockStore = Store<Key, Token>

  datatype Lock = Lock(busKey: Key, driverKey: Option<Key>, token: Token)

  datatype AcquireResult = Acquired(lock: Lock) | BusLocked | DriverLocked

  function DriverKeyOf(driverId: Option<string>): Option<Key> {
    if driverId.Some? then Some(DriverKey(driverId.value)) else None
  }

  // ---- One call at a time ----

  class TripLockService {
    var store: LockStore
    var now: int
    var nextToken: Token

    ghost predicate Valid()
      reads this
    {
      && (forall k :: k in store ==> store[k].value < nextToken)
      && (forall k :: k in store ==> !Expired(store[k], now))
    }

    constructor (start: int)
      ensures Valid() && store == map[] && now == start
    {
      store, now, nextToken := map[], start, 0;
    }

    /** acquireTripStartLock: both keys or none, and a refusal leaves the store as it was. */
    method Acquire(busId: string, driverId: Option<string>) returns (r: AcquireResult)
      requires Valid()
      modifies this
      ensures Valid() && now == old(now) && nextToken == old(nextToken) + 1
      ensures r == BusLocked <==> BusKey(busId) in old(store)
      ensures r == DriverLocked <==>
        BusKey(busId) !in old(store) && driverId.Some? && DriverKey(driverId.value) in old(store)
      ensures !r.Acquired? ==> store == old(store)
      ensures r.Acquired? ==>
        && r.lock == Lock(BusKey(busId), DriverKeyOf(driverId), old(nextToken))
        && store.Keys == old(store.Keys) + {r.lock.busKey} + (if driverId.Some? then {r.lock.driverKey.value} else {})
        && forall k :: k in store ==>
             store[k] == if k in old(store) then old(store[k]) else Entry(r.lock.token, Some(now + LOCK_TTL_MS))
    {
      var token := nextToken;
      nextToken := nextToken + 1;
      var busKey, driverKey := BusKey(busId), DriverKeyOf(driverId);
      var busOk := busKey !in store;
      store := SetNx(store, now, busKey, token, LOCK_TTL_MS);
      if !busOk { return BusLocked; }
      if driverKey.Some? {
        var driverOk := driverKey.value !in store;
        store := SetNx(store, now, driverKey.value, token, LOCK_TTL_MS);
        if !driverOk {
          ReleaseKey(busKey, token);
          return DriverLocked;
        }
      }
      r := Acquired(Lock(busKey, driverKey, token));
    }

    /** releaseLockKey: the key is gone afterwards unless another token holds it; nothing else changes. */
    method ReleaseKey(key: Key, token: Token)
      requires Valid()
      modifies this`store
      ensures Valid()
      ensures key in store <==> key in old(store) && old(store[key]).value != token
      ensures forall k :: k != key ==> (k in store <==> k in old(store))
      ensures forall k :: k in store ==> store[k] == old(store[k])
    {
      store := CompareAndDelete(store, key, token);
    }

    /** releaseTripStartLock: removes the lock's own keys and nothing else. */
    method Release(lock: Lock)
      requires Valid()
      modifies this`store
      ensures Valid()
      ensures forall k :: k in store <==>
        k in old(store) && !(old(store[k]).value == lock.token && (k == lock.busKey || Some(k) == lock.driverKey))
      ensures forall k :: k in store ==> store[k] == old(store[k])
    {
      ReleaseKey(lock.busKey, lock.token);
      if lock.driverKey.Some? {
        ReleaseKey(lock.driverKey.value, lock.token);
      }
    }

    /** Acquiring and then releasing while nothing expires restores the store. */
    method AcquireThenRelease(busId: string, driverId: Option<string>)
      requires Valid()
      modifies this
      ensures Valid() && store == old(store)
    {
      var r := Acquire(busId, driverId);
      if r.Acquired? {
        Release(r.lock);
      }
    }
  }

  // ---- Every interleaving of many callers ----

  datatype Phase =
    | WantBus
    | WantDriver
    | RollingBack
    | Refused
    | Held
    | Releasing(busDone: bool, driverDone: bool)
    | Released

  /** One call of acquireTripStartLock and, when it succeeds, of releaseTripStartLock.
      The expiry fields remember when its own SET commands will lapse. */
  datatype Attempt = Attempt(busId: string, driverId: Option<string>, phase: Phase, busExpiry: int, driverExpiry: int)

  datatype State = State(store: LockStore, now: int, attempts: map<Token, Attempt>)

  /** The atomic Redis commands of the callers, and the passing of time. */
  datatype Event =
    | Begin(token: Token, busId: string, driverId: Option<string>)
    | SetBus(token: Token)
    | SetDriver(token: Token)
    | Rollback(token: Token)
    | BeginRelease(token: Token)
    | ReleaseBus(token: Token)
    | ReleaseDriver(token: Token)
    | Tick(ms: nat)

  predicate Enabled(s: State, e: Event) {
    match e
    case Begin(t, _, _) => t !in s.attempts
    case Tick(_) => true
    case SetBus(t) => t in s.attempts && s.attempts[t].phase == WantBus
    case SetDriver(t) => t in s.attempts && s.attempts[t].phase == WantDriver && s.attempts[t].driverId.Some?
    case Rollback(t) => t in s.attempts && s.attempts[t].phase == RollingBack
    case BeginRelease(t) => t in s.attempts && s.attempts[t].phase == Held
    case ReleaseBus(t) => t in s.attempts && s.attempts[t].phase.Releasing? && !s.attempts[t].phase.busDone
    case ReleaseDriver(t) =>
      && t in s.attempts && s.attempts[t].driverId.Some?
      && s.attempts[t].phase.Releasing? && !s.attempts[t].phase.driverDone
  }

  function Done(busDone: bool, driverDone: bool): Phase {
    if busDone && driverDone then Released else Releasing(busDone, driverDone)
  }

  function Apply(s: State, e: Event): State
    requires Enabled(s, e)
  {
    match e
    case Tick(ms) => s.(now := s.now + ms, store := Expire(s.store, s.now + ms))
    case Begin(t, busId, driverId) => s.(attempts := s.attempts[t := Attempt(busId, driverId, WantBus, s.now, s.now)])
    case SetBus(t) =>
      var a := s.attempts[t];
      if BusKey(a.busId) in s.store then s.(attempts := s.attempts[t := a.(phase := Refused)])
      else
        State(SetNx(s.store, s.now, BusKey(a.busId), t, LOCK_TTL_MS), s.now,
          s.attempts[t := a.(phase := if a.driverId.Some? then WantDriver else Held, busExpiry := s.now + LOCK_TTL_MS)])
    case SetDriver(t) =>
      var a := s.attempts[t];
      if DriverKey(a.driverId.value) in s.store then
        s.(attempts := s.attempts[t := a.(phase := RollingBack)])
      else
        State(SetNx(s.store, s.now, DriverKey(a.driverId.value), t, LOCK_TTL_MS), s.now,
          s.attempts[t := a.(phase := Held, driverExpiry := s.now + LOCK_TTL_MS)])
    case Rollback(t) =>
      var a := s.attempts[t];
      State(CompareAndDelete(s.store, BusKey(a.busId), t), s.now, s.attempts[t := a.(phase := Refused)])
    case BeginRelease(t) =>
      var a := s.attempts[t];
      s.(attempts := s.attempts[t := a.(phase := Releasing(false, a.driverId.None?))])
    case ReleaseBus(t) =>
      var a := s.attempts[t];
      State(CompareAndDelete(s.store, BusKey(a.busId), t), s.now,
        s.attempts[t := a.(phase := Done(true, a.phase.driverDone))])
    case ReleaseDriver(t) =>
      var a := s.attempts[t];
      State(CompareAndDelete(s.store, DriverKey(a.driverId.value), t), s.now,
        s.attempts[t := a.(phase := Done(a.phase.busDone, true))])
  }

  predicate Runs(s: State, es: seq<Event>)
    decreases |es|
  {
    es == [] || (Enabled(s, es[0]) && Runs(Apply(s, es[0]), es[1..]))
  }

  function After(s: State, es: seq<Event>): State
    requires Runs(s, es)
    decreases |es|
  {
    if es == [] then s else After(Apply(s, es[0]), es[1..])
  }

  function Initial(now: int): State {
    State(map[], now, map[])
  }

  /** The caller has set this key and not yet tried to give it back. */
  predicate Owns(a: Attempt, k: Key) {
    match k
    case BusKey(b) =>
      a.busId == b && (a.phase.WantDriver? || a.phase.RollingBack? || a.phase.Held? ||
        (a.phase.Releasing? && !a.phase.busDone))
    case DriverKey(d) =>
      a.driverId == Some(d) && (a.phase.Held? || (a.phase.Releasing? && !a.phase.driverDone))
  }

  function ExpiryOf(a: Attempt, k: Key): int {
    if k.BusKey? then a.busExpiry else a.driverExpiry
  }

  /** Stored keys belong to a caller that owns them ... */
  ghost predicate StoreIsOwned(s: State) {
    forall k :: k in s.store ==>
      && s.store[k].value in s.attempts
      && Owns(s.attempts[s.store[k].value], k)
      && s.store[k].expiresAt == Some(ExpiryOf(s.attempts[s.store[k].value], k))
      && s.now < ExpiryOf(s.attempts[s.store[k].value], k)
  }

  /** ... and an owner whose time has not run out is still in the store. */
  ghost predicate OwnersAreStored(s: State) {
    forall t, k :: t in s.attempts && Owns(s.attempts[t], k) && s.now < ExpiryOf(s.attempts[t], k) ==>
      k in s.store && s.store[k].value == t
  }

  ghost predicate Invariant(s: State) {
    StoreIsOwned(s) && OwnersAreStored(s)
  }

  /** A caller t moves on to attempt b; key is the only key it may gain (gains) or lose. */
  ghost predicate Moves(s: State, s': State, t: Token, b: Attempt, key: Key, gains: bool) {
    && t in s.attempts && s'.now == s.now && s'.attempts == s.attempts[t := b]
    && (forall k :: k != key ==> Owns(b, k) == Owns(s.attempts[t], k))
    && (forall k :: k != key && Owns(b, k) ==> ExpiryOf(b, k) == ExpiryOf(s.attempts[t], k))
    && Owns(b, key) == gains
    && (gains ==> key !in s.store && s.now < ExpiryOf(b, key))
    && (gains ==> s'.store == s.store[key := Entry(t, Some(ExpiryOf(b, key)))])
    && (!gains ==> s'.store == CompareAndDelete(s.store, key, t))
  }

  lemma MovesKeepsOwners(s: State, s': State, t: Token, b: Attempt, key: Key, gains: bool)
    requires Invariant(s) && Moves(s, s', t, b, key, gains)
    ensures OwnersAreStored(s')
  {
    hide Owns, ExpiryOf;
    forall u, k | u in s'.attempts && Owns(s'.attempts[u], k) && s'.now < ExpiryOf(s'.attempts[u], k)
      ensures k in s'.store && s'.store[k].value == u
    {
      if k != key || u != t {
        assert u in s.attempts && Owns(s.attempts[u], k) && s.now < ExpiryOf(s.attempts[u], k);
      }
    }
  }

  lemma MovesKeepsStore(s: State, s': State, t: Token, b: Attempt, key: Key, gains: bool)
    requires Invariant(s) && Moves(s, s', t, b, key, gains)
    ensures StoreIsOwned(s')
  {
    hide Owns, ExpiryOf, OwnersAreStored;
    forall k | k in s'.store
      ensures
        && s'.store[k].value in s'.attempts
        && Owns(s'.attempts[s'.store[k].value], k)
        && s'.store[k].expiresAt == Some(ExpiryOf(s'.attempts[s'.store[k].value], k))
        && s'.now < ExpiryOf(s'.attempts[s'.store[k].value], k)
    {
      if k != key || !gains {
        assert k in s.store && s'.store[k] == s.store[k];
      }
    }
  }

  lemma SetStep(s: State, e: Event)
    requires Invariant(s) && Enabled(s, e) && (e.SetBus? || e.SetDriver?)
    ensures Invariant(Apply(s, e))
  {
    hide StoreIsOwned, OwnersAreStored;
    var s', a := Apply(s, e), s.attempts[e.token];
    var key := if e.SetBus? then BusKey(a.busId) else DriverKey(a.driverId.value);
    if key !in s.store {
      MovesKeepsOwners(s, s', e.token, s'.attempts[e.token], key, true);
      MovesKeepsStore(s, s', e.token, s'.attempts[e.token], key, true);
    } else {
      SamePossessions(s, s', e.token);
    }
  }

  lemma DeleteStep(s: State, e: Event)
    requires Invariant(s) && Enabled(s, e) && (e.Rollback? || e.ReleaseBus? || e.ReleaseDriver?)
    ensures Invariant(Apply(s, e))
  {
    hide StoreIsOwned, OwnersAreStored;
    var s', a := Apply(s, e), s.attempts[e.token];
    var key := if e.ReleaseDriver? then DriverKey(a.driverId.value) else BusKey(a.busId);
    MovesKeepsOwners(s, s', e.token, s'.attempts[e.token], key, false);
    MovesKeepsStore(s, s', e.token, s'.attempts[e.token], key, false);
  }

  /** A caller moves on without touching the store or its claims on it. */
  lemma SamePossessions(s: State, s': State, t: Token)
    requires Invariant(s) && t in s'.attempts && s' == s.(attempts := s.attempts[t := s'.attempts[t]])
    requires forall k :: Owns(s'.attempts[t], k) ==>
      t in s.attempts && Owns(s.attempts[t], k) && ExpiryOf(s'.attempts[t], k) == ExpiryOf(s.attempts[t], k)
    requires forall k :: t in s.attempts && Owns(s.attempts[t], k) ==> Owns(s'.attempts[t], k)
    ensures Invariant(s')
  {
    hide Owns, ExpiryOf;
  }

  lemma OtherStep(s: State, e: Event)
    requires Invariant(s) && Enabled(s, e) && (e.Begin? || e.BeginRelease? || e.Tick?)
    ensures Invariant(Apply(s, e))
  {
    if !e.Tick? {
      hide Invariant;
      SamePossessions(s, Apply(s, e), e.token);
    }
  }

  lemma InvariantStep(s: State, e: Event)
    requires Invariant(s) && Enabled(s, e)
    ensures Invariant(Apply(s, e))
  {
    hide Invariant, Apply;
    match e {
      case SetBus(_) => SetStep(s, e);
      case SetDriver(_) => SetStep(s, e);
      case Rollback(_) => DeleteStep(s, e);
      case ReleaseBus(_) => DeleteStep(s, e);
      case ReleaseDriver(_) => DeleteStep(s, e);
      case _ => OtherStep(s, e);
    }
  }

  lemma {:induction false} InvariantAlways(s: State, es: seq<Event>)
    requires Invariant(s) && Runs(s, es)
    ensures Invariant(After(s, es))
    decreases |es|
  {
    if es != [] {
      InvariantStep(s, es[0]);
      InvariantAlways(Apply(s, es[0]), es[1..]);
    }
  }

  /** The event deletes keys of the given token. */
  predicate GivesBack(e: Event, t: Token) {
    (e.Rollback? || e.ReleaseBus? || e.ReleaseDriver?) && e.token == t
  }

  lemma EntryStays(s: State, e: Event, k: Key)
    requires Enabled(s, e) && k in s.store && !GivesBack(e, s.store[k].value)
    requires s.store[k].expiresAt.Some? ==> Apply(s, e).now < s.store[k].expiresAt.value
    ensures k in Apply(s, e).store && Apply(s, e).store[k] == s.store[k]
  {}

  lemma {:induction false} TimePasses(s: State, es: seq<Event>)
    requires Runs(s, es)
    ensures s.now <= After(s, es).now
    decreases |es|
  {
    if es != [] { TimePasses(Apply(s, es[0]), es[1..]); }
  }

  /** Whatever all other callers do, acquire, roll back, release, a key stays with its token until that token's own
      caller gives it back or its lifetime is over. */
  lemma {:induction false} OnlyOwnKeysAreRemoved(s: State, es: seq<Event>, k: Key)
    requires Runs(s, es) && k in s.store
    requires forall i :: 0 <= i < |es| ==> !GivesBack(es[i], s.store[k].value)
    requires s.store[k].expiresAt.Some? ==> After(s, es).now < s.store[k].expiresAt.value
    ensures k in After(s, es).store && After(s, es).store[k] == s.store[k]
    decreases |es|
  {
    if es != [] {
      TimePasses(Apply(s, es[0]), es[1..]);
      EntryStays(s, es[0], k);
      OnlyOwnKeysAreRemoved(Apply(s, es[0]), es[1..], k);
    }
  }

  /** In every interleaving a refused or released caller has no key left under its token. */
  lemma RefusedHoldsNothing(now: int, es: seq<Event>, t: Token)
    requires Runs(Initial(now), es) && t in After(Initial(now), es).attempts
    requires var p := After(Initial(now), es).attempts[t].phase; p == Refused || p == Released
    ensures forall k :: k in After(Initial(now), es).store ==> After(Initial(now), es).store[k].value != t
  {
    InvariantAlways(Initial(now), es);
  }

  /** In every interleaving two unexpired acquisitions share neither a bus nor a driver. */
  lemma MutualExclusion(now: int, es: seq<Event>, t: Token, u: Token, k: Key)
    requires Runs(Initial(now), es)
    requires var s := After(Initial(now), es);
      && t in s.attempts && Owns(s.attempts[t], k) && s.now < ExpiryOf(s.attempts[t], k)
      && u in s.attempts && Owns(s.attempts[u], k) && s.now < ExpiryOf(s.attempts[u], k)
    ensures t == u
  {
    var s := After(Initial(now), es);
    InvariantAlways(Initial(now), es);
    assert s.store[k].value == t && s.store[k].value == u;
  }

  /** The commands of one acquisition that nobody interrupts. */
  function AcquireEvents(store: LockStore, t: Token, busId: string, driverId: Option<string>): seq<Event> {
    if BusKey(busId) in store || driverId.None? then [Begin(t, busId, driverId), SetBus(t)]
    else if DriverKey(driverId.value) in store then [Begin(t, busId, driverId), SetBus(t), SetDriver(t), Rollback(t)]
    else [Begin(t, busId, driverId), SetBus(t), SetDriver(t)]
  }

  lemma OneEvent(s: State, e: Event)
    requires Enabled(s, e)
    ensures Runs(s, [e]) && After(s, [e]) == Apply(s, e)
  {
    assert [e][1..] == [];
  }

  lemma TwoEvents(s: State, e: Event, f: Event)
    requires Enabled(s, e) && Enabled(Apply(s, e), f)
    ensures Runs(s, [e, f]) && After(s, [e, f]) == Apply(Apply(s, e), f)
  {
    hide Enabled, Apply;
    OneEvent(Apply(s, e), f);
    assert [e, f][1..] == [f];
  }

  lemma {:induction false} RunsConcat(s: State, es: seq<Event>, fs: seq<Event>)
    requires Runs(s, es) && Runs(After(s, es), fs)
    ensures Runs(s, es + fs) && After(s, es + fs) == After(After(s, es), fs)
    decreases |es|
  {
    if es == [] {
      assert es + fs == fs;
    } else {
      assert (es + fs)[1..] == es[1..] + fs;
      RunsConcat(Apply(s, es[0]), es[1..], fs);
    }
  }

  /** The state after the commands of an acquisition. */
  function Attempted(s: State, t: Token, busId: string, driverId: Option<string>): State {
    var expiry := s.now + LOCK_TTL_MS;
    if BusKey(busId) in s.store then
      s.(attempts := s.attempts[t := Attempt(busId, driverId, Refused, s.now, s.now)])
    else if driverId.None? then
      s.(store := SetNx(s.store, s.now, BusKey(busId), t, LOCK_TTL_MS),
         attempts := s.attempts[t := Attempt(busId, driverId, Held, expiry, s.now)])
    else if DriverKey(driverId.value) in s.store then
      s.(attempts := s.attempts[t := Attempt(busId, driverId, Refused, expiry, s.now)])
    else
      var store := SetNx(s.store, s.now, BusKey(busId), t, LOCK_TTL_MS);
      s.(store := SetNx(store, s.now, DriverKey(driverId.value), t, LOCK_TTL_MS),
         attempts := s.attempts[t := Attempt(busId, driverId, Held, expiry, expiry)])
  }

  lemma BusSteps(s: State, t: Token, busId: string, driverId: Option<string>)
    requires t !in s.attempts
    ensures Enabled(s, Begin(t, busId, driverId)) && Enabled(Apply(s, Begin(t, busId, driverId)), SetBus(t))
    ensures BusKey(busId) in s.store || driverId.None? ==>
      Apply(Apply(s, Begin(t, busId, driverId)), SetBus(t)) == Attempted(s, t, busId, driverId)
  {}

  lemma DriverSteps(s: State, t: Token, busId: string, driverId: Option<string>)
    requires t !in s.attempts && BusKey(busId) !in s.store && driverId.Some?
    requires Enabled(s, Begin(t, busId, driverId)) && Enabled(Apply(s, Begin(t, busId, driverId)), SetBus(t))
    ensures
      var s2 := Apply(Apply(s, Begin(t, busId, driverId)), SetBus(t));
      && Enabled(s2, SetDriver(t))
      && (DriverKey(driverId.value) !in s.store ==> Apply(s2, SetDriver(t)) == Attempted(s, t, busId, driverId))
      && (DriverKey(driverId.value) in s.store ==>
            Enabled(Apply(s2, SetDriver(t)), Rollback(t))
            && Apply(Apply(s2, SetDriver(t)), Rollback(t)) == Attempted(s, t, busId, driverId))
  {
    var s2 := Apply(Apply(s, Begin(t, busId, driverId)), SetBus(t));
    if DriverKey(driverId.value) in s.store {
      assert Apply(Apply(s2, SetDriver(t)), Rollback(t)).store == s.store;
    }
  }

  lemma RunsToAttempted(s: State, t: Token, busId: string, driverId: Option<string>)
    requires t !in s.attempts
    ensures Runs(s, AcquireEvents(s.store, t, busId, driverId))
    ensures After(s, AcquireEvents(s.store, t, busId, driverId)) == Attempted(s, t, busId, driverId)
  {
    hide Runs, After, Enabled, Apply, Attempted;
    var begin, setBus, setDriver := Begin(t, busId, driverId), SetBus(t), SetDriver(t);
    BusSteps(s, t, busId, driverId);
    TwoEvents(s, begin, setBus);
    if BusKey(busId) !in s.store && driverId.Some? {
      DriverSteps(s, t, busId, driverId);
      var s2 := Apply(Apply(s, begin), setBus);
      if DriverKey(driverId.value) in s.store {
        TwoEvents(s2, setDriver, Rollback(t));
        RunsConcat(s, [begin, setBus], [setDriver, Rollback(t)]);
        assert [begin, setBus] + [setDriver, Rollback(t)] == AcquireEvents(s.store, t, busId, driverId);
      } else {
        OneEvent(s2, setDriver);
        RunsConcat(s, [begin, setBus], [setDriver]);
        assert [begin, setBus] + [setDriver] == AcquireEvents(s.store, t, busId, driverId);
      }
    }
  }

  /** An uninterrupted acquisition acts on the store as TripLockService.Acquire does. */
  lemma UninterruptedAcquire(s: State, t: Token, busId: string, driverId: Option<string>)
    requires t !in s.attempts
    ensures
      var es := AcquireEvents(s.store, t, busId, driverId);
      && Runs(s, es)
      && var s' := After(s, es);
         var free := BusKey(busId) !in s.store && (driverId.Some? ==> DriverKey(driverId.value) !in s.store);
         && t in s'.attempts
         && (s'.attempts[t].phase == Held <==> free)
         && (s'.attempts[t].phase == Refused <==> !free)
         && (!free ==> s'.store == s.store)
         && (free ==> forall k :: k in s'.store <==> k in s.store || Owns(s'.attempts[t], k))
         && (free ==> forall k :: k in s'.store ==>
               s'.store[k] == if k in s.store then s.store[k] else Entry(t, Some(s.now + LOCK_TTL_MS)))
  {
    hide Runs, After, AcquireEvents;
    RunsToAttempted(s, t, busId, driverId);
  }
}
