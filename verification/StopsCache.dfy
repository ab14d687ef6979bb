/** The stop list cache: entries live under the route's version, and invalidating bumps the version
    (src/services/tripStopsCache.service.ts). */
module StopsCache {
  import opened Wrappers

  datatype CachedStop = CachedStop(stopId: string, stopName: string, stopOrder: int, lat: real, lng: real)

  type Stops = seq<CachedStop>

  const DEFAULT_VERSION: nat := 1

  // ---- One call at a time ----

  datatype Lookup = RouteNotFound | Found(stops: Stops)

  /** routes is the database; versions and entries are the Redis keys of all routes. */
  class TripStopsCache {
    var routes: map<string, Stops>
    var versions: map<string, nat>
    var entries: map<(string, nat), Stops>

    /** Entries never carry a version that has not been handed out. */
    ghost predicate Valid()
      reads this
    {
      && (forall r :: r in versions ==> versions[r] >= 1)
      && (forall r, v :: (r, v) in entries ==> v <= if r in versions then versions[r] else DEFAULT_VERSION)
    }

    constructor ()
      ensures Valid() && routes == map[] && versions == map[] && entries == map[]
    {
      routes, versions, entries := map[], map[], map[];
    }

    /** getRouteVersion */
    function RouteVersion(routeId: string): (v: nat)
      reads this
      requires Valid()
      ensures v >= 1 && forall w :: (routeId, w) in entries ==> w <= v
    {
      if routeId in versions then versions[routeId] else DEFAULT_VERSION
    }

    /** invalidateStopsByRoute: with a counter no entry can be found under the new version; without one, INCR starts
        at 1, and every entry that could be found before still can. Other routes keep their versions. */
    method InvalidateStops(routeId: string)
      requires Valid()
      modifies this`versions
      ensures Valid() && versions.Keys == old(versions).Keys + {routeId}
      ensures RouteVersion(routeId) == old(RouteVersion(routeId)) + if routeId in old(versions) then 1 else 0
      ensures routeId in old(versions) ==> (routeId, RouteVersion(routeId)) !in entries
      ensures forall r :: r != routeId ==> RouteVersion(r) == old(RouteVersion(r))
    {
      versions := versions[routeId := if routeId in versions then versions[routeId] + 1 else 1];
    }

    /** getStopsForRoute */
    method GetStops(routeId: string) returns (r: Lookup)
      requires Valid()
      modifies this`entries
      ensures Valid()
      ensures
        var k := (routeId, old(RouteVersion(routeId)));
        if k in old(entries) then r == Found(old(entries[k])) && entries == old(entries)
        else if routeId in routes then r == Found(routes[routeId]) && entries == old(entries)[k := routes[routeId]]
        else r == RouteNotFound && entries == old(entries)
    {
      var k := (routeId, RouteVersion(routeId));
      if k in entries { return Found(entries[k]); }
      if routeId !in routes { return RouteNotFound; }
      entries := entries[k := routes[routeId]];
      r := Found(routes[routeId]);
    }

    /** The route editor: commit the new stops, then invalidate. */
    method SaveStops(routeId: string, stops: Stops)
      requires Valid()
      modifies this`routes, this`versions
      ensures Valid() && routes == old(routes)[routeId := stops] && versions.Keys == old(versions).Keys + {routeId}
      ensures RouteVersion(routeId) == old(RouteVersion(routeId)) + if routeId in old(versions) then 1 else 0
      ensures forall r :: r != routeId ==> RouteVersion(r) == old(RouteVersion(r))
      ensures routeId in old(versions) ==> (routeId, RouteVersion(routeId)) !in entries
    {
      routes := routes[routeId := stops];
      InvalidateStops(routeId);
    }

    /** Uninterrupted, a save is visible to the next read as soon as the route has a version counter. */
    method SaveThenGet(routeId: string, stops: Stops) returns (r: Lookup)
      requires Valid()
      modifies this
      ensures Valid()
      ensures routeId in old(versions) || (routeId, DEFAULT_VERSION) !in old(entries) ==> r == Found(stops)
      ensures routeId !in old(versions) && (routeId, DEFAULT_VERSION) in old(entries) ==>
        r == Found(old(entries[(routeId, DEFAULT_VERSION)]))
    {
      SaveStops(routeId, stops);
      r := GetStops(routeId);
    }
  }

  // ---- Every interleaving of readers and writers of one route ----

  type Id = nat

  /** stamp is the commit the stops were read from; no command sees it. */
  datatype Entry = Entry(stops: Stops, stamp: nat)

  datatype ReaderPhase =
    | Begun
    | Versioned(version: nat)
    | Missed(version: nat)
    | Loaded(version: nat, entry: Entry)
    | Returned(entry: Entry)
    | NotFound

  /** since remembers the newest invalidation that had finished when the reader began. */
  datatype Reader = Reader(phase: ReaderPhase, since: nat)

  datatype Writer = Committed(stamp: nat) | Invalidated(stamp: nat, version: nat)

  /** history lists the route's stops after every commit (None when the route does not exist);
      floors remembers the last commit at the moment each version came up. */
  datatype State = State(
    history: seq<Option<Stops>>,
    version: Option<nat>,
    cache: map<nat, Entry>,
    floors: map<nat, nat>,
    readers: map<Id, Reader>,
    writers: map<Id, Writer>)

  datatype Event =
    | BeginRead(r: Id)
    | GetVersion(r: Id)
    | GetEntry(r: Id)
    | QueryDatabase(r: Id)
    | SetEntry(r: Id)
    | Commit(w: Id, stops: Option<Stops>)
    | Increment(w: Id)
    | Lapse(entry: nat)

  predicate Enabled(s: State, e: Event) {
    && |s.history| > 0
    && match e
       case BeginRead(r) => r !in s.readers
       case GetVersion(r) => r in s.readers && s.readers[r].phase.Begun?
       case GetEntry(r) => r in s.readers && s.readers[r].phase.Versioned?
       case QueryDatabase(r) => r in s.readers && s.readers[r].phase.Missed?
       case SetEntry(r) => r in s.readers && s.readers[r].phase.Loaded?
       case Commit(w, _) => w !in s.writers
       case Increment(w) => w in s.writers && s.writers[w].Committed?
       case Lapse(_) => true
  }

  function CurrentVersion(s: State): nat { s.version.UnwrapOr(DEFAULT_VERSION) }

  function LastCommit(s: State): nat
    requires |s.history| > 0
  {
    |s.history| - 1
  }

  function FloorOf(s: State, version: nat): nat {
    if version >= 2 && version in s.floors then s.floors[version] else 0
  }

  function Step(s: State, r: Id, phase: ReaderPhase): map<Id, Reader>
    requires r in s.readers
  {
    s.readers[r := s.readers[r].(phase := phase)]
  }

  function Apply(s: State, e: Event): State
    requires Enabled(s, e)
  {
    match e
    case BeginRead(r) => s.(readers := s.readers[r := Reader(Begun, FloorOf(s, CurrentVersion(s)))])
    case GetVersion(r) => s.(readers := Step(s, r, Versioned(CurrentVersion(s))))
    case GetEntry(r) =>
      var v := s.readers[r].phase.version;
      s.(readers := Step(s, r, if v in s.cache then Returned(s.cache[v]) else Missed(v)))
    case QueryDatabase(r) =>
      var stops := s.history[LastCommit(s)];
      s.(readers := Step(s, r,
        if stops.None? then NotFound else Loaded(s.readers[r].phase.version, Entry(stops.value, LastCommit(s)))))
    case SetEntry(r) =>
      var p := s.readers[r].phase;
      s.(cache := s.cache[p.version := p.entry], readers := Step(s, r, Returned(p.entry)))
    case Commit(w, stops) => s.(history := s.history + [stops], writers := s.writers[w := Committed(|s.history|)])
    case Increment(w) =>
      var v := if s.version.Some? then s.version.value + 1 else 1;
      s.(version := Some(v), floors := s.floors[v := LastCommit(s)],
         writers := s.writers[w := Invalidated(s.writers[w].stamp, v)])
    case Lapse(v) => s.(cache := s.cache - {v})
  }

  predicate Runs(s: State, es: seq<Event>)
    decreases |es|, 0
  {
    es == [] || (Runs(s, es[..|es| - 1]) && Enabled(After(s, es[..|es| - 1]), es[|es| - 1]))
  }

  function After(s: State, es: seq<Event>): State
    requires Runs(s, es)
    decreases |es|, 1
  {
    if es == [] then s else Apply(After(s, es[..|es| - 1]), es[|es| - 1])
  }

  /** The start: some stops, perhaps a version counter left by earlier saves, an empty cache. */
  ghost predicate Initial(s: State) {
    && |s.history| == 1 && s.cache == map[] && s.readers == map[] && s.writers == map[]
    && (s.version.None? ==> s.floors == map[])
    && (s.version.Some? ==> s.version.value >= 1 && forall v :: v in s.floors <==> 2 <= v <= s.version.value)
    && (forall v :: v in s.floors ==> s.floors[v] == 0)
  }

  /** A version that has come up. */
  predicate Issued(s: State, v: nat) {
    1 <= v <= CurrentVersion(s) && (v >= 2 ==> v in s.floors)
  }

  /** An entry is a database row no older than the moment its version came up. */
  predicate Sound(s: State, v: nat, e: Entry) {
    && Issued(s, v)
    && FloorOf(s, v) <= e.stamp < |s.history|
    && s.history[e.stamp] == Some(e.stops)
  }

  ghost predicate FloorsAscend(s: State) {
    && |s.history| > 0
    && CurrentVersion(s) >= 1
    && (forall v :: 2 <= v <= CurrentVersion(s) ==> v in s.floors)
    && (forall v :: v in s.floors ==> s.floors[v] <= LastCommit(s))
    && (forall v, u :: v in s.floors && u in s.floors && v <= u ==> s.floors[v] <= s.floors[u])
    && (forall v :: v in s.floors ==> 1 <= v <= CurrentVersion(s))
  }

  ghost predicate CacheIsSound(s: State) {
    forall v :: v in s.cache ==> Sound(s, v, s.cache[v])
  }

  predicate ReaderIsSound(s: State, r: Reader) {
    match r.phase
    case Begun => r.since <= FloorOf(s, CurrentVersion(s))
    case Versioned(v) => Issued(s, v) && r.since <= FloorOf(s, v)
    case Missed(v) => Issued(s, v) && r.since <= FloorOf(s, v)
    case Loaded(v, e) => Sound(s, v, e) && r.since <= FloorOf(s, v)
    case Returned(e) => r.since <= e.stamp < |s.history| && s.history[e.stamp] == Some(e.stops)
    case NotFound => true
  }

  ghost predicate ReadersAreSound(s: State) {
    forall r :: r in s.readers ==> ReaderIsSound(s, s.readers[r])
  }

  ghost predicate WritersAreOrdered(s: State) {
    forall w :: w in s.writers ==>
      && s.writers[w].stamp < |s.history|
      && (s.writers[w].Invalidated? ==>
            && 1 <= s.writers[w].version <= CurrentVersion(s)
            && s.writers[w].version in s.floors && s.writers[w].stamp <= s.floors[s.writers[w].version])
  }

  ghost predicate Invariant(s: State) {
    FloorsAscend(s) && CacheIsSound(s) && ReadersAreSound(s) && WritersAreOrdered(s)
  }

  lemma FloorsStep(s: State, e: Event)
    requires FloorsAscend(s) && Enabled(s, e)
    ensures FloorsAscend(Apply(s, e))
  {}

  /** Versions, floors and commits are only ever added. */
  lemma NothingIsLost(s: State, e: Event)
    requires FloorsAscend(s) && Enabled(s, e)
    ensures
      var s' := Apply(s, e);
      && |s.history| <= |s'.history| && s'.history[..|s.history|] == s.history
      && CurrentVersion(s) <= CurrentVersion(s')
      && (forall v: nat :: Issued(s, v) ==> Issued(s', v) && FloorOf(s', v) == FloorOf(s, v))
      && FloorOf(s, CurrentVersion(s)) <= FloorOf(s', CurrentVersion(s'))
  {}

  /** What was sound stays sound. */
  lemma SoundStays(s: State, e: Event, v: nat, entry: Entry)
    requires FloorsAscend(s) && Enabled(s, e) && Sound(s, v, entry)
    ensures Sound(Apply(s, e), v, entry)
  {
    NothingIsLost(s, e);
    hide FloorsAscend, Apply;
    var s' := Apply(s, e);
    assert s'.history[entry.stamp] == s'.history[..|s.history|][entry.stamp];
  }

  lemma CacheStep(s: State, e: Event)
    requires Invariant(s) && Enabled(s, e)
    ensures CacheIsSound(Apply(s, e))
  {
    var s' := Apply(s, e);
    forall v | v in s'.cache ensures Sound(s', v, s'.cache[v]) {
      if e.SetEntry? && v == s.readers[e.r].phase.version {
        assert ReaderIsSound(s, s.readers[e.r]);
      } else {
        assert s'.cache[v] == s.cache[v] && Sound(s, v, s.cache[v]);
      }
      hide Invariant, CacheIsSound, ReadersAreSound, WritersAreOrdered;
      SoundStays(s, e, v, s'.cache[v]);
    }
  }

  /** A reader that the event does not move stays sound. */
  lemma IdleReaderStays(s: State, e: Event, r: Reader)
    requires FloorsAscend(s) && Enabled(s, e) && ReaderIsSound(s, r)
    ensures ReaderIsSound(Apply(s, e), r)
  {
    NothingIsLost(s, e);
    if r.phase.Loaded? { SoundStays(s, e, r.phase.version, r.phase.entry); }
    hide FloorsAscend, Apply;
    var s' := Apply(s, e);
    if r.phase.Returned? {
      assert s'.history[r.phase.entry.stamp] == s'.history[..|s.history|][r.phase.entry.stamp];
    }
  }

  lemma MovingReaderStays(s: State, e: Event)
    requires Invariant(s) && Enabled(s, e) &&
      (e.BeginRead? || e.GetVersion? || e.GetEntry? || e.QueryDatabase? || e.SetEntry?)
    ensures ReaderIsSound(Apply(s, e), Apply(s, e).readers[e.r])
  {
    if !e.BeginRead? {
      assert ReaderIsSound(s, s.readers[e.r]);
      if e.GetEntry? && s.readers[e.r].phase.version in s.cache {
        assert Sound(s, s.readers[e.r].phase.version, s.cache[s.readers[e.r].phase.version]);
      }
    }
    hide ReadersAreSound, WritersAreOrdered, CacheIsSound;
  }

  lemma ReadersStep(s: State, e: Event)
    requires Invariant(s) && Enabled(s, e)
    ensures ReadersAreSound(Apply(s, e))
  {
    var s' := Apply(s, e);
    forall r | r in s'.readers ensures ReaderIsSound(s', s'.readers[r]) {
      if !e.Commit? && !e.Increment? && !e.Lapse? && r == e.r {
        MovingReaderStays(s, e);
      } else {
        assert s'.readers[r] == s.readers[r] && ReaderIsSound(s, s.readers[r]);
        IdleReaderStays(s, e, s.readers[r]);
      }
    }
  }

  lemma WritersStep(s: State, e: Event)
    requires Invariant(s) && Enabled(s, e)
    ensures WritersAreOrdered(Apply(s, e))
  {
    FloorsStep(s, e);
    NothingIsLost(s, e);
    hide CacheIsSound, ReadersAreSound;
  }

  lemma InvariantStep(s: State, e: Event)
    requires Invariant(s) && Enabled(s, e)
    ensures Invariant(Apply(s, e))
  {
    hide Apply, CacheIsSound, ReadersAreSound, WritersAreOrdered;
    FloorsStep(s, e);
    CacheStep(s, e);
    ReadersStep(s, e);
    WritersStep(s, e);
  }

  lemma {:induction false} InvariantAlways(s: State, es: seq<Event>)
    requires Invariant(s) && Runs(s, es)
    ensures Invariant(After(s, es))
    decreases |es|
  {
    if es != [] {
      InvariantAlways(s, es[..|es| - 1]);
      hide Invariant, Apply;
      InvariantStep(After(s, es[..|es| - 1]), es[|es| - 1]);
    }
  }

  lemma {:induction false} SinceIsKept(s: State, es: seq<Event>, r: Id)
    requires Runs(s, es) && r in s.readers
    ensures r in After(s, es).readers && After(s, es).readers[r].since == s.readers[r].since
    decreases |es|
  {
    if es != [] {
      SinceIsKept(s, es[..|es| - 1], r);
      hide Apply, Enabled;
      ReaderStays(After(s, es[..|es| - 1]), es[|es| - 1], r);
    }
  }

  lemma ReaderStays(s: State, e: Event, r: Id)
    requires Enabled(s, e) && r in s.readers
    ensures r in Apply(s, e).readers && Apply(s, e).readers[r].since == s.readers[r].since
  {}

  lemma InitialInvariant(s: State)
    requires Initial(s)
    ensures Invariant(s)
  {}

  /** A finished invalidation of a route that had a counter bounds every later reader from below. */
  lemma FinishedInvalidationCounts(s: State, w: Id)
    requires Invariant(s) && w in s.writers && s.writers[w].Invalidated? && s.writers[w].version >= 2
    ensures s.writers[w].stamp <= FloorOf(s, CurrentVersion(s))
  {
    hide CacheIsSound, ReadersAreSound;
  }

  lemma ReturnedIsSound(s: State, r: Id)
    requires ReadersAreSound(s) && r in s.readers && s.readers[r].phase.Returned?
    ensures
      var e := s.readers[r].phase.entry;
      s.readers[r].since <= e.stamp < |s.history| && s.history[e.stamp] == Some(e.stops)
  {
    assert ReaderIsSound(s, s.readers[r]);
  }

  /** Once the route has a version counter (so that the invalidation produced version 2 or later),
      a read that begins after an invalidation has returned yields stops that were read from the
      database no earlier than the writer's commit. */
  lemma ReadsAfterInvalidationAreFresh(s0: State, before: seq<Event>, w: Id, r: Id, after: seq<Event>)
    requires Initial(s0) && Runs(s0, before)
    requires var s := After(s0, before);
      && w in s.writers && s.writers[w].Invalidated? && s.writers[w].version >= 2
      && Enabled(s, BeginRead(r)) && Runs(Apply(s, BeginRead(r)), after)
    requires var t := After(Apply(After(s0, before), BeginRead(r)), after);
      r in t.readers && t.readers[r].phase.Returned?
    ensures
      var s := After(s0, before);
      var t := After(Apply(s, BeginRead(r)), after);
      var entry := t.readers[r].phase.entry;
      && s.writers[w].stamp <= entry.stamp < |t.history|
      && t.history[entry.stamp] == Some(entry.stops)
  {
    hide Initial, Runs, After, FloorsAscend, CacheIsSound, ReadersAreSound, WritersAreOrdered, FloorOf;
    var s := After(s0, before);
    InitialInvariant(s0);
    InvariantAlways(s0, before);
    FinishedInvalidationCounts(s, w);
    InvariantStep(s, BeginRead(r));
    var s1 := Apply(s, BeginRead(r));
    SinceIsKept(s1, after, r);
    InvariantAlways(s1, after);
    ReturnedIsSound(After(s1, after), r);
  }

  // ---- When an invalidation takes effect ----

  /** Reads begun after the increment, however they and all others go on, yield stops of commit k or later. */
  ghost predicate LaterReadsAreFresh(s: State, k: nat) {
    forall es: seq<Event>, r: Id :: Runs(s, es) && r !in s.readers ==> !ReturnsStale(After(s, es), r, k)
  }

  predicate ReturnsStale(s: State, r: Id, k: nat) {
    r in s.readers && s.readers[r].phase.Returned? && IsStale(s.readers[r].phase.entry, k)
  }

  predicate IsStale(entry: Entry, k: nat) { entry.stamp < k }

  /** Nothing older than commit k is cached, or about to be cached by a slow reader, under the default version. */
  ghost predicate DefaultIsClean(s: State, k: nat) {
    && (DEFAULT_VERSION in s.cache ==> !IsStale(s.cache[DEFAULT_VERSION], k))
    && forall r :: r in s.readers && s.readers[r].phase.Loaded? && s.readers[r].phase.version == DEFAULT_VERSION ==>
         !IsStale(s.readers[r].phase.entry, k)
  }

  predicate IsFreshReader(r: Reader, k: nat, version: nat, isNew: bool) {
    match r.phase
    case Begun => true
    case Versioned(v) => isNew ==> v >= version
    case Missed(v) => isNew ==> v >= version
    case Loaded(v, e) => (isNew ==> v >= version) && (v >= version ==> !IsStale(e, k))
    case Returned(e) => isNew ==> !IsStale(e, k)
    case NotFound => true
  }

  /** From the given version on nothing older than commit k is or will be cached, nor seen by a new reader. */
  ghost predicate FreshFrom(s: State, k: nat, version: nat, before: set<Id>) {
    && k < |s.history| && version <= CurrentVersion(s)
    && (forall v :: v in s.cache && v >= version ==> !IsStale(s.cache[v], k))
    && forall r :: r in s.readers ==> IsFreshReader(s.readers[r], k, version, r !in before)
  }

  lemma FreshStep(s: State, e: Event, k: nat, version: nat, before: set<Id>)
    requires FreshFrom(s, k, version, before) && Enabled(s, e) && CurrentVersion(s) >= 1
    ensures FreshFrom(Apply(s, e), k, version, before) && CurrentVersion(Apply(s, e)) >= 1
  {
    var s' := Apply(s, e);
    forall r | r in s'.readers ensures IsFreshReader(s'.readers[r], k, version, r !in before) {
      if r in s.readers { assert IsFreshReader(s.readers[r], k, version, r !in before); }
    }
    if e.SetEntry? {
      assert IsFreshReader(s.readers[e.r], k, version, e.r !in before);
    }
  }

  lemma {:induction false} FreshAlways(s: State, es: seq<Event>, k: nat, version: nat, before: set<Id>)
    requires FreshFrom(s, k, version, before) && Runs(s, es) && CurrentVersion(s) >= 1
    ensures FreshFrom(After(s, es), k, version, before) && CurrentVersion(After(s, es)) >= 1
    decreases |es|
  {
    if es != [] {
      FreshAlways(s, es[..|es| - 1], k, version, before);
      hide FreshFrom, Apply;
      FreshStep(After(s, es[..|es| - 1]), es[|es| - 1], k, version, before);
    }
  }

  lemma FreshAtFirst(s: State, w: Id)
    requires Invariant(s) && Enabled(s, Increment(w))
    requires s.version.Some? || DefaultIsClean(s, s.writers[w].stamp)
    ensures
      var s' := Apply(s, Increment(w));
      FreshFrom(s', s.writers[w].stamp, CurrentVersion(s'), s'.readers.Keys) && CurrentVersion(s') >= 1
  {
    var s', k := Apply(s, Increment(w)), s.writers[w].stamp;
    forall v | v in s.cache && v >= CurrentVersion(s') ensures !IsStale(s.cache[v], k) {
      assert Sound(s, v, s.cache[v]);
    }
    forall r | r in s.readers ensures IsFreshReader(s.readers[r], k, CurrentVersion(s'), false) {
      assert ReaderIsSound(s, s.readers[r]);
    }
    hide CacheIsSound, ReadersAreSound;
  }

  lemma Extend(s: State, es: seq<Event>, e: Event)
    requires Runs(s, es) && Enabled(After(s, es), e)
    ensures Runs(s, es + [e]) && After(s, es + [e]) == Apply(After(s, es), e)
  {
    hide Enabled, Apply;
    assert (es + [e])[..|es|] == es;
  }

  /** A new reader gets whatever is cached under the current version. */
  lemma ReadsTheCache(s: State, es: seq<Event>, r: Id)
    requires Runs(s, es) && |After(s, es).history| > 0 && r !in After(s, es).readers
    requires CurrentVersion(After(s, es)) in After(s, es).cache
    ensures
      var es' := es + [BeginRead(r)] + [GetVersion(r)] + [GetEntry(r)];
      && Runs(s, es') && r in After(s, es').readers
      && After(s, es').readers[r].phase == Returned(After(s, es).cache[CurrentVersion(After(s, es))])
  {
    hide Runs, After;
    Extend(s, es, BeginRead(r));
    Extend(s, es + [BeginRead(r)], GetVersion(r));
    Extend(s, es + [BeginRead(r)] + [GetVersion(r)], GetEntry(r));
  }

  /** A stale entry under the default version, or a slow reader that is about to write one, reaches a new reader. */
  lemma StaleEntryIsRead(s: State, w: Id) returns (es: seq<Event>, r: Id)
    requires Invariant(s) && Enabled(s, Increment(w)) && s.version.None? && !DefaultIsClean(s, s.writers[w].stamp)
    ensures
      var s' := Apply(s, Increment(w));
      Runs(s', es) && r !in s'.readers && ReturnsStale(After(s', es), r, s.writers[w].stamp)
  {
    var s', k := Apply(s, Increment(w)), s.writers[w].stamp;
    es := [];
    r := FreshNumber(s'.readers.Keys);
    assert r !in s'.readers;
    hide Invariant;
    if !(DEFAULT_VERSION in s.cache && IsStale(s.cache[DEFAULT_VERSION], k)) {
      var q :| q in s.readers && s.readers[q].phase.Loaded? && s.readers[q].phase.version == DEFAULT_VERSION
        && IsStale(s.readers[q].phase.entry, k);
      Extend(s', [], SetEntry(q));
      es := [] + [SetEntry(q)];
    }
    assert CurrentVersion(After(s', es)) == DEFAULT_VERSION && IsStale(After(s', es).cache[DEFAULT_VERSION], k);
    ReadsTheCache(s', es, r);
    es := es + [BeginRead(r)] + [GetVersion(r)] + [GetEntry(r)];
  }

  /** An invalidation takes effect, for every read begun after it and whatever slower readers write back, exactly
      when the route already had a counter or nothing stale is or will be cached under the default version, which the
      first INCR yields again. */
  lemma InvalidationTakesEffectExactly(s: State, w: Id)
    requires Invariant(s) && Enabled(s, Increment(w))
    ensures LaterReadsAreFresh(Apply(s, Increment(w)), s.writers[w].stamp)
      <==> s.version.Some? || DefaultIsClean(s, s.writers[w].stamp)
  {
    var s', k := Apply(s, Increment(w)), s.writers[w].stamp;
    hide Invariant, Apply, DefaultIsClean;
    if s.version.Some? || DefaultIsClean(s, k) {
      FreshAtFirst(s, w);
      hide FreshFrom, Runs, After;
      forall es: seq<Event>, r: Id | Runs(s', es) && r !in s'.readers
        ensures !ReturnsStale(After(s', es), r, k)
      {
        FreshAlways(s', es, k, CurrentVersion(s'), s'.readers.Keys);
        NewReaderIsFresh(After(s', es), r, k, CurrentVersion(s'), s'.readers.Keys);
      }
    } else {
      var es, r := StaleEntryIsRead(s, w);
    }
  }

  lemma NewReaderIsFresh(s: State, r: Id, k: nat, version: nat, before: set<Id>)
    requires FreshFrom(s, k, version, before) && r !in before
    ensures !ReturnsStale(s, r, k)
  {
    if r in s.readers { assert IsFreshReader(s.readers[r], k, version, true); }
  }

  /** Such a run: with nothing cached at all, a reader that loaded the old stops writes them back after the route's
      first invalidation, and a reader that begins only then gets them. */
  lemma SlowReaderOutlivesInvalidation(stops: Stops, newer: Stops) returns (s0: State, es: seq<Event>, more: seq<Event>)
    ensures Initial(s0) && Runs(s0, es) && After(s0, es).cache == map[] && Enabled(After(s0, es), Increment(0))
    ensures After(s0, es).history == [Some(stops), Some(newer)] && After(s0, es).writers[0] == Committed(1)
    ensures
      var s := Apply(After(s0, es), Increment(0));
      && Runs(s, more) && 2 !in s.readers && 2 in After(s, more).readers
      && After(s, more).readers[2].phase == Returned(Entry(stops, 0))
  {
    s0 := State([Some(stops)], None, map[], map[], map[], map[]);
    es := [];
    hide Runs, After;
    assert Runs(s0, []) && After(s0, []) == s0 by { NoEvents(s0); }
    Extend(s0, es, BeginRead(1));
    es := es + [BeginRead(1)];
    Extend(s0, es, GetVersion(1));
    es := es + [GetVersion(1)];
    Extend(s0, es, GetEntry(1));
    es := es + [GetEntry(1)];
    Extend(s0, es, QueryDatabase(1));
    es := es + [QueryDatabase(1)];
    Extend(s0, es, Commit(0, Some(newer)));
    es := es + [Commit(0, Some(newer))];
    var s := Apply(After(s0, es), Increment(0));
    assert Runs(s, []) && After(s, []) == s by { NoEvents(s); }
    Extend(s, [], SetEntry(1));
    more := [] + [SetEntry(1)];
    ReadsTheCache(s, more, 2);
    more := more + [BeginRead(2)] + [GetVersion(2)] + [GetEntry(2)];
  }

  lemma NoEvents(s: State)
    ensures Runs(s, []) && After(s, []) == s
  {}
}
