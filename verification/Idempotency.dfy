/** Idempotent requests: one Redis record per key moves from absent to in progress to completed
    (src/services/idempotency.service.ts). */
module Idempotency {
  import opened Wrappers
  import opened Redis

  const TTL_MS := 3_600_000

  datatype Response = Response(statusCode: int, body: string)

  datatype Record =
    | InProgress(fingerprint: string)
    | Completed(fingerprint: string, response: Response)

  type RecordStore = Store<string, Record>

  datatype BeginResult = Started | Replay(response: Response) | Conflict | Busy

  /** What a caller learns from the record it finds. */
  function Judge(record: Record, fingerprint: string): BeginResult {
    if record.fingerprint != fingerprint then Conflict
    else if record.Completed? then Replay(record.response)
    else Busy
  }

  // ---- One call at a time ----

  class IdempotencyService {
    var store: RecordStore
    var now: int

    constructor (start: int)
      ensures store == map[] && now == start
    {
      store, now := map[], start;
    }

    /** beginIdempotentRequest: only an absent record is claimed. */
    method Begin(key: string, fingerprint: string) returns (r: BeginResult)
      modifies this`store
      ensures key !in old(store) ==>
        r == Started && store == old(store)[key := Entry(InProgress(fingerprint), Some(now + TTL_MS))]
      ensures key in old(store) ==> store == old(store) && !r.Started?
      ensures key in old(store) ==> (r == Conflict <==> old(store[key]).value.fingerprint != fingerprint)
      ensures key in old(store) && r.Replay? ==> old(store[key]).value == Completed(fingerprint, r.response)
      ensures r.Busy? ==> old(store[key]).value == InProgress(fingerprint)
    {
      var existing := Get(store, key);
      if existing.None? {
        store := SetNx(store, now, key, InProgress(fingerprint), TTL_MS);
        return Started;
      }
      r := Judge(existing.value, fingerprint);
    }

    /** completeIdempotentRequest */
    method Complete(key: string, fingerprint: string, response: Response)
      modifies this`store
      ensures store == old(store)[key := Entry(Completed(fingerprint, response), Some(now + TTL_MS))]
    {
      store := Set(store, now, key, Completed(fingerprint, response), TTL_MS);
    }

    /** failIdempotentRequest */
    method Fail(key: string)
      modifies this`store
      ensures store == map k | k in old(store) && k != key :: old(store)[k]
    {
      store := Delete(store, key);
    }

    /** A retry of a completed request gets exactly the stored response; a different request conflicts. */
    method RetryAfterCompletion(
        key: string, fingerprint: string, response: Response, retry: string) returns (r: BeginResult)
      modifies this`store
      ensures r == if retry == fingerprint then Replay(response) else Conflict
    {
      Complete(key, fingerprint, response);
      r := Begin(key, retry);
    }
  }

  // ---- Every interleaving of many callers ----

  type CallerId = nat

  /** source names the caller whose completion produced the response; the record itself does not say. */
  datatype Phase =
    | Reading
    | Writing
    | Owner(expiry: int)
    | Replayed(response: Response, source: CallerId)
    | Conflicted
    | ToldBusy
    | Finished(failed: bool)

  datatype Caller = Caller(key: string, fingerprint: string, phase: Phase)

  datatype Completion = Completion(key: string, fingerprint: string, response: Response)

  /** owners, completions and lastBy only remember what happened; no command reads them. */
  datatype State = State(
    store: RecordStore,
    now: int,
    callers: map<CallerId, Caller>,
    owners: map<string, CallerId>,
    completions: map<CallerId, Completion>,
    lastBy: map<string, CallerId>)

  datatype Event =
    | Begin(c: CallerId, key: string, fingerprint: string)
    | Read(c: CallerId)
    | Write(c: CallerId)
    | Complete(c: CallerId, response: Response)
    | Fail(c: CallerId)
    | FailAgain(c: CallerId)
    | Tick(ms: nat)

  predicate Enabled(s: State, e: Event) {
    match e
    case Begin(c, _, _) => c !in s.callers
    case Read(c) => c in s.callers && s.callers[c].phase == Reading
    case Write(c) => c in s.callers && s.callers[c].phase == Writing
    case Complete(c, _) => c in s.callers && s.callers[c].phase.Owner?
    case Fail(c) => c in s.callers && s.callers[c].phase.Owner?
    case FailAgain(c) => c in s.callers && s.callers[c].phase == Finished(true)
    case Tick(_) => true
  }

  function Step(s: State, c: CallerId, phase: Phase): map<CallerId, Caller>
    requires c in s.callers
  {
    s.callers[c := s.callers[c].(phase := phase)]
  }

  function ReadPhase(s: State, c: CallerId): Phase
    requires c in s.callers
  {
    var caller := s.callers[c];
    match Get(s.store, caller.key)
    case None => Writing
    case Some(record) =>
      match Judge(record, caller.fingerprint)
      case Conflict => Conflicted
      case Replay(response) => Replayed(response, if caller.key in s.lastBy then s.lastBy[caller.key] else c)
      case _ => ToldBusy
  }

  function Apply(s: State, e: Event): State
    requires Enabled(s, e)
  {
    match e
    case Tick(ms) => s.(now := s.now + ms, store := Expire(s.store, s.now + ms))
    case Begin(c, key, fingerprint) => s.(callers := s.callers[c := Caller(key, fingerprint, Reading)])
    case Read(c) => s.(callers := Step(s, c, ReadPhase(s, c)))
    case Write(c) =>
      var caller := s.callers[c];
      if caller.key in s.store then s.(callers := Step(s, c, Reading))
      else s.(
        store := SetNx(s.store, s.now, caller.key, InProgress(caller.fingerprint), TTL_MS),
        callers := Step(s, c, Owner(s.now + TTL_MS)),
        owners := s.owners[caller.key := c])
    case Complete(c, response) =>
      var caller := s.callers[c];
      s.(
        store := Set(s.store, s.now, caller.key, Completed(caller.fingerprint, response), TTL_MS),
        callers := Step(s, c, Finished(false)),
        owners := s.owners - {caller.key},
        completions := s.completions[c := Completion(caller.key, caller.fingerprint, response)],
        lastBy := s.lastBy[caller.key := c])
    case Fail(c) =>
      var caller := s.callers[c];
      s.(store := Delete(s.store, caller.key), callers := Step(s, c, Finished(true)), owners := s.owners - {caller.key})
    case FailAgain(c) => s.(store := Delete(s.store, s.callers[c].key))
  }

  /** One complete or fail call per owner, made less than the deadline after its claim. */
  predicate Disciplined(s: State, e: Event, deadline: int)
    requires Enabled(s, e)
  {
    match e
    case FailAgain(_) => false
    case Tick(ms) =>
      forall c :: c in s.callers && s.callers[c].phase.Owner? ==>
        s.now + ms - (s.callers[c].phase.expiry - TTL_MS) < deadline
    case _ => true
  }

  /** A run, given by its events; with a deadline, one that is disciplined at every step. */
  predicate Runs(s: State, es: seq<Event>, deadline: Option<int>)
    decreases |es|, 0
  {
    es == [] ||
    var p := es[..|es| - 1];
    var e := es[|es| - 1];
    && Runs(s, p, deadline)
    && Enabled(After(s, p, deadline), e)
    && (deadline.Some? ==> Disciplined(After(s, p, deadline), e, deadline.value))
  }

  function After(s: State, es: seq<Event>, deadline: Option<int>): State
    requires Runs(s, es, deadline)
    decreases |es|, 1
  {
    if es == [] then s else Apply(After(s, es[..|es| - 1], deadline), es[|es| - 1])
  }

  function Initial(now: int): State {
    State(map[], now, map[], map[], map[], map[])
  }

  predicate Owns(s: State, c: CallerId, key: string) {
    c in s.callers && s.callers[c].phase.Owner? && s.callers[c].key == key
  }

  predicate BothOwn(s: State, c: CallerId, d: CallerId, key: string) {
    Owns(s, c, key) && Owns(s, d, key)
  }

  ghost predicate Recorded(s: State, c: CallerId)
    requires c in s.callers && s.callers[c].phase.Owner?
  {
    var caller := s.callers[c];
    && caller.key in s.owners && s.owners[caller.key] == c
    && caller.key in s.store && s.store[caller.key] == Entry(InProgress(caller.fingerprint), Some(caller.phase.expiry))
  }

  /** Every owner's record is in the store and names it as the only owner of its key. */
  ghost predicate OwnersAreRecorded(s: State) {
    forall c :: c in s.callers && s.callers[c].phase.Owner? ==> Recorded(s, c)
  }

  ghost predicate Explained(s: State, k: string)
    requires k in s.store
  {
    if s.store[k].value.InProgress? then k in s.owners
    else
      && k in s.lastBy && s.lastBy[k] in s.completions
      && s.completions[s.lastBy[k]] == Completion(k, s.store[k].value.fingerprint, s.store[k].value.response)
  }

  /** Every record in progress has a live owner; every completed one is the latest completion of its key. */
  ghost predicate RecordsAreExplained(s: State) {
    forall k :: k in s.store ==> Explained(s, k)
  }

  ghost predicate OwnersOwn(s: State) {
    forall k :: k in s.owners ==> Owns(s, s.owners[k], k)
  }

  ghost predicate IsFaithful(s: State, c: CallerId)
    requires c in s.callers
  {
    var p := s.callers[c].phase;
    p.Replayed? ==>
      && p.source in s.completions
      && s.completions[p.source] == Completion(s.callers[c].key, s.callers[c].fingerprint, p.response)
  }

  /** A replay repeats a completion made for the same key and fingerprint, and completing is final. */
  ghost predicate ReplaysAreFaithful(s: State) {
    && (forall c :: c in s.callers ==> IsFaithful(s, c))
    && (forall c :: c in s.completions ==> c in s.callers && s.callers[c].phase == Finished(false))
  }

  ghost predicate Invariant(s: State) {
    OwnersAreRecorded(s) && RecordsAreExplained(s) && OwnersOwn(s) && ReplaysAreFaithful(s)
  }

  lemma OwnersStayRecorded(s: State, e: Event)
    requires OwnersAreRecorded(s) && OwnersOwn(s) && Enabled(s, e) && Disciplined(s, e, TTL_MS)
    ensures OwnersAreRecorded(Apply(s, e))
  {
    var s' := Apply(s, e);
    forall c | c in s'.callers && s'.callers[c].phase.Owner? ensures Recorded(s', c) {
      if !e.Tick? && c == e.c {
        assert e.Write?;
      } else {
        assert s'.callers[c] == s.callers[c] && Recorded(s, c);
      }
    }
  }

  lemma OwnersStayOwners(s: State, e: Event)
    requires OwnersAreRecorded(s) && OwnersOwn(s) && Enabled(s, e) && Disciplined(s, e, TTL_MS)
    ensures OwnersOwn(Apply(s, e))
  {
    var s' := Apply(s, e);
    forall k | k in s'.owners ensures Owns(s', s'.owners[k], k) {
      if e.Write? && s'.owners != s.owners && k == s.callers[e.c].key {
      } else {
        assert Owns(s, s.owners[k], k) && Recorded(s, s.owners[k]);
      }
    }
  }

  lemma RecordsStayExplained(s: State, e: Event)
    requires RecordsAreExplained(s) && ReplaysAreFaithful(s) && Enabled(s, e) && Disciplined(s, e, TTL_MS)
    ensures RecordsAreExplained(Apply(s, e))
  {
    var s' := Apply(s, e);
    forall k | k in s'.store ensures Explained(s', k) {
      assert k in s.store ==> Explained(s, k);
    }
  }

  lemma ReadIsFaithful(s: State, c: CallerId)
    requires RecordsAreExplained(s) && Enabled(s, Read(c))
    ensures IsFaithful(Apply(s, Read(c)), c)
  {
    var k := s.callers[c].key;
    assert k in s.store ==> Explained(s, k);
  }

  /** Completions are made once, by a caller that is finished then. */
  lemma CompletionsStay(s: State, e: Event)
    requires ReplaysAreFaithful(s) && Enabled(s, e)
    ensures
      var s' := Apply(s, e);
      && (forall c :: c in s.completions ==> c in s'.completions && s'.completions[c] == s.completions[c])
      && (forall c :: c in s'.completions ==> c in s'.callers && s'.callers[c].phase == Finished(false))
  {}

  lemma ReplaysStayFaithful(s: State, e: Event)
    requires RecordsAreExplained(s) && ReplaysAreFaithful(s) && Enabled(s, e) && Disciplined(s, e, TTL_MS)
    ensures ReplaysAreFaithful(Apply(s, e))
  {
    hide RecordsAreExplained, Disciplined;
    var s' := Apply(s, e);
    CompletionsStay(s, e);
    if e.Read? { ReadIsFaithful(s, e.c); }
    forall c | c in s'.callers ensures IsFaithful(s', c) {
      if c in s.callers && s'.callers[c] == s.callers[c] {
        assert IsFaithful(s, c);
        hide Apply;
      }
    }
  }

  lemma InvariantStep(s: State, e: Event)
    requires Invariant(s) && Enabled(s, e) && Disciplined(s, e, TTL_MS)
    ensures Invariant(Apply(s, e))
  {
    hide Apply, Disciplined, OwnersAreRecorded, OwnersOwn, RecordsAreExplained, ReplaysAreFaithful;
    OwnersStayRecorded(s, e);
    OwnersStayOwners(s, e);
    RecordsStayExplained(s, e);
    ReplaysStayFaithful(s, e);
  }

  lemma {:induction false} InvariantAlways(s: State, es: seq<Event>, deadline: int)
    requires Invariant(s) && Runs(s, es, Some(deadline)) && deadline <= TTL_MS
    ensures Invariant(After(s, es, Some(deadline)))
    decreases |es|
  {
    if es != [] {
      var p := es[..|es| - 1];
      InvariantAlways(s, p, deadline);
      hide Invariant, Apply;
      InvariantStep(After(s, p, Some(deadline)), es[|es| - 1]);
    }
  }

  // ---- What the protocol promises in every disciplined interleaving ----

  /** At most one caller at a time proceeds with a key. */
  lemma AtMostOneOwner(now: int, es: seq<Event>, c: CallerId, d: CallerId, key: string)
    requires Runs(Initial(now), es, Some(TTL_MS))
    requires Owns(After(Initial(now), es, Some(TTL_MS)), c, key) && Owns(After(Initial(now), es, Some(TTL_MS)), d, key)
    ensures c == d
  {
    InvariantAlways(Initial(now), es, TTL_MS);
    OwnerIsUnique(After(Initial(now), es, Some(TTL_MS)), c, d, key);
  }

  /** Whoever looks while the key is owned is turned away: for another fingerprint as a conflict. */
  lemma OwnedKeyTurnsOthersAway(now: int, es: seq<Event>, c: CallerId, d: CallerId)
    requires Runs(Initial(now), es, Some(TTL_MS))
    requires var s := After(Initial(now), es, Some(TTL_MS));
      Enabled(s, Read(d)) && Owns(s, c, s.callers[d].key)
    ensures
      var s := After(Initial(now), es, Some(TTL_MS));
      Apply(s, Read(d)).callers[d].phase ==
        if s.callers[c].fingerprint == s.callers[d].fingerprint then ToldBusy else Conflicted
  {
    var s := After(Initial(now), es, Some(TTL_MS));
    InvariantAlways(Initial(now), es, TTL_MS);
    assert Recorded(s, c);
  }

  /** Some caller owns the key, or completed it last, under another fingerprint. */
  ghost predicate UsedDifferently(s: State, key: string, fingerprint: string) {
    || (exists c :: Owns(s, c, key) && s.callers[c].fingerprint != fingerprint)
    || (key in s.lastBy && s.lastBy[key] in s.completions && s.completions[s.lastBy[key]].key == key
        && s.completions[s.lastBy[key]].fingerprint != fingerprint)
  }

  /** In every disciplined run a read goes on to write exactly when there is no record, conflicts exactly on one with
      another fingerprint, which somebody did use the key for, and is told to wait only for an owner at work on the
      same request. */
  lemma VerdictsAreJustified(now: int, es: seq<Event>, d: CallerId)
    requires Runs(Initial(now), es, Some(TTL_MS)) && Enabled(After(Initial(now), es, Some(TTL_MS)), Read(d))
    ensures
      var s := After(Initial(now), es, Some(TTL_MS));
      var key, fingerprint := s.callers[d].key, s.callers[d].fingerprint;
      var verdict := Apply(s, Read(d)).callers[d].phase;
      && (verdict == Writing <==> key !in s.store)
      && (verdict == Conflicted <==> key in s.store && s.store[key].value.fingerprint != fingerprint)
      && (verdict == Conflicted ==> UsedDifferently(s, key, fingerprint))
      && (verdict == ToldBusy ==> exists c :: Owns(s, c, key) && s.callers[c].fingerprint == fingerprint)
  {
    var s := After(Initial(now), es, Some(TTL_MS));
    InvariantAlways(Initial(now), es, TTL_MS);
    hide Runs, After;
    var key := s.callers[d].key;
    if key in s.store {
      assert Explained(s, key);
      if s.store[key].value.InProgress? {
        assert Owns(s, s.owners[key], key) && Recorded(s, s.owners[key]);
      }
    }
  }

  /** A replayed response is the one its owner stored for the same key and fingerprint, and that owner is done. */
  lemma ReplayIsFaithful(now: int, es: seq<Event>, c: CallerId)
    requires Runs(Initial(now), es, Some(TTL_MS))
    requires var s := After(Initial(now), es, Some(TTL_MS)); c in s.callers && s.callers[c].phase.Replayed?
    ensures
      var s := After(Initial(now), es, Some(TTL_MS));
      var p := s.callers[c].phase;
      && p.source in s.completions && p.source in s.callers && s.callers[p.source].phase == Finished(false)
      && s.completions[p.source] == Completion(s.callers[c].key, s.callers[c].fingerprint, p.response)
  {
    InvariantAlways(Initial(now), es, TTL_MS);
    assert IsFaithful(After(Initial(now), es, Some(TTL_MS)), c);
  }

  // ---- The second fail call of startTripService ----

  /** What a new caller would find, one whose number is not taken. */
  function LookUp(s: State, d: CallerId, key: string, fingerprint: string): Phase
    requires d !in s.callers
  {
    var begun := Apply(s, Begin(d, key, fingerprint));
    Apply(begun, Read(d)).callers[d].phase
  }

  /** A second fail call changes nothing, and no look-up either, exactly when the key is absent by then. */
  lemma SecondFailIsHarmlessExactlyWhenAbsent(s: State, c: CallerId, d: CallerId, fingerprint: string)
    requires Enabled(s, FailAgain(c)) && d !in s.callers
    ensures
      var s', key := Apply(s, FailAgain(c)), s.callers[c].key;
      && (s' == s <==> key !in s.store)
      && (LookUp(s', d, key, fingerprint) == LookUp(s, d, key, fingerprint) <==> key !in s.store)
      && (key in s.store && s.store[key].value.Completed? && s.store[key].value.fingerprint == fingerprint ==>
            LookUp(s, d, key, fingerprint).Replayed? && LookUp(s', d, key, fingerprint) == Writing)
  {
    var s', key := Apply(s, FailAgain(c)), s.callers[c].key;
    assert key !in s.store ==> Delete(s.store, key) == s.store;
    assert s'.store == Delete(s.store, key);
  }

  /** At every point of every disciplined run that follows, each key has one owner at most. */
  ghost predicate StaysExclusive(s: State) {
    forall es: seq<Event>, c: CallerId, d: CallerId, key: string ::
      Runs(s, es, Some(TTL_MS)) && BothOwn(After(s, es, Some(TTL_MS)), c, d, key) ==> c == d
  }

  /** As for two callers proceeding at once, a second fail call leaves that excluded exactly when nobody owns the key.
      */
  lemma SecondFailKeepsExclusionExactlyWhenUnowned(s: State, c: CallerId)
    requires Invariant(s) && Enabled(s, FailAgain(c))
    ensures StaysExclusive(Apply(s, FailAgain(c))) <==> forall d :: !Owns(s, d, s.callers[c].key)
  {
    var s', key := Apply(s, FailAgain(c)), s.callers[c].key;
    hide Runs, After, Invariant;
    if o :| Owns(s, o, key) {
      OwnedDeletionLetsSecondIn(s, c, o);
    } else {
      UnownedDeletionKeepsInvariant(s, c);
      hide Apply, Owns;
      forall es: seq<Event>, a: CallerId, b: CallerId, k: string |
        Runs(s', es, Some(TTL_MS)) && BothOwn(After(s', es, Some(TTL_MS)), a, b, k)
        ensures a == b
      {
        InvariantAlways(s', es, TTL_MS);
        OwnerIsUnique(After(s', es, Some(TTL_MS)), a, b, k);
      }
    }
  }

  /** With an owner at work, a new caller claims the deleted record beside it. */
  lemma OwnedDeletionLetsSecondIn(s: State, c: CallerId, o: CallerId)
    requires Enabled(s, FailAgain(c)) && Owns(s, o, s.callers[c].key)
    ensures !StaysExclusive(Apply(s, FailAgain(c)))
  {
    hide Runs, After;
    var s', key := Apply(s, FailAgain(c)), s.callers[c].key;
    var d := FreshNumber(s'.callers.Keys);
    assert d !in s'.callers && key !in s'.store;
    assert Runs(s', [], Some(TTL_MS)) && After(s', [], Some(TTL_MS)) == s' by { NoEvents(s', Some(TTL_MS)); }
    Claims(s', [], d, key, Some(TTL_MS));
    var es := [] + ClaimEvents(d, key);
    assert BothOwn(After(s', es, Some(TTL_MS)), o, d, key) && o != d;
  }

  lemma UnownedDeletionKeepsInvariant(s: State, c: CallerId)
    requires Invariant(s) && Enabled(s, FailAgain(c)) && forall d :: !Owns(s, d, s.callers[c].key)
    ensures Invariant(Apply(s, FailAgain(c)))
  {
    var s', key := Apply(s, FailAgain(c)), s.callers[c].key;
    forall d | d in s'.callers && s'.callers[d].phase.Owner? ensures Recorded(s', d) {
      assert Recorded(s, d) && !Owns(s, d, key);
    }
    forall k | k in s'.store ensures Explained(s', k) {
      assert Explained(s, k);
    }
    forall k | k in s'.owners ensures Owns(s', s'.owners[k], k) {
      assert Owns(s, s.owners[k], k);
    }
  }

  lemma Extend(s: State, es: seq<Event>, e: Event, deadline: Option<int>)
    requires Runs(s, es, deadline) && Enabled(After(s, es, deadline), e)
    requires deadline.Some? ==> Disciplined(After(s, es, deadline), e, deadline.value)
    ensures Runs(s, es + [e], deadline)
    ensures After(s, es + [e], deadline) == Apply(After(s, es, deadline), e)
  {
    hide Enabled, Apply, Disciplined;
    assert (es + [e])[..|es|] == es;
  }

  function ClaimEvents(c: CallerId, key: string): seq<Event> {
    [Begin(c, key, ""), Read(c), Write(c)]
  }

  /** The state after an uninterrupted claim. */
  function Claimed(s: State, c: CallerId, key: string): State
    requires c !in s.callers && key !in s.store
  {
    s.(
      store := SetNx(s.store, s.now, key, InProgress(""), TTL_MS),
      callers := s.callers[c := Caller(key, "", Owner(s.now + TTL_MS))],
      owners := s.owners[key := c])
  }

  lemma ClaimSteps(s: State, c: CallerId, key: string)
    requires c !in s.callers && key !in s.store
    ensures Enabled(s, Begin(c, key, ""))
    ensures
      var s1 := Apply(s, Begin(c, key, ""));
      && Enabled(s1, Read(c)) && Enabled(Apply(s1, Read(c)), Write(c))
      && Apply(Apply(s1, Read(c)), Write(c)) == Claimed(s, c, key)
  {}

  lemma Undisputed(s: State, e: Event, deadline: Option<int>)
    requires Enabled(s, e) && !e.FailAgain? && !e.Tick?
    ensures deadline.Some? ==> Disciplined(s, e, deadline.value)
  {}

  /** A caller that finds no record becomes an owner. */
  lemma Claims(s: State, es: seq<Event>, c: CallerId, key: string, deadline: Option<int>)
    requires Runs(s, es, deadline)
    requires c !in After(s, es, deadline).callers && key !in After(s, es, deadline).store
    ensures Runs(s, es + ClaimEvents(c, key), deadline)
    ensures After(s, es + ClaimEvents(c, key), deadline) == Claimed(After(s, es, deadline), c, key)
  {
    hide Runs, After, Enabled, Apply, Disciplined, Claimed;
    var s0, a, b, w := After(s, es, deadline), Begin(c, key, ""), Read(c), Write(c);
    ClaimSteps(s0, c, key);
    Undisputed(s0, a, deadline);
    Undisputed(Apply(s0, a), b, deadline);
    Undisputed(Apply(Apply(s0, a), b), w, deadline);
    Extend(s, es, a, deadline);
    Extend(s, es + [a], b, deadline);
    Extend(s, es + [a] + [b], w, deadline);
    assert es + [a] + [b] + [w] == es + ClaimEvents(c, key);
  }

  // ---- How much time an owner may take ----

  /** In every run in which each owner makes its one call within the deadline, a key has one owner at most. */
  ghost predicate DeadlineSuffices(deadline: int) {
    forall now: int, es: seq<Event>, c: CallerId, d: CallerId, key: string ::
      Runs(Initial(now), es, Some(deadline)) && BothOwn(After(Initial(now), es, Some(deadline)), c, d, key) ==> c == d
  }

  /** A deadline on the time from the claim to the complete or fail call keeps one owner per key exactly when it does
      not
      exceed the record's lifetime. */
  lemma DeadlineSufficesExactly(deadline: int)
    ensures DeadlineSuffices(deadline) <==> deadline <= 3_600_000
  {
    if deadline <= TTL_MS {
      forall now: int, es: seq<Event>, c: CallerId, d: CallerId, key: string |
        Runs(Initial(now), es, Some(deadline)) && BothOwn(After(Initial(now), es, Some(deadline)), c, d, key)
        ensures c == d
      {
        InvariantAlways(Initial(now), es, deadline);
        OwnerIsUnique(After(Initial(now), es, Some(deadline)), c, d, key);
      }
    } else {
      var es := SlowOwnerIsReplaced(0, "", deadline);
      assert BothOwn(After(Initial(0), es, Some(deadline)), 0, 1, "");
    }
  }

  lemma OwnerIsUnique(s: State, c: CallerId, d: CallerId, key: string)
    requires Invariant(s) && Owns(s, c, key) && Owns(s, d, key)
    ensures c == d
  {
    assert Recorded(s, c) && Recorded(s, d);
  }

  /** With any later deadline a slow owner's record can expire, and a second caller then owns the key too. */
  lemma SlowOwnerIsReplaced(now: int, key: string, deadline: int) returns (es: seq<Event>)
    requires deadline > TTL_MS
    ensures Runs(Initial(now), es, Some(deadline))
    ensures Owns(After(Initial(now), es, Some(deadline)), 0, key)
    ensures Owns(After(Initial(now), es, Some(deadline)), 1, key)
  {
    hide Runs, After;
    var s0, d := Initial(now), Some(deadline);
    assert Runs(s0, [], d) && After(s0, [], d) == s0 by { NoEvents(s0, d); }
    es := ClaimEvents(0, key);
    Claims(s0, [], 0, key, d);
    assert [] + ClaimEvents(0, key) == es;
    Lapses(s0, es, key, deadline);
    es := es + [Tick(TTL_MS)];
    Claims(s0, es, 1, key, d);
    es := es + ClaimEvents(1, key);
  }

  lemma NoEvents(s: State, deadline: Option<int>)
    ensures Runs(s, [], deadline) && After(s, [], deadline) == s
  {}

  /** While all owners have just claimed, the lifetime may pass, and their records are gone. */
  lemma Lapses(s: State, es: seq<Event>, key: string, deadline: int)
    requires deadline > TTL_MS && Runs(s, es, Some(deadline))
    requires
      var t := After(s, es, Some(deadline));
      && (forall c :: c in t.callers && t.callers[c].phase.Owner? ==> t.callers[c].phase.expiry == t.now + TTL_MS)
      && (key in t.store ==> t.store[key].expiresAt == Some(t.now + TTL_MS))
    ensures Runs(s, es + [Tick(TTL_MS)], Some(deadline))
    ensures
      var t, t' := After(s, es, Some(deadline)), After(s, es + [Tick(TTL_MS)], Some(deadline));
      key !in t'.store && t'.callers == t.callers
  {
    hide Runs, After;
    Extend(s, es, Tick(TTL_MS), Some(deadline));
  }

  /** The first caller fails, and by the time it fails again another has taken the key. */
  lemma SecondTakes(now: int, key: string) returns (es: seq<Event>)
    ensures Runs(Initial(now), es, None)
    ensures
      var s := After(Initial(now), es, None);
      && s.callers == map[0 := Caller(key, "", Finished(true)), 1 := Caller(key, "", Owner(now + TTL_MS))]
      && s.completions == map[]
  {
    hide Runs, After;
    var s0 := Initial(now);
    assert Runs(s0, [], None) && After(s0, [], None) == s0 by { NoEvents(s0, None); }
    es := ClaimEvents(0, key);
    Claims(s0, [], 0, key, None);
    assert [] + ClaimEvents(0, key) == es;
    Extend(s0, es, Fail(0), None);
    es := es + [Fail(0)];
    Claims(s0, es, 1, key, None);
    es := es + ClaimEvents(1, key);
  }

  /** A caller that fails twice can delete its successor's record, and a third caller then owns the key too. */
  lemma DoubleFailLetsTwoOwnersIn(now: int, key: string) returns (es: seq<Event>)
    ensures Runs(Initial(now), es, None)
    ensures Owns(After(Initial(now), es, None), 1, key) && Owns(After(Initial(now), es, None), 2, key)
  {
    hide Runs, After;
    var s0 := Initial(now);
    es := SecondTakes(now, key);
    Extend(s0, es, FailAgain(0), None);
    es := es + [FailAgain(0)];
    Claims(s0, es, 2, key, None);
    es := es + ClaimEvents(2, key);
  }

  /** Or, with nobody owning the key, it can delete its successor's stored response, and a third caller then carries
      the completed request out once more. */
  lemma DoubleFailRepeatsACompletedRequest(now: int, key: string, response: Response) returns (es: seq<Event>)
    ensures Runs(Initial(now), es, None)
    ensures
      var s := After(Initial(now), es, None);
      && 1 in s.completions && s.completions[1] == Completion(key, "", response)
      && Owns(s, 2, key) && s.callers[2].fingerprint == ""
  {
    hide Runs, After;
    var s0 := Initial(now);
    es := SecondTakes(now, key);
    Extend(s0, es, Complete(1, response), None);
    es := es + [Complete(1, response)];
    Extend(s0, es, FailAgain(0), None);
    es := es + [FailAgain(0)];
    Claims(s0, es, 2, key, None);
    es := es + ClaimEvents(2, key);
  }
}
