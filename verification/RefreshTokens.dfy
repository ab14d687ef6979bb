/** Sessions and rotating refresh tokens (src/services/auth.service.ts). */
module RefreshTokens {
  type UserId = nat
  type SessionId = nat
  type FamilyId = nat
  type TokenId = nat

  /** sha256, taken to be injective. */
  datatype Digest = Sha256(tokenId: TokenId)

  datatype Session = Session(userId: UserId, familyId: FamilyId, refreshTokenHash: Digest, revoked: bool)

  datatype Token = Token(userId: UserId, sessionId: SessionId, familyId: FamilyId, tokenId: TokenId)

  /** A presented string: not verifiable, signed but not of type "refresh", or a signed refresh token. */
  datatype Presented = Unverifiable | OtherType | Refresh(token: Token)

  datatype Failure =
    | InvalidRefresh
    | InvalidRefreshType
    | SessionNotFound
    | SessionRevoked
    | SessionUserMismatch
    | UserInactive
    | FamilyMismatch
    | RefreshReuseDetected

  datatype Outcome = Rotated(token: Token) | Refused(code: Failure)

  type Sessions = map<SessionId, Session>

  /** The session belongs to the token's user and family. */
  predicate IsOfFamily(session: Session, t: Token) {
    session.userId == t.userId && session.familyId == t.familyId
  }

  function RevokeOne(sessions: Sessions, id: SessionId): Sessions {
    if id in sessions then sessions[id := sessions[id].(revoked := true)] else sessions
  }

  function RevokeFamily(sessions: Sessions, userId: UserId, familyId: FamilyId): Sessions {
    map id | id in sessions ::
      if sessions[id].userId == userId && sessions[id].familyId == familyId then sessions[id].(revoked := true)
      else sessions[id]
  }

  function RevokeAll(sessions: Sessions, userId: UserId): Sessions {
    map id | id in sessions :: if sessions[id].userId == userId then sessions[id].(revoked := true) else sessions[id]
  }

  /** rotateRefreshToken, with the random id of the next token. */
  function Rotation(sessions: Sessions, active: set<UserId>, p: Presented, newTokenId: TokenId): (Sessions, Outcome) {
    match p
    case Unverifiable => (sessions, Refused(InvalidRefresh))
    case OtherType => (sessions, Refused(InvalidRefreshType))
    case Refresh(t) =>
      if t.sessionId !in sessions then (sessions, Refused(SessionNotFound))
      else
        var session := sessions[t.sessionId];
        if session.revoked then (sessions, Refused(SessionRevoked))
        else if session.userId != t.userId then (sessions, Refused(SessionUserMismatch))
        else if session.userId !in active then (RevokeOne(sessions, t.sessionId), Refused(UserInactive))
        else if session.familyId != t.familyId then (RevokeOne(sessions, t.sessionId), Refused(FamilyMismatch))
        else if Sha256(t.tokenId) != session.refreshTokenHash then
          (RevokeFamily(sessions, t.userId, t.familyId), Refused(RefreshReuseDetected))
        else
          (sessions[t.sessionId := session.(refreshTokenHash := Sha256(newTokenId))],
           Rotated(Token(t.userId, t.sessionId, t.familyId, newTokenId)))
  }

  /** The session table and the active users; ids are drawn from counters instead of at random. */
  class SessionStore {
    var sessions: Sessions
    var active: set<UserId>
    var nextId: nat

    constructor ()
      ensures sessions == map[] && active == {} && nextId == 0
    {
      sessions, active, nextId := map[], {}, 0;
    }

    /** createSessionAndTokens */
    method CreateSession(userId: UserId) returns (token: Token)
      requires forall id :: id in sessions ==> id < nextId
      modifies this`sessions, this`nextId
      ensures token == Token(userId, old(nextId), old(nextId), old(nextId)) && nextId == old(nextId) + 1
      ensures token.sessionId !in old(sessions)
      ensures
        var session := Session(userId, token.familyId, Sha256(token.tokenId), false);
        sessions == old(sessions)[token.sessionId := session]
    {
      token := Token(userId, nextId, nextId, nextId);
      sessions := sessions[nextId := Session(userId, nextId, Sha256(nextId), false)];
      nextId := nextId + 1;
    }

    method RotateRefreshToken(p: Presented) returns (r: Outcome)
      modifies this`sessions, this`nextId
      ensures (sessions, r) == Rotation(old(sessions), active, p, old(nextId))
      ensures nextId == if r.Rotated? then old(nextId) + 1 else old(nextId)
      ensures r == Refused(RefreshReuseDetected) ==>
        forall id :: id in sessions && IsOfFamily(sessions[id], p.token) ==> sessions[id].revoked
    {
      if p.Unverifiable? { return Refused(InvalidRefresh); }
      if p.OtherType? { return Refused(InvalidRefreshType); }
      var t := p.token;
      if t.sessionId !in sessions { return Refused(SessionNotFound); }
      var session := sessions[t.sessionId];
      if session.revoked { return Refused(SessionRevoked); }
      if session.userId != t.userId { return Refused(SessionUserMismatch); }
      if session.userId !in active {
        RevokeSession(t.sessionId);
        assert sessions == RevokeOne(old(sessions), t.sessionId);
        return Refused(UserInactive);
      }
      if session.familyId != t.familyId {
        RevokeSession(t.sessionId);
        assert sessions == RevokeOne(old(sessions), t.sessionId);
        return Refused(FamilyMismatch);
      }
      if Sha256(t.tokenId) != session.refreshTokenHash {
        RevokeSessionFamily(t.userId, t.familyId);
        assert sessions == RevokeFamily(old(sessions), t.userId, t.familyId);
        return Refused(RefreshReuseDetected);
      }
      var newTokenId := nextId;
      nextId := nextId + 1;
      sessions := sessions[t.sessionId := session.(refreshTokenHash := Sha256(newTokenId))];
      r := Rotated(Token(t.userId, t.sessionId, t.familyId, newTokenId));
    }

    /** The session cannot be refreshed any more; all others are as before. */
    method RevokeSession(id: SessionId)
      modifies this`sessions
      ensures sessions.Keys == old(sessions).Keys
      ensures id in sessions ==> sessions[id] == old(sessions[id]).(revoked := true)
      ensures forall other :: other in sessions && other != id ==> sessions[other] == old(sessions[other])
    {
      sessions := RevokeOne(sessions, id);
    }

    /** None of the user's sessions of the family can be refreshed any more; all others are as before. */
    method RevokeSessionFamily(userId: UserId, familyId: FamilyId)
      modifies this`sessions
      ensures sessions.Keys == old(sessions).Keys
      ensures forall id :: id in sessions && sessions[id].userId == userId && sessions[id].familyId == familyId ==>
        sessions[id] == old(sessions[id]).(revoked := true)
      ensures forall id :: id in sessions && !(sessions[id].userId == userId && sessions[id].familyId == familyId) ==>
        sessions[id] == old(sessions[id])
    {
      sessions := RevokeFamily(sessions, userId, familyId);
    }
  }

  // ---- Every run of atomic calls ----

  /** issued holds every token the server signed; latest the last token id per session. */
  datatype State = State(sessions: Sessions, active: set<UserId>, issued: set<Token>, latest: map<SessionId, TokenId>)

  datatype Event =
    | Create(userId: UserId, sessionId: SessionId, familyId: FamilyId, tokenId: TokenId)
    | Rotate(p: Presented, newTokenId: TokenId)
    | Revoke(sessionId: SessionId)
    | RevokeUser(userId: UserId)
    | SetActive(userId: UserId, isActive: bool)

  /** Ids are fresh, and only tokens the server signed verify. */
  ghost predicate Enabled(s: State, e: Event) {
    match e
    case Create(_, id, family, tid) =>
      && id !in s.sessions
      && (forall other :: other in s.sessions ==> s.sessions[other].familyId != family)
      && (forall t :: t in s.issued ==> t.tokenId != tid)
    case Rotate(p, tid) =>
      && (p.Refresh? ==> p.token in s.issued)
      && (forall t :: t in s.issued ==> t.tokenId != tid)
    case _ => true
  }

  ghost function Apply(s: State, e: Event): State
    requires Enabled(s, e)
  {
    match e
    case Create(userId, id, family, tid) =>
      State(s.sessions[id := Session(userId, family, Sha256(tid), false)], s.active,
        s.issued + {Token(userId, id, family, tid)}, s.latest[id := tid])
    case Rotate(p, tid) =>
      var (sessions, r) := Rotation(s.sessions, s.active, p, tid);
      if r.Rotated? then State(sessions, s.active, s.issued + {r.token}, s.latest[r.token.sessionId := tid])
      else s.(sessions := sessions)
    case Revoke(id) => s.(sessions := RevokeOne(s.sessions, id))
    case RevokeUser(userId) => s.(sessions := RevokeAll(s.sessions, userId))
    case SetActive(userId, isActive) => s.(active := if isActive then s.active + {userId} else s.active - {userId})
  }

  ghost predicate Runs(s: State, es: seq<Event>)
    decreases |es|, 0
  {
    es == [] || (Runs(s, es[..|es| - 1]) && Enabled(After(s, es[..|es| - 1]), es[|es| - 1]))
  }

  ghost function After(s: State, es: seq<Event>): State
    requires Runs(s, es)
    decreases |es|, 1
  {
    if es == [] then s else Apply(After(s, es[..|es| - 1]), es[|es| - 1])
  }

  function Initial(active: set<UserId>): State {
    State(map[], active, {}, map[])
  }

  /** What rotating the token would do. */
  predicate Redeemable(s: State, t: Token) {
    Rotation(s.sessions, s.active, Refresh(t), 0).1.Rotated?
  }

  ghost predicate SessionsMatchLatest(s: State) {
    forall id :: id in s.sessions ==>
      && id in s.latest
      && s.sessions[id].refreshTokenHash == Sha256(s.latest[id])
      && Token(s.sessions[id].userId, id, s.sessions[id].familyId, s.latest[id]) in s.issued
  }

  ghost predicate TokensMatchSessions(s: State) {
    forall t :: t in s.issued ==>
      t.sessionId in s.sessions && s.sessions[t.sessionId].userId == t.userId &&
        s.sessions[t.sessionId].familyId == t.familyId
  }

  ghost predicate FamiliesAreSingle(s: State) {
    forall a, b :: a in s.sessions && b in s.sessions && s.sessions[a].familyId == s.sessions[b].familyId ==> a == b
  }

  ghost predicate Invariant(s: State) {
    SessionsMatchLatest(s) && TokensMatchSessions(s) && FamiliesAreSingle(s)
  }

  /** Sessions keep their owner and family, and a revocation is never taken back. */
  lemma SessionsPersist(s: State, e: Event)
    requires Enabled(s, e)
    ensures forall id :: id in s.sessions ==>
      && id in Apply(s, e).sessions
      && Apply(s, e).sessions[id].userId == s.sessions[id].userId
      && Apply(s, e).sessions[id].familyId == s.sessions[id].familyId
      && (s.sessions[id].revoked ==> Apply(s, e).sessions[id].revoked)
  {}

  lemma LatestStep(s: State, e: Event)
    requires SessionsMatchLatest(s) && Enabled(s, e)
    ensures SessionsMatchLatest(Apply(s, e))
  {}

  lemma TokensStep(s: State, e: Event)
    requires TokensMatchSessions(s) && Enabled(s, e)
    ensures TokensMatchSessions(Apply(s, e))
  {}

  lemma FamiliesStep(s: State, e: Event)
    requires FamiliesAreSingle(s) && Enabled(s, e)
    ensures FamiliesAreSingle(Apply(s, e))
  {}

  lemma InvariantStep(s: State, e: Event)
    requires Invariant(s) && Enabled(s, e)
    ensures Invariant(Apply(s, e))
  {
    hide Enabled, Apply, SessionsMatchLatest, TokensMatchSessions, FamiliesAreSingle;
    LatestStep(s, e);
    TokensStep(s, e);
    FamiliesStep(s, e);
  }

  lemma {:induction false} InvariantAlways(s: State, es: seq<Event>)
    requires Invariant(s) && Runs(s, es)
    ensures Invariant(After(s, es))
    decreases |es|
  {
    if es != [] {
      InvariantAlways(s, es[..|es| - 1]);
      InvariantStep(After(s, es[..|es| - 1]), es[|es| - 1]);
    }
  }

  /** An unrevoked session of an active user has exactly one redeemable token: the last one issued. */
  lemma ExactlyTheLatestIsRedeemable(active: set<UserId>, es: seq<Event>, id: SessionId)
    requires Runs(Initial(active), es)
    requires var s := After(Initial(active), es);
      id in s.sessions && !s.sessions[id].revoked && s.sessions[id].userId in s.active
    ensures
      var s := After(Initial(active), es);
      && id in s.latest
      && var latest := Token(s.sessions[id].userId, id, s.sessions[id].familyId, s.latest[id]);
         && latest in s.issued && Redeemable(s, latest)
         && forall t :: t in s.issued && t.sessionId == id && Redeemable(s, t) ==> t == latest
  {
    InvariantAlways(Initial(active), es);
  }

  /** Tokens the server signed can only fail for revocation, inactivity or reuse. */
  lemma IssuedTokensFailForThreeReasons(active: set<UserId>, es: seq<Event>, t: Token, newTokenId: TokenId)
    requires Runs(Initial(active), es) && t in After(Initial(active), es).issued
    ensures
      var s := After(Initial(active), es);
      var r := Rotation(s.sessions, s.active, Refresh(t), newTokenId).1;
      r.Refused? ==> r.code in {SessionRevoked, UserInactive, RefreshReuseDetected}
  {
    InvariantAlways(Initial(active), es);
  }

  ghost predicate FamilyRevoked(s: State, family: FamilyId) {
    forall id :: id in s.sessions && s.sessions[id].familyId == family ==> s.sessions[id].revoked
  }

  lemma {:induction false} RevokedFamilyStaysRevoked(s: State, es: seq<Event>, family: FamilyId, id: SessionId)
    requires FamilyRevoked(s, family) && Runs(s, es) && id in s.sessions && s.sessions[id].familyId == family
    ensures FamilyRevoked(After(s, es), family)
    ensures id in After(s, es).sessions && After(s, es).sessions[id].familyId == family
    decreases |es|
  {
    if es != [] {
      var p, e := es[..|es| - 1], es[|es| - 1];
      RevokedFamilyStaysRevoked(s, p, family, id);
      SessionsPersist(After(s, p), e);
      NewSessionsAreOfOtherFamilies(After(s, p), e, family, id);
    }
  }

  lemma NewSessionsAreOfOtherFamilies(s: State, e: Event, family: FamilyId, id: SessionId)
    requires Enabled(s, e) && id in s.sessions && s.sessions[id].familyId == family
    ensures forall other :: other in Apply(s, e).sessions && other !in s.sessions ==>
      Apply(s, e).sessions[other].familyId != family
  {}

  /** Presenting a superseded token of a live session to an active user's account is detected, revokes the
      whole family, and no token of that family can ever be rotated again. */
  lemma ReuseRevokesFamilyForever(
      active: set<UserId>, es: seq<Event>, t: Token, newTokenId: TokenId, later: seq<Event>, u: Token, uNext: TokenId)
    requires Runs(Initial(active), es)
    requires var s := After(Initial(active), es);
      && t in s.issued && t.sessionId in s.sessions && !s.sessions[t.sessionId].revoked && t.userId in s.active
      && t.sessionId in s.latest && t.tokenId != s.latest[t.sessionId]
      && Enabled(s, Rotate(Refresh(t), newTokenId))
      && Runs(Apply(s, Rotate(Refresh(t), newTokenId)), later)
    requires u in After(Apply(After(Initial(active), es), Rotate(Refresh(t), newTokenId)), later).issued &&
      u.familyId == t.familyId
    ensures
      var s := After(Initial(active), es);
      && Rotation(s.sessions, s.active, Refresh(t), newTokenId).1 == Refused(RefreshReuseDetected)
      && FamilyRevoked(Apply(s, Rotate(Refresh(t), newTokenId)), t.familyId)
      && var z := After(Apply(s, Rotate(Refresh(t), newTokenId)), later);
         Rotation(z.sessions, z.active, Refresh(u), uNext).1 == Refused(SessionRevoked)
  {
    var s := After(Initial(active), es);
    InvariantAlways(Initial(active), es);
    var s1 := Apply(s, Rotate(Refresh(t), newTokenId));
    InvariantStep(s, Rotate(Refresh(t), newTokenId));
    InvariantAlways(s1, later);
    RevokedFamilyStaysRevoked(s1, later, t.familyId, t.sessionId);
  }

  // ---- What becomes of a presented token ----

  /** In every run the fate of a token the server signed is decided by its session's revocation, its user and whether it
      is the last one issued, in that order; only a session of an inactive user, a family on reuse, and the redeemed
      session's token change. */
  lemma IssuedTokenOutcomeExactly(active: set<UserId>, es: seq<Event>, t: Token, newTokenId: TokenId)
    requires Runs(Initial(active), es) && t in After(Initial(active), es).issued
    ensures
      var s := After(Initial(active), es);
      var (sessions, r) := Rotation(s.sessions, s.active, Refresh(t), newTokenId);
      && t.sessionId in s.sessions && t.sessionId in s.latest
      && var session := s.sessions[t.sessionId];
         var isLatest := t.tokenId == s.latest[t.sessionId];
         && (r == Refused(SessionRevoked) <==> session.revoked)
         && (r == Refused(UserInactive) <==> !session.revoked && t.userId !in s.active)
         && (r == Refused(RefreshReuseDetected) <==> !session.revoked && t.userId in s.active && !isLatest)
         && (r == Rotated(Token(t.userId, t.sessionId, t.familyId, newTokenId)) <==>
               !session.revoked && t.userId in s.active && isLatest)
         && (r.Rotated? ==> sessions == s.sessions[t.sessionId := session.(refreshTokenHash := Sha256(newTokenId))])
         && (r == Refused(SessionRevoked) ==> sessions == s.sessions)
         && (r == Refused(UserInactive) ==> sessions == s.sessions[t.sessionId := session.(revoked := true)])
  {
    InvariantAlways(Initial(active), es);
    hide Enabled, Apply, Runs, After, FamiliesAreSingle, RevokeFamily;
  }

  /** After a rotation the new token redeems and the old one does not. */
  lemma RotationMovesOn(active: set<UserId>, es: seq<Event>, t: Token, newTokenId: TokenId)
    requires Runs(Initial(active), es) && Redeemable(After(Initial(active), es), t)
    requires Enabled(After(Initial(active), es), Rotate(Refresh(t), newTokenId))
    ensures
      var s := Apply(After(Initial(active), es), Rotate(Refresh(t), newTokenId));
      Redeemable(s, Token(t.userId, t.sessionId, t.familyId, newTokenId)) && !Redeemable(s, t)
  {
    InvariantAlways(Initial(active), es);
    hide Runs, After, Invariant;
  }

  /** A string that is no signed refresh token gets nowhere and changes nothing. */
  lemma OtherStringsAreRefused(s: State, newTokenId: TokenId)
    ensures Rotation(s.sessions, s.active, Unverifiable, newTokenId) == (s.sessions, Refused(InvalidRefresh))
    ensures Rotation(s.sessions, s.active, OtherType, newTokenId) == (s.sessions, Refused(InvalidRefreshType))
  {}
}
