/**
 The transactions that write the session and refresh token tables. A transaction that throws returns
 `None`: Prisma rolls the whole of it back.
 */
module GrantTables {
  import opened Model

  /** `jwt.sign`: from now on this token's signature verifies. */
  function Mint(g: Grants, jwt: RefreshJwt): Grants {
    g.(minted := g.minted[jwt.jti := jwt])
  }

  /** `jwt.verify`: signed by this server with exactly these claims, and not yet expired. */
  predicate VerifyRefresh(g: Grants, jwt: RefreshJwt, now: Time) {
    jwt.jti in g.minted && g.minted[jwt.jti] == jwt && Seconds(now) < jwt.exp
  }

  /** Login's commit. */
  function CreateSession(g: Grants, userId: UserId, metadata: SessionMetadata, sid: SessionId,
                         jti: Draw, expiresAt: Time, now: Time): Option<Grants>
  {
    if sid in g.sessions || Sha256Hex(jti) in g.tokens then None
    else Some(g.(
      sessions := g.sessions[sid := Session(userId, metadata, true, now, expiresAt, now)],
      tokens := g.tokens[Sha256Hex(jti) := RefreshToken(userId, sid, expiresAt, now)]))
  }

  /** The rotation commit: delete the presented token, create its successor, touch the session. */
  function Rotate(g: Grants, presented: Draw, userId: UserId, sid: SessionId,
                  jti: Draw, expiresAt: Time, now: Time): Option<Grants>
  {
    if Sha256Hex(presented) !in g.tokens then None else
    var rest := g.tokens - {Sha256Hex(presented)};
    if Sha256Hex(jti) in rest || sid !in g.sessions then None
    else Some(g.(
      tokens := rest[Sha256Hex(jti) := RefreshToken(userId, sid, expiresAt, now)],
      sessions := g.sessions[sid := g.sessions[sid].(lastUsedAt := now)]))
  }

  /** Delete sessions; the foreign key from refresh token to session cascades. */
  function DropSessions(g: Grants, doomed: set<SessionId>): Grants {
    g.(sessions := g.sessions - doomed,
       tokens := map h | h in g.tokens && g.tokens[h].sessionId !in doomed :: g.tokens[h])
  }

  function SessionIdsOf(g: Grants, u: UserId): set<SessionId> {
    set sid | sid in g.sessions && g.sessions[sid].userId == u
  }

  /** Delete the user's refresh tokens, then the user's sessions. */
  function Purge(g: Grants, u: UserId): Grants {
    var tokens := map h | h in g.tokens && g.tokens[h].userId != u :: g.tokens[h];
    DropSessions(g.(tokens := tokens), SessionIdsOf(g, u))
  }

  /** Logout's variant: delete one token by its hash, then the user's sessions. */
  function Logout(g: Grants, jwt: RefreshJwt): Grants {
    DropSessions(g.(tokens := g.tokens - {Sha256Hex(jwt.jti)}), SessionIdsOf(g, jwt.id))
  }

  function SessionsOf(g: Grants, u: UserId): map<SessionId, Session> {
    map sid | sid in g.sessions && g.sessions[sid].userId == u :: g.sessions[sid]
  }

  function TokensOf(g: Grants, u: UserId): map<TokenHash, RefreshToken> {
    map h | h in g.tokens && g.tokens[h].userId == u :: g.tokens[h]
  }

  // ---------------------------------------------------------------- the matching invariant

  ghost predicate Backs(g: Grants, h: TokenHash, sid: SessionId) {
    h in g.tokens && g.tokens[h].sessionId == sid
  }

  /** Token row `h` has its session and its signed token, and all three name one user. */
  ghost predicate WellOwned(g: Grants, h: TokenHash)
    requires h in g.tokens
  {
    var row := g.tokens[h];
    && row.sessionId in g.sessions
    && h.preimage in g.minted
    && row.userId == g.sessions[row.sessionId].userId == g.minted[h.preimage].id
    && g.sessions[row.sessionId].expiresAt <= row.expiresAt
  }

  /** Sessions and refresh tokens match one to one. */
  ghost predicate Matched(g: Grants) {
    && (forall h | h in g.tokens :: WellOwned(g, h))
    && (forall h, k | h in g.tokens && k in g.tokens && g.tokens[h].sessionId == g.tokens[k].sessionId :: h == k)
    && (forall sid | sid in g.sessions :: exists h :: Backs(g, h, sid))
    && (forall j | j in g.minted :: g.minted[j].jti == j)
  }

  lemma TokenFacts(g: Grants)
    requires Matched(g)
    ensures forall h | h in g.tokens ::
              && h.preimage in g.minted && g.minted[h.preimage].id == g.tokens[h].userId
              && g.tokens[h].sessionId in g.sessions
              && g.sessions[g.tokens[h].sessionId].userId == g.tokens[h].userId
              && g.sessions[g.tokens[h].sessionId].expiresAt <= g.tokens[h].expiresAt
  {
    forall h | h in g.tokens ensures WellOwned(g, h) {}
  }

  lemma MintKeepsMatched(g: Grants, jwt: RefreshJwt)
    requires Matched(g) && jwt.jti !in g.minted
    ensures Matched(Mint(g, jwt))
  {
    var g' := Mint(g, jwt);
    forall h | h in g'.tokens ensures WellOwned(g', h) {
      assert WellOwned(g, h);
    }
    forall sid | sid in g'.sessions ensures exists h :: Backs(g', h, sid) {
      var h :| Backs(g, h, sid);
      assert Backs(g', h, sid);
    }
  }

  lemma CreateKeepsMatched(g: Grants, u: UserId, metadata: SessionMetadata, sid: SessionId,
                           jti: Draw, expiresAt: Time, now: Time)
    requires Matched(g) && jti in g.minted && g.minted[jti].id == u
    requires CreateSession(g, u, metadata, sid, jti, expiresAt, now).Some?
    ensures Matched(CreateSession(g, u, metadata, sid, jti, expiresAt, now).value)
  {
    var g' := CreateSession(g, u, metadata, sid, jti, expiresAt, now).value;
    forall h | h in g'.tokens ensures WellOwned(g', h) {
      if h != Sha256Hex(jti) { assert WellOwned(g, h); }
    }
    forall x | x in g'.sessions ensures exists h :: Backs(g', h, x) {
      if x == sid {
        assert Backs(g', Sha256Hex(jti), sid);
      } else {
        var h :| Backs(g, h, x);
        assert Backs(g', h, x);
      }
    }
    forall h, k | h in g'.tokens && k in g'.tokens && g'.tokens[h].sessionId == g'.tokens[k].sessionId
      ensures h == k
    {
      if h in g.tokens { assert WellOwned(g, h); }
      if k in g.tokens { assert WellOwned(g, k); }
    }
  }

  lemma RotateKeepsMatched(g: Grants, presented: Draw, u: UserId, sid: SessionId,
                           jti: Draw, expiresAt: Time, now: Time)
    requires Matched(g) && jti in g.minted && g.minted[jti].id == u
    requires Rotate(g, presented, u, sid, jti, expiresAt, now).Some?
    requires Backs(g, Sha256Hex(presented), sid) && g.tokens[Sha256Hex(presented)].userId == u
    requires g.sessions[sid].expiresAt <= expiresAt
    ensures Matched(Rotate(g, presented, u, sid, jti, expiresAt, now).value)
  {
    var g' := Rotate(g, presented, u, sid, jti, expiresAt, now).value;
    assert WellOwned(g, Sha256Hex(presented));
    forall h | h in g'.tokens ensures WellOwned(g', h) {
      if h != Sha256Hex(jti) { assert WellOwned(g, h); }
    }
    forall x | x in g'.sessions ensures exists h :: Backs(g', h, x) {
      if x == sid {
        assert Backs(g', Sha256Hex(jti), sid);
      } else {
        var h :| Backs(g, h, x);
        assert Backs(g', h, x);
      }
    }
  }

  /** What a rotation leaves alone. */
  lemma RotateEffect(g: Grants, presented: Draw, u: UserId, sid: SessionId, jti: Draw, expiresAt: Time, now: Time)
    requires Rotate(g, presented, u, sid, jti, expiresAt, now).Some?
    ensures var k := Rotate(g, presented, u, sid, jti, expiresAt, now).value;
            && k.minted == g.minted && k.sessions.Keys == g.sessions.Keys
            && (forall x | x in g.sessions :: k.sessions[x].expiresAt == g.sessions[x].expiresAt)
            && (forall h | h in k.tokens && h.preimage != jti :: h in g.tokens && k.tokens[h] == g.tokens[h])
  {
    assert forall h | h in g.tokens && h.preimage == jti :: h == Sha256Hex(jti);
  }

  lemma DropKeepsMatched(g: Grants, doomed: set<SessionId>)
    requires Matched(g)
    ensures Matched(DropSessions(g, doomed))
  {
    var g' := DropSessions(g, doomed);
    forall h | h in g'.tokens ensures WellOwned(g', h) {
      assert WellOwned(g, h);
    }
    forall sid | sid in g'.sessions ensures exists h :: Backs(g', h, sid) {
      var h :| Backs(g, h, sid);
      assert Backs(g', h, sid);
    }
  }

  // ---------------------------------------------------------------- all purges are one cascade

  lemma OwnTokensGoWithTheSessions(g: Grants, u: UserId)
    requires Matched(g)
    ensures forall h | h in g.tokens :: g.tokens[h].userId == u <==> g.tokens[h].sessionId in SessionIdsOf(g, u)
  {
    TokenFacts(g);
  }

  /** Deleting the user's tokens first comes to the same as the cascade alone. */
  lemma PurgeIsTheCascade(g: Grants, u: UserId)
    requires Matched(g)
    ensures Purge(g, u) == DropSessions(g, SessionIdsOf(g, u))
  {
    OwnTokensGoWithTheSessions(g, u);
    assert Purge(g, u).tokens == DropSessions(g, SessionIdsOf(g, u)).tokens;
  }

  /** And so does logout's deleting only one of them, by its hash. */
  lemma LogoutIsTheCascade(g: Grants, jwt: RefreshJwt)
    requires Matched(g) && jwt.jti in g.minted && g.minted[jwt.jti] == jwt
    ensures Logout(g, jwt) == DropSessions(g, SessionIdsOf(g, jwt.id))
  {
    TokenFacts(g);
    OwnTokensGoWithTheSessions(g, jwt.id);
    assert Logout(g, jwt).tokens == DropSessions(g, SessionIdsOf(g, jwt.id)).tokens;
  }

  /** After a purge the user holds nothing, and every other user's rows are exactly as before. */
  lemma PurgeIsExact(g: Grants, u: UserId, v: UserId)
    requires Matched(g)
    ensures SessionsOf(Purge(g, u), v) == if v == u then map[] else SessionsOf(g, v)
    ensures TokensOf(Purge(g, u), v) == if v == u then map[] else TokensOf(g, v)
  {
    PurgeIsTheCascade(g, u);
    OwnTokensGoWithTheSessions(g, u);
  }
}
