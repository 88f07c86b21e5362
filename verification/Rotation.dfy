/** What holds of refresh token rotation over every interleaved run. */
module Rotation {
  import opened Model
  import opened GrantTables
  import opened Requests
  import opened Purges
  import opened Interleaving
  import Auth = AuthService
  import Self = UserService

  // ---------------------------------------------------------------- one-to-one matching

  lemma {:induction false} RunKeepsCoherent(cfg: Config, c: Conc, ms: seq<Move>)
    requires Coherent(cfg, c) && EnabledRun(cfg, c, ms)
    ensures Coherent(cfg, Exec(cfg, c, ms))
    decreases |ms|
  {
    if ms == [] {
    } else {
      StepKeepsCoherent(cfg, c, ms[0]);
      RunKeepsCoherent(cfg, Next(cfg, c, ms[0]), ms[1..]);
    }
  }

  /**
   In every state that interleaved calls reach from the empty store, each session has exactly one refresh
   token row, each row has its session, and row, session and signed token name the same user.
   */
  lemma SessionsAndTokensMatch(cfg: Config, ms: seq<Move>, sid: SessionId, h: TokenHash)
    requires EnabledRun(cfg, Conc(EMPTY, map[]), ms)
    ensures var g := Exec(cfg, Conc(EMPTY, map[]), ms).s.grants;
            && (sid in g.sessions ==> exists k :: Backs(g, k, sid) && forall k' | Backs(g, k', sid) :: k' == k)
            && (h in g.tokens ==>
                  && g.tokens[h].sessionId in g.sessions && h.preimage in g.minted
                  && g.tokens[h].userId == g.sessions[g.tokens[h].sessionId].userId == g.minted[h.preimage].id)
  {
    var c := Exec(cfg, Conc(EMPTY, map[]), ms);
    RunKeepsCoherent(cfg, Conc(EMPTY, map[]), ms);
    TokenFacts(c.s.grants);
    if sid in c.s.grants.sessions {
      var k :| Backs(c.s.grants, k, sid);
      forall k' | Backs(c.s.grants, k', sid) ensures k' == k {}
    }
  }

  // ---------------------------------------------------------------- single use

  /** A signed token that no row and no pending call stands for any more. */
  predicate Retired(c: Conc, j: Draw) {
    j in c.s.grants.minted && Sha256Hex(j) !in c.s.grants.tokens && j !in c.pending
  }

  /** This move successfully trades in the token with id `j`. */
  predicate Trades(cfg: Config, c: Conc, m: Move, j: Draw) {
    var s := At(c.s, m);
    match m.action
    case RefreshCommit(jti) => RefreshCommitted(s, c.pending, jti).Some? && c.pending[jti].presented == j
    case Whole(call) => call.Refresh? && call.jwt.jti == j && Apply(cfg, s, call).outcome.Rotated?
    case _ => false
  }

  function CountTrades(cfg: Config, c: Conc, ms: seq<Move>, j: Draw): nat
    decreases |ms|
  {
    if ms == [] then 0
    else (if Trades(cfg, c, ms[0], j) then 1 else 0) + CountTrades(cfg, Next(cfg, c, ms[0]), ms[1..], j)
  }

  lemma {:induction false} RetiredThroughSteps(cfg: Config, c: Conc, m: Move, j: Draw)
    requires Coherent(cfg, c) && Enabled(c, m) && Retired(c, j) && !m.action.Whole?
    ensures Retired(Next(cfg, c, m), j)
    ensures !Trades(cfg, c, m, j)
  {
    hide Apply;
  }

  lemma {:induction false} RetiredThroughCalls(cfg: Config, c: Conc, m: Move, j: Draw)
    requires Coherent(cfg, c) && Enabled(c, m) && Retired(c, j) && m.action.Whole?
    requires m.action.call.Login? || m.action.call.Refresh?
    ensures Retired(Next(cfg, c, m), j)
    ensures !Trades(cfg, c, m, j)
  {
  }

  lemma {:induction false} RetiredStaysRetired(cfg: Config, c: Conc, m: Move, j: Draw)
    requires Coherent(cfg, c) && Enabled(c, m) && Retired(c, j)
    ensures Retired(Next(cfg, c, m), j)
    ensures !Trades(cfg, c, m, j)
  {
    hide Apply;
    if !m.action.Whole? {
      RetiredThroughSteps(cfg, c, m, j);
    } else if m.action.call.Login? || m.action.call.Refresh? {
      RetiredThroughCalls(cfg, c, m, j);
    } else {
      OtherCallsOnlyDrop(cfg, At(c.s, m), m.action.call);
    }
  }

  lemma {:induction false} TradingRetires(cfg: Config, c: Conc, m: Move, j: Draw)
    requires Coherent(cfg, c) && Enabled(c, m) && Trades(cfg, c, m, j)
    ensures Retired(Next(cfg, c, m), j)
  {
    PendingFacts(cfg, c);
    TokenFacts(c.s.grants);
  }

  lemma {:induction false} RetiredForever(cfg: Config, c: Conc, ms: seq<Move>, j: Draw)
    requires Coherent(cfg, c) && EnabledRun(cfg, c, ms) && Retired(c, j)
    ensures Retired(Exec(cfg, c, ms), j) && CountTrades(cfg, c, ms, j) == 0
    decreases |ms|
  {
    if ms == [] {
    } else {
      RetiredStaysRetired(cfg, c, ms[0], j);
      StepKeepsCoherent(cfg, c, ms[0]);
      RetiredForever(cfg, Next(cfg, c, ms[0]), ms[1..], j);
    }
  }

  /** Of all the calls that present one refresh token, however they interleave, at most one commits. */
  lemma {:induction false} AtMostOneTrade(cfg: Config, c: Conc, ms: seq<Move>, j: Draw)
    requires Coherent(cfg, c) && EnabledRun(cfg, c, ms)
    ensures CountTrades(cfg, c, ms, j) <= 1
    decreases |ms|
  {
    if ms == [] {
    } else {
      StepKeepsCoherent(cfg, c, ms[0]);
      if Trades(cfg, c, ms[0], j) {
        TradingRetires(cfg, c, ms[0], j);
        RetiredForever(cfg, Next(cfg, c, ms[0]), ms[1..], j);
      } else {
        AtMostOneTrade(cfg, Next(cfg, c, ms[0]), ms[1..], j);
      }
    }
  }

  /** Once traded in, a token is refused by every later read, at any moment of any continuation. */
  lemma TradedTokenIsRefusedForever(cfg: Config, c: Conc, m: Move, ms: seq<Move>, jwt: RefreshJwt, now: Time)
    requires Coherent(cfg, c) && Enabled(c, m) && EnabledRun(cfg, Next(cfg, c, m), ms)
    requires Trades(cfg, c, m, jwt.jti)
    ensures var s := Exec(cfg, Next(cfg, c, m), ms).s;
            Auth.CheckRefresh(s.(clock := now), jwt).RefreshRefused?
  {
    TradingRetires(cfg, c, m, jwt.jti);
    StepKeepsCoherent(cfg, c, m);
    RetiredForever(cfg, Next(cfg, c, m), ms, jwt.jti);
  }

  /** The other ways a commit could throw never arise: it succeeds exactly while the presented row is there. */
  lemma CommitSucceedsWhileTheRowIsThere(cfg: Config, c: Conc, m: Move)
    requires Coherent(cfg, c) && m.action.RefreshCommit?
    requires m.action.jti in c.pending && c.pending[m.action.jti].PendingRotation?
    ensures RefreshCommitted(At(c.s, m), c.pending, m.action.jti).Some?
            <==> Sha256Hex(c.pending[m.action.jti].presented) in c.s.grants.tokens
  {
    assert PendingOk(cfg, c, m.action.jti);
  }

  // ---------------------------------------------------------------- purges are final

  predicate PurgesUser(cfg: Config, c: Conc, m: Move, u: UserId) {
    m.action.Whole? && PurgeTarget(cfg, At(c.s, m), m.action.call) == Some(u)
  }

  lemma {:induction false} PurgeRetires(cfg: Config, c: Conc, m: Move, u: UserId, j: Draw)
    requires Coherent(cfg, c) && Enabled(c, m) && PurgesUser(cfg, c, m, u)
    requires j in c.s.grants.minted && c.s.grants.minted[j].id == u && j !in c.pending
    ensures Retired(Next(cfg, c, m), j)
  {
    TokenFacts(c.s.grants);
    AllPurgePathsAgree(cfg, At(c.s, m), m.action.call, u, u);
  }

  /**
   A rotation that was pending when its user's sessions were purged can never commit: in every state
   reached afterwards its transaction throws, so it leaves the tables as they are.
   */
  lemma PendingRotationDiesWithThePurge(cfg: Config, c: Conc, m: Move, ms: seq<Move>, jti: Draw, u: UserId, now: Time)
    requires Coherent(cfg, c) && Enabled(c, m) && EnabledRun(cfg, Next(cfg, c, m), ms)
    requires PurgesUser(cfg, c, m, u)
    requires jti in c.pending && c.pending[jti].PendingRotation? && c.pending[jti].userId == u
    ensures var c' := Exec(cfg, Next(cfg, c, m), ms);
            && RefreshCommitted(c'.s.(clock := now), c.pending, jti).None?
            && RefreshCommitted(c'.s.(clock := now), c'.pending, jti).None?
  {
    assert PendingOk(cfg, c, jti);
    var presented := c.pending[jti].presented;
    PurgeRetires(cfg, c, m, u, presented);
    StepKeepsCoherent(cfg, c, m);
    RetiredForever(cfg, Next(cfg, c, m), ms, presented);
    PendingKeepsItsContent(cfg, Next(cfg, c, m), ms, jti);
  }

  lemma {:induction false} StepKeepsContent(cfg: Config, c: Conc, m: Move, jti: Draw)
    requires Coherent(cfg, c) && Enabled(c, m) && jti in c.s.grants.minted
    ensures var c' := Next(cfg, c, m);
            jti in c'.s.grants.minted && (jti in c'.pending ==> jti in c.pending && c'.pending[jti] == c.pending[jti])
  {
    if m.action.Whole? && !m.action.call.Login? && !m.action.call.Refresh? {
      OtherCallsOnlyDrop(cfg, At(c.s, m), m.action.call);
    }
  }

  /** While a call is pending under `jti`, nothing rewrites it. */
  lemma {:induction false} PendingKeepsItsContent(cfg: Config, c: Conc, ms: seq<Move>, jti: Draw)
    requires Coherent(cfg, c) && EnabledRun(cfg, c, ms) && jti in c.s.grants.minted
    ensures var c' := Exec(cfg, c, ms); jti in c'.pending ==> jti in c.pending && c'.pending[jti] == c.pending[jti]
    decreases |ms|
  {
    if ms == [] {
    } else {
      StepKeepsCoherent(cfg, c, ms[0]);
      StepKeepsContent(cfg, c, ms[0], jti);
      PendingKeepsItsContent(cfg, Next(cfg, c, ms[0]), ms[1..], jti);
    }
  }

  /** The session a successful login commits in this move. */
  function NewSession(cfg: Config, c: Conc, m: Move): set<SessionId> {
    var s := At(c.s, m);
    match m.action
    case LoginCommit(jti, sid) => if LoginCommitted(s, c.pending, jti, sid).Some? then {sid} else {}
    case Whole(call) => if Apply(cfg, s, call).outcome.LoggedIn? then {call.sid} else {}
    case _ => {}
  }

  function NewSessions(cfg: Config, c: Conc, ms: seq<Move>): set<SessionId>
    decreases |ms|
  {
    if ms == [] then {} else NewSession(cfg, c, ms[0]) + NewSessions(cfg, Next(cfg, c, ms[0]), ms[1..])
  }

  lemma {:induction false} StepAddsOnlyLogins(cfg: Config, c: Conc, m: Move, u: UserId)
    requires Coherent(cfg, c) && Enabled(c, m)
    ensures SessionIdsOf(Next(cfg, c, m).s.grants, u) <= SessionIdsOf(c.s.grants, u) + NewSession(cfg, c, m)
  {
    if m.action.Whole? && !m.action.call.Login? && !m.action.call.Refresh? {
      OtherCallsOnlyDrop(cfg, At(c.s, m), m.action.call);
    }
  }

  lemma {:induction false} SessionsComeFromLogins(cfg: Config, c: Conc, ms: seq<Move>, u: UserId)
    requires Coherent(cfg, c) && EnabledRun(cfg, c, ms)
    ensures SessionIdsOf(Exec(cfg, c, ms).s.grants, u) <= SessionIdsOf(c.s.grants, u) + NewSessions(cfg, c, ms)
    decreases |ms|
  {
    if ms == [] {
    } else {
      var c', m := Next(cfg, c, ms[0]), ms[0];
      StepKeepsCoherent(cfg, c, m);
      SessionsComeFromLogins(cfg, c', ms[1..], u);
      StepAddsOnlyLogins(cfg, c, m, u);
    }
  }

  /** After a purge, only logins that commit later can give the user a session again. */
  lemma PurgeIsFinal(cfg: Config, c: Conc, m: Move, ms: seq<Move>, u: UserId)
    requires Coherent(cfg, c) && Enabled(c, m) && EnabledRun(cfg, Next(cfg, c, m), ms)
    requires PurgesUser(cfg, c, m, u)
    ensures SessionIdsOf(Exec(cfg, Next(cfg, c, m), ms).s.grants, u) <= NewSessions(cfg, Next(cfg, c, m), ms)
  {
    StepKeepsCoherent(cfg, c, m);
    SessionsComeFromLogins(cfg, Next(cfg, c, m), ms, u);
    AllPurgePathsAgree(cfg, At(c.s, m), m.action.call, u, u);
    assert SessionsOf(Next(cfg, c, m).s.grants, u).Keys == SessionIdsOf(Next(cfg, c, m).s.grants, u);
  }

  // ---------------------------------------------------------------- no single session can be revoked

  /** Login flags every session as the current one, and nothing takes the flag away. */
  predicate AllCurrent(g: Grants) {
    forall sid | sid in g.sessions :: g.sessions[sid].isCurrent
  }

  lemma {:induction false} StepKeepsAllCurrent(cfg: Config, c: Conc, m: Move)
    requires Coherent(cfg, c) && Enabled(c, m) && AllCurrent(c.s.grants)
    ensures AllCurrent(Next(cfg, c, m).s.grants)
  {
    if m.action.Whole? && !m.action.call.Login? && !m.action.call.Refresh? {
      OtherCallsOnlyDrop(cfg, At(c.s, m), m.action.call);
    }
  }

  lemma {:induction false} RunKeepsAllCurrent(cfg: Config, c: Conc, ms: seq<Move>)
    requires Coherent(cfg, c) && EnabledRun(cfg, c, ms) && AllCurrent(c.s.grants)
    ensures AllCurrent(Exec(cfg, c, ms).s.grants)
    decreases |ms|
  {
    if ms == [] {
    } else {
      StepKeepsCoherent(cfg, c, ms[0]);
      StepKeepsAllCurrent(cfg, c, ms[0]);
      RunKeepsAllCurrent(cfg, Next(cfg, c, ms[0]), ms[1..]);
    }
  }

  /** So in no reachable state does revoking one session succeed, not even for its owner. */
  lemma RevocationNeverSucceeds(cfg: Config, ms: seq<Move>, u: UserId, sid: SessionId, now: Time)
    requires EnabledRun(cfg, Conc(EMPTY, map[]), ms)
    ensures var s := Exec(cfg, Conc(EMPTY, map[]), ms).s.(clock := now);
            Self.RevokeSession(s, u, sid)
              == Reply(s, Failed(if sid !in s.grants.sessions then SessionNotFound
                                 else if s.grants.sessions[sid].userId != u then Forbidden
                                 else CurrentSessionCannotBeRevoked))
  {
    RunKeepsAllCurrent(cfg, Conc(EMPTY, map[]), ms);
  }

  // ---------------------------------------------------------------- listed sessions are usable

  /** Every session that the session list shows is backed by exactly one row, of the same user and unexpired. */
  lemma ListedSessionsAreBacked(cfg: Config, c: Conc, u: UserId, now: Time, sid: SessionId)
    requires Coherent(cfg, c)
    requires sid in Self.LiveSessions(c.s.(clock := now), u)
    ensures exists h ::
              && Backs(c.s.grants, h, sid) && c.s.grants.tokens[h].userId == u && c.s.grants.tokens[h].expiresAt > now
              && forall k | Backs(c.s.grants, k, sid) :: k == h
  {
    TokenFacts(c.s.grants);
    var h :| Backs(c.s.grants, h, sid);
    assert forall k | Backs(c.s.grants, k, sid) :: k == h;
  }
}
