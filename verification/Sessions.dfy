/** Which sessions the session list shows, and what it shows of them, over whole-request runs. */
module Sessions {
  import opened Model
  import opened GrantTables
  import opened Requests
  import opened Interleaving
  import opened Lifetimes
  import opened Purges
  import Lockout

  /** A login of `u` that opened this session. */
  predicate Opens(cfg: Config, s: State, e: Event, u: UserId, sid: SessionId) {
    e.call.Login? && e.call.sid == sid && Lockout.LogsIn(cfg, s, e, u)
  }

  /** A logout, password change, revocation or deletion that ended the sessions of `u`. */
  predicate EndsAll(cfg: Config, s: State, e: Event, u: UserId) {
    PurgeTarget(cfg, Arrive(s, e), e.call) == Some(u)
  }

  /** A rotation that traded the token with this id in. */
  predicate Trades(cfg: Config, s: State, e: Event, token: Draw) {
    e.call.Refresh? && e.call.jwt.jti == token && Serve(cfg, s, e).outcome.Rotated?
  }

  predicate Has(s: State, u: UserId, sid: SessionId) {
    sid in s.grants.sessions && s.grants.sessions[sid].userId == u
  }

  /** The row of the token that a login or rotation gives out. */
  predicate GivenToken(cfg: Config, g: Grants, e: Event, u: UserId, sid: SessionId)
    requires e.call.Login? || e.call.Refresh?
  {
    && Sha256Hex(e.call.jti) in g.tokens
    && g.tokens[Sha256Hex(e.call.jti)] == RefreshToken(u, sid, cfg.StoredExpiry(e.at), e.at)
  }

  /** What one event does to a session whose present token is `token`. */
  ghost predicate Handles(cfg: Config, s: State, e: Event, u: UserId, sid: SessionId, token: Draw) {
    var s' := Step(cfg, s, e);
    && (Has(s', u, sid) <==> Opens(cfg, s, e, u, sid) || (Has(s, u, sid) && !EndsAll(cfg, s, e, u)))
    && (Opens(cfg, s, e, u, sid) ==>
          && !Has(s, u, sid) && GivenToken(cfg, s'.grants, e, u, sid)
          && s'.grants.sessions[sid] == Session(u, e.call.metadata, true, e.at, cfg.StoredExpiry(e.at), e.at))
    && (Has(s, u, sid) && Has(s', u, sid) && Backs(s.grants, Sha256Hex(token), sid) ==>
          if Trades(cfg, s, e, token)
          then && s'.grants.sessions[sid] == s.grants.sessions[sid].(lastUsedAt := e.at)
               && GivenToken(cfg, s'.grants, e, u, sid)
          else && s'.grants.sessions[sid] == s.grants.sessions[sid] && Backs(s'.grants, Sha256Hex(token), sid)
               && s'.grants.tokens[Sha256Hex(token)] == s.grants.tokens[Sha256Hex(token)])
  }

  lemma {:induction false} LoginHandlesSession(cfg: Config, s: State, e: Event, u: UserId, sid: SessionId, token: Draw)
    requires Ready(cfg, s) && Possible(s, e) && e.call.Login?
    ensures Handles(cfg, s, e, u, sid, token)
  {
    hide EndsAll;
    TokenFacts(s.grants);
    LoginEndsNoSessions(cfg, s, e, u);
  }

  lemma LoginEndsNoSessions(cfg: Config, s: State, e: Event, u: UserId)
    requires e.call.Login? || e.call.Refresh?
    ensures !EndsAll(cfg, s, e, u)
  {
  }

  lemma {:induction false} RefreshHandlesSession(cfg: Config, s: State, e: Event, u: UserId, sid: SessionId,
                                                 token: Draw)
    requires Ready(cfg, s) && Possible(s, e) && e.call.Refresh?
    ensures Handles(cfg, s, e, u, sid, token)
  {
    hide EndsAll;
    TokenFacts(s.grants);
    LoginEndsNoSessions(cfg, s, e, u);
  }

  lemma {:induction false} OthersHandleSession(cfg: Config, s: State, e: Event, u: UserId, sid: SessionId, token: Draw)
    requires Ready(cfg, s) && Possible(s, e) && !e.call.Login? && !e.call.Refresh?
    ensures Handles(cfg, s, e, u, sid, token)
  {
    var s1, c := Arrive(s, e), e.call;
    if c.RevokeSession? { RevokingFails(s1, c.userId, c.sid); }
    assert c.RevokeSession? ==> Apply(cfg, s1, c).outcome.Failed?;
    hide Apply;
    OtherCallsOnlyDrop(cfg, s1, c);
    TokenFacts(s.grants);
  }

  lemma {:induction false} StepHandlesSession(cfg: Config, s: State, e: Event, u: UserId, sid: SessionId, token: Draw)
    requires Ready(cfg, s) && Possible(s, e)
    ensures Handles(cfg, s, e, u, sid, token)
  {
    hide Apply, Ready, Handles;
    if e.call.Login? {
      LoginHandlesSession(cfg, s, e, u, sid, token);
    } else if e.call.Refresh? {
      RefreshHandlesSession(cfg, s, e, u, sid, token);
    } else {
      OthersHandleSession(cfg, s, e, u, sid, token);
    }
  }

  // ---------------------------------------------------------------- over runs

  predicate OpensAt(cfg: Config, es: seq<Event>, j: nat, u: UserId, sid: SessionId)
    requires j < |es|
  {
    Opens(cfg, StateAt(cfg, es, j), es[j], u, sid)
  }

  predicate EndsAllAt(cfg: Config, es: seq<Event>, i: nat, u: UserId)
    requires i < |es|
  {
    EndsAll(cfg, StateAt(cfg, es, i), es[i], u)
  }

  /** Login `j` of `u` opened the session, and no purge before event `n` ended the sessions of `u` since. */
  predicate Standing(cfg: Config, es: seq<Event>, n: nat, j: nat, u: UserId, sid: SessionId)
    requires n <= |es|
  {
    && j < n && es[j].call.Login? && OpensAt(cfg, es, j, u, sid)
    && forall i | j < i < n :: !EndsAllAt(cfg, es, i, u)
  }

  /** A refresh token of the session, and the moment it was given out. */
  datatype Holding = Holding(token: Draw, since: Time)

  /** From the token of login `j` on, each rotation that trades the present one in hands over to its successor. */
  function Present(cfg: Config, es: seq<Event>, n: nat, j: nat): Holding
    requires j < n <= |es| && es[j].call.Login?
    decreases n
  {
    if n == j + 1 then Holding(es[j].call.jti, es[j].at)
    else
      var before := Present(cfg, es, n - 1, j);
      if Trades(cfg, StateAt(cfg, es, n - 1), es[n - 1], before.token)
      then Holding(es[n - 1].call.jti, es[n - 1].at) else before
  }

  /** The row as the events tell it: as login `j` made it, last used when its present token was given out. */
  ghost predicate SessionTold(cfg: Config, es: seq<Event>, n: nat, j: nat, u: UserId, sid: SessionId)
    requires j < n <= |es| && es[j].call.Login?
  {
    var s, holding := StateAt(cfg, es, n), Present(cfg, es, n, j);
    && Has(s, u, sid)
    && Backs(s.grants, Sha256Hex(holding.token), sid)
    && s.grants.tokens[Sha256Hex(holding.token)] ==
         RefreshToken(u, sid, holding.since + cfg.refreshExpiresIn, holding.since)
    && s.grants.sessions[sid] ==
         Session(u, es[j].call.metadata, true, holding.since, es[j].at + cfg.refreshExpiresIn, es[j].at)
  }

  lemma {:induction false} StandingStep(cfg: Config, es: seq<Event>, n: nat, next: nat, j: nat, u: UserId,
                                        sid: SessionId)
    requires next == n + 1 && n < |es| && Standing(cfg, es, next, j, u, sid)
    requires StateAt(cfg, es, next) == Step(cfg, StateAt(cfg, es, n), es[n])
    requires forall token :: Handles(cfg, StateAt(cfg, es, n), es[n], u, sid, token)
    requires j < n ==> SessionTold(cfg, es, n, j, u, sid)
    ensures SessionTold(cfg, es, next, j, u, sid)
  {
    hide Step, StateAt, Lockout.LogsIn, EndsAll, Has;
    if j < n {
      assert !EndsAllAt(cfg, es, n, u);
      var holding := Present(cfg, es, n, j);
      assert Handles(cfg, StateAt(cfg, es, n), es[n], u, sid, holding.token);
      NoSecondOpening(cfg, StateAt(cfg, es, n), es[n], u, sid, holding.token);
    } else {
      assert Handles(cfg, StateAt(cfg, es, n), es[n], u, sid, 0);
    }
  }

  lemma NoSecondOpening(cfg: Config, s: State, e: Event, u: UserId, sid: SessionId, token: Draw)
    requires Handles(cfg, s, e, u, sid, token) && Has(s, u, sid)
    ensures !Opens(cfg, s, e, u, sid)
  {
  }

  lemma {:induction false} FoundStep(cfg: Config, es: seq<Event>, n: nat, next: nat, u: UserId, sid: SessionId)
    requires next == n + 1 && n < |es| && Handles(cfg, StateAt(cfg, es, n), es[n], u, sid, 0)
    requires StateAt(cfg, es, next) == Step(cfg, StateAt(cfg, es, n), es[n])
    requires Has(StateAt(cfg, es, n), u, sid) ==> exists j: nat :: Standing(cfg, es, n, j, u, sid)
    ensures Has(StateAt(cfg, es, next), u, sid) ==> exists j: nat :: Standing(cfg, es, next, j, u, sid)
  {
    hide Step, StateAt, Lockout.LogsIn, EndsAll, Has;
    if Has(StateAt(cfg, es, next), u, sid) {
      if OpensAt(cfg, es, n, u, sid) {
        assert Standing(cfg, es, next, n, u, sid);
      } else {
        var j: nat :| Standing(cfg, es, n, j, u, sid);
        assert Standing(cfg, es, next, j, u, sid);
      }
    }
  }

  /**
   At every moment of a possible run a user has a session if and only if one of the user's logins opened it and no
   purge ended it since, and its row is the one that the events tell.
   */
  lemma {:induction false} SessionsStand(cfg: Config, es: seq<Event>, n: nat, u: UserId, sid: SessionId)
    requires n <= |es| && PossibleRun(cfg, EMPTY, es)
    ensures Has(StateAt(cfg, es, n), u, sid) ==> exists j: nat :: Standing(cfg, es, n, j, u, sid)
    ensures forall j: nat | Standing(cfg, es, n, j, u, sid) :: SessionTold(cfg, es, n, j, u, sid)
    decreases n
  {
    hide Step, Ready, Handles, SessionTold, OpensAt;
    if n == 0 {
    } else {
      var s, e := StateAt(cfg, es, n - 1), es[n - 1];
      SessionsStand(cfg, es, n - 1, u, sid);
      ReadyAt(cfg, es, n - 1);
      PrefixesArePossible(cfg, EMPTY, es, n - 1);
      StateAtNext(cfg, es, n - 1);
      forall token ensures Handles(cfg, s, e, u, sid, token) {
        StepHandlesSession(cfg, s, e, u, sid, token);
      }
      FoundStep(cfg, es, n - 1, n, u, sid);
      forall j: nat | Standing(cfg, es, n, j, u, sid) ensures SessionTold(cfg, es, n, j, u, sid) {
        if j < n - 1 { assert Standing(cfg, es, n - 1, j, u, sid); }
        StandingStep(cfg, es, n - 1, n, j, u, sid);
      }
    }
  }

  lemma ListedExactly(cfg: Config, s: State, e: Event, u: UserId)
    requires e.call == GetSessions(u)
    ensures Serve(cfg, s, e).outcome.SessionList?
    ensures forall sid ::
              (sid in Serve(cfg, s, e).outcome.sessions <==> Has(s, u, sid) && e.at < s.grants.sessions[sid].expiresAt)
              && (sid in Serve(cfg, s, e).outcome.sessions ==>
                    Serve(cfg, s, e).outcome.sessions[sid] == s.grants.sessions[sid])
  {
  }

  /**
   In any possible run the session list of a user shows a session if and only if one of the user's logins opened it,
   no purge ended it since, and that login is less than the stored lifetime ago. It shows the metadata and the
   moment of that login, and as last use the last trade in the chain of tokens that began with it.
   */
  lemma SessionsAreListedExactly(cfg: Config, es: seq<Event>, n: nat, u: UserId, sid: SessionId)
    requires n < |es| && PossibleRun(cfg, EMPTY, es) && es[n].call == GetSessions(u)
    ensures var outcome := Serve(cfg, StateAt(cfg, es, n), es[n]).outcome;
            && outcome.SessionList?
            && (sid in outcome.sessions <==>
                  exists j: nat :: Standing(cfg, es, n, j, u, sid) && es[n].at < es[j].at + cfg.refreshExpiresIn)
            && forall j: nat | Standing(cfg, es, n, j, u, sid) && sid in outcome.sessions ::
                 outcome.sessions[sid] == Session(u, es[j].call.metadata, true, Present(cfg, es, n, j).since,
                                                  es[j].at + cfg.refreshExpiresIn, es[j].at)
  {
    hide Apply, StateAt, OpensAt, EndsAllAt, Present, Backs;
    SessionsStand(cfg, es, n, u, sid);
    ListedExactly(cfg, StateAt(cfg, es, n), es[n], u);
    if Has(StateAt(cfg, es, n), u, sid) {
      var j: nat :| Standing(cfg, es, n, j, u, sid);
      assert SessionTold(cfg, es, n, j, u, sid);
    }
    forall j: nat | Standing(cfg, es, n, j, u, sid) ensures SessionTold(cfg, es, n, j, u, sid) {}
  }
}
