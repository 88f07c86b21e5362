/** What happens to other users never shows in a user's own security state. */
module Independence {
  import opened Model
  import opened GrantTables
  import opened Requests
  import opened Interleaving
  import opened Directory
  import opened Purges
  import opened Verification
  import Resets
  import Auth = AuthService
  import Self = UserService

  // ---------------------------------------------------------------- a user's own security state

  /** The row without what profile edits may change: those depend on other users' usernames. */
  function Secure(user: User): User {
    user.(firstName := "", lastName := "", username := None, updatedAt := 0)
  }

  function VerificationsOf(o: OneTime, u: UserId): map<TokenHash, VerificationToken> {
    map h | h in o.verifications && o.verifications[h].userId == u :: o.verifications[h]
  }

  function ResetsOf(o: OneTime, u: UserId): map<TokenHash, ResetToken> {
    map h | h in o.resets && o.resets[h].userId == u :: o.resets[h]
  }

  datatype Slice = Slice(
    row: User, sessions: map<SessionId, Session>, tokens: map<TokenHash, RefreshToken>,
    verifications: map<TokenHash, VerificationToken>, resets: map<TokenHash, ResetToken>)

  function SliceOf(s: State, u: UserId): Slice
    requires u in s.accounts.users
  {
    Slice(Secure(s.accounts.users[u]), SessionsOf(s.grants, u), TokensOf(s.grants, u),
          VerificationsOf(s.oneTime, u), ResetsOf(s.oneTime, u))
  }

  // ---------------------------------------------------------------- the same, row by row

  predicate GrantsWithin(g: Grants, k: Grants, u: UserId) {
    && (forall sid | sid in g.sessions && g.sessions[sid].userId == u ::
        sid in k.sessions && k.sessions[sid] == g.sessions[sid])
    && (forall h | h in g.tokens && g.tokens[h].userId == u :: h in k.tokens && k.tokens[h] == g.tokens[h])
    && (forall j | j in g.minted && g.minted[j].id == u :: j in k.minted && k.minted[j] == g.minted[j])
  }

  predicate OneTimeWithin(o: OneTime, p: OneTime, u: UserId) {
    && (forall h | h in o.verifications && o.verifications[h].userId == u ::
          h in p.verifications && p.verifications[h] == o.verifications[h])
    && (forall h | h in o.resets && o.resets[h].userId == u :: h in p.resets && p.resets[h] == o.resets[h])
  }

  /** Two states that `u` cannot tell apart. */
  predicate Twins(s: State, t: State, u: UserId) {
    && u in s.accounts.users && u in t.accounts.users
    && Secure(s.accounts.users[u]) == Secure(t.accounts.users[u])
    && GrantsWithin(s.grants, t.grants, u) && GrantsWithin(t.grants, s.grants, u)
    && OneTimeWithin(s.oneTime, t.oneTime, u) && OneTimeWithin(t.oneTime, s.oneTime, u)
  }

  lemma TwinsHaveOneSlice(s: State, t: State, u: UserId)
    requires Twins(s, t, u)
    ensures SliceOf(s, u) == SliceOf(t, u)
  {
    assert SessionsOf(s.grants, u) == SessionsOf(t.grants, u);
    assert TokensOf(s.grants, u) == TokensOf(t.grants, u);
    assert VerificationsOf(s.oneTime, u) == VerificationsOf(t.oneTime, u);
    assert ResetsOf(s.oneTime, u) == ResetsOf(t.oneTime, u);
  }

  // ---------------------------------------------------------------- what reachable states provide

  predicate ResetsDrawn(s: State) {
    forall h | h in s.oneTime.resets :: h.preimage in s.drawn
  }

  ghost predicate World(cfg: Config, s: State) {
    && Coherent(cfg, Conc(s, map[]))
    && DirectoryOk(s)
    && VerificationsDrawn(s)
    && ResetsDrawn(s)
  }

  lemma StepKeepsResetsDrawn(cfg: Config, s: State, e: Event)
    requires ResetsDrawn(s)
    ensures ResetsDrawn(Step(cfg, s, e))
  {
    StepKeepsTime(cfg, s, e);
  }

  lemma StepKeepsWorld(cfg: Config, s: State, e: Event)
    requires World(cfg, s) && Possible(s, e)
    ensures World(cfg, Step(cfg, s, e))
  {
    CallKeepsCoherent(cfg, s, e);
    StepKeepsDirectory(cfg, s, e);
    StepKeepsDrawn(cfg, s, e);
    StepKeepsResetsDrawn(cfg, s, e);
  }

  // ---------------------------------------------------------------- calls about others

  lemma DropLeavesOthers(g: Grants, doomed: set<SessionId>, u: UserId)
    requires Matched(g) && forall sid | sid in doomed && sid in g.sessions :: g.sessions[sid].userId != u
    ensures GrantsWithin(g, DropSessions(g, doomed), u) && GrantsWithin(DropSessions(g, doomed), g, u)
  {
    TokenFacts(g);
  }

  lemma NoMoveLeavesOthers(g: Grants, u: UserId)
    ensures GrantsWithin(g, g, u)
  {
  }

  lemma MintLeavesOthers(g: Grants, jwt: RefreshJwt, u: UserId)
    requires jwt.jti !in g.minted && jwt.id != u
    ensures GrantsWithin(g, Mint(g, jwt), u) && GrantsWithin(Mint(g, jwt), g, u)
  {
  }

  lemma CreateLeavesOthers(g: Grants, metadata: SessionMetadata, sid: SessionId, jwt: RefreshJwt,
                           expiresAt: Time, now: Time, u: UserId)
    requires jwt.jti !in g.minted && jwt.id != u
    requires CreateSession(Mint(g, jwt), jwt.id, metadata, sid, jwt.jti, expiresAt, now).Some?
    ensures var k := CreateSession(Mint(g, jwt), jwt.id, metadata, sid, jwt.jti, expiresAt, now).value;
            GrantsWithin(g, k, u) && GrantsWithin(k, g, u)
  {
  }

  lemma RotateLeavesOthers(g: Grants, presented: Draw, sid: SessionId, jwt: RefreshJwt,
                           expiresAt: Time, now: Time, u: UserId)
    requires Matched(g) && jwt.jti !in g.minted && jwt.id != u
    requires Backs(g, Sha256Hex(presented), sid) && presented in g.minted && g.minted[presented].id == jwt.id
    requires Rotate(Mint(g, jwt), presented, jwt.id, sid, jwt.jti, expiresAt, now).Some?
    ensures var k := Rotate(Mint(g, jwt), presented, jwt.id, sid, jwt.jti, expiresAt, now).value;
            GrantsWithin(g, k, u) && GrantsWithin(k, g, u)
  {
    TokenFacts(g);
  }

  /** A login leaves the tables alone, mints a token and rolls back, or writes its two rows. */
  lemma LoginMovesGrants(cfg: Config, s: State, c: Call)
    requires c.Login?
    ensures var g, verdict := Apply(cfg, s, c).state.grants, Auth.CheckLogin(s, c.email, c.password);
            if !verdict.Accepted? then g == s.grants else
            var m := Mint(s.grants, RefreshJwt(c.jti, verdict.id, cfg.JwtExpiry(s.clock)));
            var written := CreateSession(m, verdict.id, c.metadata, c.sid, c.jti, cfg.StoredExpiry(s.clock), s.clock);
            g == if written.None? then m else written.value
  {
    hide CreateSession;
  }

  lemma {:induction false} LoginLeavesOthers(cfg: Config, s: State, c: Call, u: UserId)
    requires c.Login? && c.jti !in s.grants.minted
    requires Auth.FindByEmail(s.accounts, c.email) != Some(u)
    ensures GrantsWithin(s.grants, Apply(cfg, s, c).state.grants, u)
    ensures GrantsWithin(Apply(cfg, s, c).state.grants, s.grants, u)
  {
    LoginMovesGrants(cfg, s, c);
    hide Apply, GrantsWithin, Mint, CreateSession;
    var verdict := Auth.CheckLogin(s, c.email, c.password);
    if verdict.Accepted? {
      var jwt, expiresAt := RefreshJwt(c.jti, verdict.id, cfg.JwtExpiry(s.clock)), cfg.StoredExpiry(s.clock);
      if CreateSession(Mint(s.grants, jwt), verdict.id, c.metadata, c.sid, c.jti, expiresAt, s.clock).None? {
        MintLeavesOthers(s.grants, jwt, u);
      } else {
        CreateLeavesOthers(s.grants, c.metadata, c.sid, jwt, expiresAt, s.clock, u);
      }
    } else {
      NoMoveLeavesOthers(s.grants, u);
    }
  }

  lemma RefreshMovesGrants(cfg: Config, s: State, c: Call)
    requires c.Refresh?
    ensures var g, verdict := Apply(cfg, s, c).state.grants, Auth.CheckRefresh(s, c.jwt);
            if !verdict.Rotatable? then g == s.grants else
            var m := Mint(s.grants, RefreshJwt(c.jti, c.jwt.id, cfg.JwtExpiry(s.clock)));
            var traded := Rotate(m, c.jwt.jti, c.jwt.id, verdict.sessionId, c.jti, cfg.StoredExpiry(s.clock), s.clock);
            g == if traded.None? then m else traded.value
  {
    hide Rotate;
  }

  lemma {:induction false} RefreshLeavesOthers(cfg: Config, s: State, c: Call, u: UserId)
    requires c.Refresh? && Matched(s.grants) && c.jti !in s.grants.minted && c.jwt.id != u
    ensures GrantsWithin(s.grants, Apply(cfg, s, c).state.grants, u)
    ensures GrantsWithin(Apply(cfg, s, c).state.grants, s.grants, u)
  {
    RefreshMovesGrants(cfg, s, c);
    hide Apply, GrantsWithin, Mint, Rotate;
    var verdict := Auth.CheckRefresh(s, c.jwt);
    if verdict.Rotatable? {
      var jwt, expiresAt := RefreshJwt(c.jti, c.jwt.id, cfg.JwtExpiry(s.clock)), cfg.StoredExpiry(s.clock);
      if Rotate(Mint(s.grants, jwt), c.jwt.jti, c.jwt.id, verdict.sessionId, c.jti, expiresAt, s.clock).None? {
        MintLeavesOthers(s.grants, jwt, u);
      } else {
        RotateLeavesOthers(s.grants, c.jwt.jti, verdict.sessionId, jwt, expiresAt, s.clock, u);
      }
    } else {
      NoMoveLeavesOthers(s.grants, u);
    }
  }

  lemma DoomedAreTheTargets(cfg: Config, s: State, c: Call)
    ensures forall sid | sid in Doomed(cfg, s, c) && sid in s.grants.sessions ::
              Target(s, c) == Some(s.grants.sessions[sid].userId)
  {
  }

  lemma {:induction false} OthersLeaveGrants(cfg: Config, s: State, c: Call, u: UserId)
    requires Matched(s.grants) && Draws(c) !! s.grants.minted.Keys
    requires u in s.accounts.users && Target(s, c) != Some(u)
    ensures GrantsWithin(s.grants, Apply(cfg, s, c).state.grants, u)
    ensures GrantsWithin(Apply(cfg, s, c).state.grants, s.grants, u)
  {
    hide Apply;
    if c.Login? { LoginLeavesOthers(cfg, s, c, u); }
    else if c.Refresh? { RefreshLeavesOthers(cfg, s, c, u); }
    else {
      OtherCallsOnlyDrop(cfg, s, c);
      DoomedAreTheTargets(cfg, s, c);
      DropLeavesOthers(s.grants, Doomed(cfg, s, c), u);
    }
  }

  lemma {:induction false} OthersLeaveOneTime(cfg: Config, s: State, c: Call, u: UserId)
    requires u in s.accounts.users && Target(s, c) != Some(u)
    ensures OneTimeWithin(s.oneTime, Apply(cfg, s, c).state.oneTime, u)
    ensures OneTimeWithin(Apply(cfg, s, c).state.oneTime, s.oneTime, u)
  {
    if c.Signup? || c.VerifyEmail? || c.ResendVerification? {
      Resets.TokensUntouched(cfg, s, c);
    } else {
      hide Apply;
      TokensUntouched(cfg, s, c);
      if c.ForgotPassword? || c.ResetPassword? { OthersLeaveResets(cfg, s, c, u); }
      else { Resets.TokensUntouched(cfg, s, c); }
    }
  }

  lemma {:induction false} OthersLeaveResets(cfg: Config, s: State, c: Call, u: UserId)
    requires u in s.accounts.users && Target(s, c) != Some(u) && (c.ForgotPassword? || c.ResetPassword?)
    ensures OneTimeWithin(s.oneTime, s.oneTime.(resets := Apply(cfg, s, c).state.oneTime.resets), u)
    ensures OneTimeWithin(s.oneTime.(resets := Apply(cfg, s, c).state.oneTime.resets), s.oneTime, u)
  {
  }

  // ---------------------------------------------------------------- calls about the user, in twin states

  lemma CreateWithin(g: Grants, k: Grants, metadata: SessionMetadata, sid: SessionId, jwt: RefreshJwt,
                     expiresAt: Time, now: Time, u: UserId)
    requires GrantsWithin(g, k, u)
    requires CreateSession(Mint(g, jwt), u, metadata, sid, jwt.jti, expiresAt, now).Some?
    requires CreateSession(Mint(k, jwt), u, metadata, sid, jwt.jti, expiresAt, now).Some?
    ensures GrantsWithin(CreateSession(Mint(g, jwt), u, metadata, sid, jwt.jti, expiresAt, now).value,
                         CreateSession(Mint(k, jwt), u, metadata, sid, jwt.jti, expiresAt, now).value, u)
  {
  }

  lemma LoginChecksAlike(s: State, t: State, email: string, password: string, u: UserId)
    requires Twins(s, t, u) && s.clock == t.clock
    requires Auth.FindByEmail(s.accounts, email) == Auth.FindByEmail(t.accounts, email) == Some(u)
    ensures Auth.CheckLogin(s, email, password) == Auth.CheckLogin(t, email, password)
  {
    assert Auth.Barred(s.accounts.users[u], s.clock) == Auth.Barred(Secure(s.accounts.users[u]), s.clock)
        == Auth.Barred(Secure(t.accounts.users[u]), s.clock);
    assert s.accounts.users[u].password == Secure(s.accounts.users[u]).password == Secure(t.accounts.users[u]).password;
  }

  lemma {:induction false} AcceptedInTwins(cfg: Config, s: State, t: State, c: Call, u: UserId)
    requires c.Login? && Twins(s, t, u) && s.clock == t.clock
    requires Auth.CheckLogin(s, c.email, c.password) == Auth.CheckLogin(t, c.email, c.password) == Auth.Accepted(u)
    requires c.sid !in s.grants.sessions && Sha256Hex(c.jti) !in s.grants.tokens
    requires c.sid !in t.grants.sessions && Sha256Hex(c.jti) !in t.grants.tokens
    ensures Twins(Apply(cfg, s, c).state, Apply(cfg, t, c).state, u)
  {
    hide Auth.CheckLogin;
    SecureFields(s.accounts.users[u], t.accounts.users[u]);
    var jwt, expiresAt := RefreshJwt(c.jti, u, cfg.JwtExpiry(s.clock)), cfg.StoredExpiry(s.clock);
    CreateWithin(s.grants, t.grants, c.metadata, c.sid, jwt, expiresAt, s.clock, u);
    CreateWithin(t.grants, s.grants, c.metadata, c.sid, jwt, expiresAt, s.clock, u);
  }

  lemma {:induction false} RefusedInTwins(cfg: Config, s: State, t: State, c: Call, u: UserId)
    requires c.Login? && Twins(s, t, u) && s.clock == t.clock && Auth.FindByEmail(s.accounts, c.email) == Some(u)
    requires Auth.CheckLogin(s, c.email, c.password) == Auth.CheckLogin(t, c.email, c.password)
    requires !Auth.CheckLogin(s, c.email, c.password).Accepted?
    ensures Twins(Apply(cfg, s, c).state, Apply(cfg, t, c).state, u)
  {
    SecureFields(s.accounts.users[u], t.accounts.users[u]);
  }

  lemma {:induction false} LoginInTwins(cfg: Config, s: State, t: State, c: Call, u: UserId)
    requires c.Login? && Twins(s, t, u) && s.clock == t.clock
    requires Auth.FindByEmail(s.accounts, c.email) == Auth.FindByEmail(t.accounts, c.email) == Some(u)
    requires c.sid !in s.grants.sessions && Sha256Hex(c.jti) !in s.grants.tokens
    requires c.sid !in t.grants.sessions && Sha256Hex(c.jti) !in t.grants.tokens
    ensures Twins(Apply(cfg, s, c).state, Apply(cfg, t, c).state, u)
  {
    hide Apply, Twins;
    LoginChecksAlike(s, t, c.email, c.password, u);
    if Auth.CheckLogin(s, c.email, c.password).Accepted? {
      AcceptedInTwins(cfg, s, t, c, u);
    } else {
      RefusedInTwins(cfg, s, t, c, u);
    }
  }

  /** Rows with one secure part agree on every column but the profile's. */
  lemma SecureFields(a: User, b: User)
    requires Secure(a) == Secure(b)
    ensures a == b.(firstName := a.firstName, lastName := a.lastName, username := a.username, updatedAt := a.updatedAt)
  {
    assert Secure(a) == a.(firstName := "", lastName := "", username := None, updatedAt := 0);
  }

  lemma RotateWithin(g: Grants, k: Grants, presented: Draw, sid: SessionId, jwt: RefreshJwt,
                     expiresAt: Time, now: Time, u: UserId)
    requires Matched(g) && Matched(k) && GrantsWithin(g, k, u) && GrantsWithin(k, g, u)
    requires Backs(g, Sha256Hex(presented), sid) && g.tokens[Sha256Hex(presented)].userId == u
    requires Sha256Hex(jwt.jti) !in g.tokens && Sha256Hex(jwt.jti) !in k.tokens
    ensures Rotate(Mint(g, jwt), presented, u, sid, jwt.jti, expiresAt, now).Some?
    ensures Rotate(Mint(k, jwt), presented, u, sid, jwt.jti, expiresAt, now).Some?
    ensures GrantsWithin(Rotate(Mint(g, jwt), presented, u, sid, jwt.jti, expiresAt, now).value,
                         Rotate(Mint(k, jwt), presented, u, sid, jwt.jti, expiresAt, now).value, u)
  {
    TokenFacts(g);
    TokenFacts(k);
  }

  lemma RefreshChecksAlike(s: State, t: State, jwt: RefreshJwt, u: UserId)
    requires Twins(s, t, u) && s.clock == t.clock && jwt.id == u && Matched(s.grants) && Matched(t.grants)
    ensures Auth.CheckRefresh(s, jwt) == Auth.CheckRefresh(t, jwt)
  {
    TokenFacts(s.grants);
    TokenFacts(t.grants);
  }

  lemma {:induction false} RefreshInTwins(cfg: Config, s: State, t: State, c: Call, u: UserId)
    requires c.Refresh? && c.jwt.id == u && Twins(s, t, u) && s.clock == t.clock
    requires Matched(s.grants) && Matched(t.grants)
    requires Sha256Hex(c.jti) !in s.grants.tokens && Sha256Hex(c.jti) !in t.grants.tokens
    ensures Twins(Apply(cfg, s, c).state, Apply(cfg, t, c).state, u)
  {
    RefreshChecksAlike(s, t, c.jwt, u);
    TokenFacts(s.grants);
    TokenFacts(t.grants);
    var verdict := Auth.CheckRefresh(s, c.jwt);
    if verdict.Rotatable? {
      var jwt, expiresAt := RefreshJwt(c.jti, u, cfg.JwtExpiry(s.clock)), cfg.StoredExpiry(s.clock);
      RotateWithin(s.grants, t.grants, c.jwt.jti, verdict.sessionId, jwt, expiresAt, s.clock, u);
      RotateWithin(t.grants, s.grants, c.jwt.jti, verdict.sessionId, jwt, expiresAt, s.clock, u);
    }
  }

  /** The calls that may end all sessions of their target. */
  predicate MayPurge(c: Call) {
    c.Logout? || c.ResetPassword? || c.ChangePassword? || c.RevokeAllSessions? || c.DeleteAccount? || c.DeleteUser?
  }

  ghost predicate PurgedAlike(cfg: Config, s: State, t: State, c: Call, u: UserId) {
    var s', t' := Apply(cfg, s, c).state, Apply(cfg, t, c).state;
    && u in s'.accounts.users && u in t'.accounts.users
    && Secure(s'.accounts.users[u]) == Secure(t'.accounts.users[u])
    && OneTimeWithin(s'.oneTime, t'.oneTime, u) && OneTimeWithin(t'.oneTime, s'.oneTime, u)
    && PurgeTarget(cfg, s, c) == PurgeTarget(cfg, t, c)
    && PurgeTarget(cfg, s, c) in {None, Some(u)}
  }

  lemma {:induction false} ResetInTwins(cfg: Config, s: State, t: State, c: Call, u: UserId)
    requires c.ResetPassword? && Twins(s, t, u) && s.clock == t.clock && Target(s, c) == Target(t, c) == Some(u)
    ensures PurgedAlike(cfg, s, t, c, u)
  {
    SecureFields(s.accounts.users[u], t.accounts.users[u]);
  }

  lemma {:induction false} ChangeInTwins(cfg: Config, s: State, t: State, c: Call, u: UserId)
    requires c.ChangePassword? && c.userId == u && Twins(s, t, u) && s.clock == t.clock
    ensures PurgedAlike(cfg, s, t, c, u)
  {
    SecureFields(s.accounts.users[u], t.accounts.users[u]);
  }

  lemma {:induction false} EndingInTwins(cfg: Config, s: State, t: State, c: Call, u: UserId)
    requires c.Logout? || c.RevokeAllSessions?
    requires Twins(s, t, u) && s.clock == t.clock && Target(s, c) == Target(t, c) == Some(u)
    ensures PurgedAlike(cfg, s, t, c, u)
  {
    SecureFields(s.accounts.users[u], t.accounts.users[u]);
  }

  lemma {:induction false} DeletionInTwins(cfg: Config, s: State, t: State, c: Call, u: UserId)
    requires c.DeleteAccount? || c.DeleteUser?
    requires Twins(s, t, u) && s.clock == t.clock && Target(s, c) == Target(t, c) == Some(u)
    ensures PurgedAlike(cfg, s, t, c, u)
  {
    SecureFields(s.accounts.users[u], t.accounts.users[u]);
  }

  lemma PurgeOrNotInTwins(g: Grants, k: Grants, u: UserId, target: Option<UserId>)
    requires Matched(g) && Matched(k) && GrantsWithin(g, k, u) && GrantsWithin(k, g, u) && target in {None, Some(u)}
    ensures var g' := DropSessions(g, if target.Some? then SessionIdsOf(g, target.value) else {});
            var k' := DropSessions(k, if target.Some? then SessionIdsOf(k, target.value) else {});
            GrantsWithin(g', k', u) && GrantsWithin(k', g', u)
  {
    TokenFacts(g);
    TokenFacts(k);
  }

  lemma {:induction false} PurgingCallsInTwins(cfg: Config, s: State, t: State, c: Call, u: UserId)
    requires MayPurge(c) && Twins(s, t, u) && s.clock == t.clock && Matched(s.grants) && Matched(t.grants)
    requires Target(s, c) == Target(t, c) == Some(u)
    ensures Twins(Apply(cfg, s, c).state, Apply(cfg, t, c).state, u)
  {
    if c.ResetPassword? { ResetInTwins(cfg, s, t, c, u); }
    else if c.ChangePassword? { ChangeInTwins(cfg, s, t, c, u); }
    else if c.Logout? || c.RevokeAllSessions? { EndingInTwins(cfg, s, t, c, u); }
    else { DeletionInTwins(cfg, s, t, c, u); }
    PurgingCallsOnlyPurge(cfg, s, c);
    PurgingCallsOnlyPurge(cfg, t, c);
    PurgeOrNotInTwins(s.grants, t.grants, u, PurgeTarget(cfg, s, c));
  }

  lemma PurgingCallsOnlyPurge(cfg: Config, s: State, c: Call)
    requires MayPurge(c) && Matched(s.grants)
    ensures var target := PurgeTarget(cfg, s, c);
            Apply(cfg, s, c).state.grants
              == DropSessions(s.grants, if target.Some? then SessionIdsOf(s.grants, target.value) else {})
  {
    OtherCallsOnlyDrop(cfg, s, c);
  }

  lemma {:induction false} TokenCallsInTwins(cfg: Config, s: State, t: State, c: Call, u: UserId)
    requires c.VerifyEmail? || c.ResendVerification? || c.ForgotPassword?
    requires Twins(s, t, u) && s.clock == t.clock
    requires Target(s, c) == Target(t, c) == Some(u)
    requires !c.VerifyEmail? ==>
        Sha256Hex(c.raw) !in s.oneTime.verifications && Sha256Hex(c.raw) !in t.oneTime.verifications
    requires !c.VerifyEmail? ==> Sha256Hex(c.raw) !in s.oneTime.resets && Sha256Hex(c.raw) !in t.oneTime.resets
    ensures Twins(Apply(cfg, s, c).state, Apply(cfg, t, c).state, u)
  {
    SecureFields(s.accounts.users[u], t.accounts.users[u]);
  }

  lemma {:induction false} ReadsInTwins(cfg: Config, s: State, t: State, c: Call, u: UserId)
    requires c.GetMe? || c.GetSessions? || c.GetUserById?
    requires Twins(s, t, u)
    ensures Twins(Apply(cfg, s, c).state, Apply(cfg, t, c).state, u)
  {
  }

  lemma {:induction false} ProfileInTwins(cfg: Config, s: State, t: State, c: Call, u: UserId)
    requires c.UpdateProfile? && c.userId == u && Twins(s, t, u)
    ensures Twins(Apply(cfg, s, c).state, Apply(cfg, t, c).state, u)
  {
    assert Secure(Apply(cfg, s, c).state.accounts.users[u]) == Secure(s.accounts.users[u]);
    assert Secure(Apply(cfg, t, c).state.accounts.users[u]) == Secure(t.accounts.users[u]);
  }

  lemma {:induction false} AdminEditsInTwins(cfg: Config, s: State, t: State, c: Call, u: UserId)
    requires (c.UpdateUserRole? || c.UpdateUserStatus?) && c.target == u && Twins(s, t, u)
    ensures Twins(Apply(cfg, s, c).state, Apply(cfg, t, c).state, u)
  {
    SecureFields(s.accounts.users[u], t.accounts.users[u]);
  }

  lemma {:induction false} RevokeInTwins(cfg: Config, s: State, t: State, c: Call, u: UserId)
    requires c.RevokeSession? && c.userId == u && Twins(s, t, u) && Matched(s.grants) && Matched(t.grants)
    ensures Twins(Apply(cfg, s, c).state, Apply(cfg, t, c).state, u)
  {
    TokenFacts(s.grants);
    TokenFacts(t.grants);
  }

  // ---------------------------------------------------------------- the answers to the user's own calls

  /**
   An answer without what does depend on others: cached views, names (a profile update is refused when another
   account holds the username), and whether a session that is not the user's own exists.
   */
  function Blurred(c: Call, o: Outcome): Outcome {
    if c.GetMe? || c.GetUserById? || c.UpdateProfile? then Done
    else if c.RevokeSession? && o == Failed(SessionNotFound) then Failed(Forbidden)
    else if o.LoggedIn? then o.(user := o.user.(firstName := "", lastName := "", username := None))
    else if o.Updated? then o.(account := o.account.(firstName := "", lastName := ""))
    else o
  }

  predicate AnsweredAlike(cfg: Config, s: State, t: State, c: Call) {
    Blurred(c, Apply(cfg, s, c).outcome) == Blurred(c, Apply(cfg, t, c).outcome)
  }

  lemma {:induction false} LoginAnswers(cfg: Config, s: State, t: State, c: Call, u: UserId)
    requires c.Login? && Twins(s, t, u) && s.clock == t.clock
    requires Auth.FindByEmail(s.accounts, c.email) == Auth.FindByEmail(t.accounts, c.email) == Some(u)
    requires c.sid !in s.grants.sessions && Sha256Hex(c.jti) !in s.grants.tokens
    requires c.sid !in t.grants.sessions && Sha256Hex(c.jti) !in t.grants.tokens
    ensures AnsweredAlike(cfg, s, t, c)
  {
    LoginChecksAlike(s, t, c.email, c.password, u);
    SecureFields(s.accounts.users[u], t.accounts.users[u]);
  }

  lemma {:induction false} RefreshAnswers(cfg: Config, s: State, t: State, c: Call, u: UserId)
    requires c.Refresh? && c.jwt.id == u && Twins(s, t, u) && s.clock == t.clock
    requires Matched(s.grants) && Matched(t.grants)
    requires Sha256Hex(c.jti) !in s.grants.tokens && Sha256Hex(c.jti) !in t.grants.tokens
    ensures AnsweredAlike(cfg, s, t, c)
  {
    RefreshChecksAlike(s, t, c.jwt, u);
    SecureFields(s.accounts.users[u], t.accounts.users[u]);
    TokenFacts(s.grants);
    TokenFacts(t.grants);
  }

  lemma {:induction false} PurgingAnswers(cfg: Config, s: State, t: State, c: Call, u: UserId)
    requires MayPurge(c) && Twins(s, t, u) && s.clock == t.clock && Target(s, c) == Target(t, c) == Some(u)
    ensures AnsweredAlike(cfg, s, t, c)
  {
    SecureFields(s.accounts.users[u], t.accounts.users[u]);
  }

  lemma {:induction false} TokenAnswers(cfg: Config, s: State, t: State, c: Call, u: UserId)
    requires c.VerifyEmail? || c.ResendVerification? || c.ForgotPassword?
    requires Twins(s, t, u) && s.clock == t.clock && Target(s, c) == Target(t, c) == Some(u)
    requires !c.VerifyEmail? ==>
        Sha256Hex(c.raw) !in s.oneTime.verifications && Sha256Hex(c.raw) !in t.oneTime.verifications
    requires !c.VerifyEmail? ==> Sha256Hex(c.raw) !in s.oneTime.resets && Sha256Hex(c.raw) !in t.oneTime.resets
    ensures AnsweredAlike(cfg, s, t, c)
  {
    SecureFields(s.accounts.users[u], t.accounts.users[u]);
  }

  lemma {:induction false} OtherAnswers(cfg: Config, s: State, t: State, c: Call, u: UserId)
    requires c.UpdateUserRole? || c.UpdateUserStatus? || c.GetSessions? || c.RevokeSession?
    requires Twins(s, t, u) && s.clock == t.clock && Target(s, c) == Some(u)
    ensures AnsweredAlike(cfg, s, t, c)
  {
    SecureFields(s.accounts.users[u], t.accounts.users[u]);
    assert Self.LiveSessions(s, u) == Self.LiveSessions(t, u);
  }

  lemma {:induction false} AnswersInTwins(cfg: Config, s: State, t: State, c: Call, u: UserId)
    requires Twins(s, t, u) && s.clock == t.clock && Matched(s.grants) && Matched(t.grants)
    requires Target(s, c) == Target(t, c) == Some(u)
    requires FreshFor(s, t, c) && !c.Signup?
    ensures AnsweredAlike(cfg, s, t, c)
  {
    hide Apply;
    if c.Login? {
      LoginAnswers(cfg, s, t, c, u);
    } else if c.Refresh? {
      RefreshAnswers(cfg, s, t, c, u);
    } else if MayPurge(c) {
      PurgingAnswers(cfg, s, t, c, u);
    } else if c.VerifyEmail? || c.ResendVerification? || c.ForgotPassword? {
      TokenAnswers(cfg, s, t, c, u);
    } else if c.UpdateUserRole? || c.UpdateUserStatus? || c.GetSessions? || c.RevokeSession? {
      OtherAnswers(cfg, s, t, c, u);
    }
  }

  // ---------------------------------------------------------------- whole steps and runs

  /** What the call draws is in none of the tables of either state. */
  predicate FreshFor(s: State, t: State, c: Call) {
    forall n | n in Draws(c) ::
      && n !in s.grants.sessions && n !in t.grants.sessions
      && Sha256Hex(n) !in s.grants.tokens && Sha256Hex(n) !in t.grants.tokens
      && Sha256Hex(n) !in s.oneTime.verifications && Sha256Hex(n) !in t.oneTime.verifications
      && Sha256Hex(n) !in s.oneTime.resets && Sha256Hex(n) !in t.oneTime.resets
  }

  lemma TargetsAlike(cfg: Config, s: State, t: State, c: Call, u: UserId)
    requires Twins(s, t, u) && EmailsExact(s.accounts) && EmailsExact(t.accounts) && Target(s, c) == Some(u)
    ensures Target(t, c) == Some(u)
  {
    assert s.accounts.users[u].email == Secure(s.accounts.users[u]).email == t.accounts.users[u].email;
  }

  lemma FreshInTables(cfg: Config, s: State, drawn: set<Draw>)
    requires World(cfg, s) && drawn !! s.drawn
    ensures drawn !! s.grants.minted.Keys && drawn !! s.grants.sessions.Keys
    ensures forall n | n in drawn :: && Sha256Hex(n) !in s.grants.tokens
                                     && Sha256Hex(n) !in s.oneTime.verifications && Sha256Hex(n) !in s.oneTime.resets
  {
    TokenFacts(s.grants);
    forall n | n in drawn
      ensures Sha256Hex(n) !in s.grants.tokens
      ensures Sha256Hex(n) !in s.oneTime.verifications && Sha256Hex(n) !in s.oneTime.resets
    {
      assert Sha256Hex(n).preimage == n;
    }
  }

  lemma {:induction false} CallsInTwins(cfg: Config, s: State, t: State, c: Call, u: UserId)
    requires Twins(s, t, u) && s.clock == t.clock && Matched(s.grants) && Matched(t.grants)
    requires Target(s, c) == Target(t, c) == Some(u)
    requires FreshFor(s, t, c) && !c.Signup?
    ensures Twins(Apply(cfg, s, c).state, Apply(cfg, t, c).state, u)
  {
    hide Apply;
    if c.Login? { LoginInTwins(cfg, s, t, c, u); }
    else if c.Refresh? { RefreshInTwins(cfg, s, t, c, u); }
    else if MayPurge(c) { PurgingCallsInTwins(cfg, s, t, c, u); }
    else if c.VerifyEmail? || c.ResendVerification? || c.ForgotPassword? { TokenCallsInTwins(cfg, s, t, c, u); }
    else if c.UpdateProfile? { ProfileInTwins(cfg, s, t, c, u); }
    else if c.UpdateUserRole? || c.UpdateUserStatus? { AdminEditsInTwins(cfg, s, t, c, u); }
    else if c.RevokeSession? { RevokeInTwins(cfg, s, t, c, u); }
    else { ReadsInTwins(cfg, s, t, c, u); }
  }

  lemma WithinIsTransitive(s: State, s': State, t: State, u: UserId)
    requires Twins(s, t, u) && u in s'.accounts.users && s'.accounts.users[u] == s.accounts.users[u]
    requires GrantsWithin(s.grants, s'.grants, u) && GrantsWithin(s'.grants, s.grants, u)
    requires OneTimeWithin(s.oneTime, s'.oneTime, u) && OneTimeWithin(s'.oneTime, s.oneTime, u)
    ensures Twins(s', t, u)
  {
  }

  lemma {:induction false} OtherStep(cfg: Config, s: State, t: State, e: Event, u: UserId)
    requires World(cfg, s) && Possible(s, e) && Twins(s, t, u) && Target(Arrive(s, e), e.call) != Some(u)
    ensures Twins(Step(cfg, s, e), t, u)
  {
    var s1 := Arrive(s, e);
    FreshInTables(cfg, s, Draws(e.call));
    OthersLeaveGrants(cfg, s1, e.call, u);
    OthersLeaveOneTime(cfg, s1, e.call, u);
    OnlyTheTargetChanges(cfg, s1, e.call);
    assert Target(s1, e.call) != Some(u) ==> u in Step(cfg, s, e).accounts.users;
    WithinIsTransitive(s, Step(cfg, s, e), t, u);
  }

  lemma {:induction false} OwnStep(cfg: Config, s: State, t: State, e: Event, u: UserId)
    requires World(cfg, s) && World(cfg, t) && Possible(s, e) && Possible(t, e) && Twins(s, t, u)
    requires Target(Arrive(s, e), e.call) == Some(u)
    ensures Twins(Step(cfg, s, e), Step(cfg, t, e), u)
    ensures Blurred(e.call, Serve(cfg, s, e).outcome) == Blurred(e.call, Serve(cfg, t, e).outcome)
  {
    var s1, t1 := Arrive(s, e), Arrive(t, e);
    FreshInTables(cfg, s, Draws(e.call));
    FreshInTables(cfg, t, Draws(e.call));
    TargetsAlike(cfg, s1, t1, e.call, u);
    if !e.call.Signup? {
      CallsInTwins(cfg, s1, t1, e.call, u);
      AnswersInTwins(cfg, s1, t1, e.call, u);
    }
  }

  /** The run without the events that are about other users. */
  function OnlyAbout(cfg: Config, s: State, es: seq<Event>, u: UserId): seq<Event>
    decreases |es|
  {
    if es == [] then []
    else (if Target(Arrive(s, es[0]), es[0].call) == Some(u) then [es[0]] else [])
         + OnlyAbout(cfg, Step(cfg, s, es[0]), es[1..], u)
  }

  /** The answers to the events of a run. */
  function Answers(cfg: Config, s: State, es: seq<Event>): seq<Outcome>
    decreases |es|
  {
    if es == [] then []
    else [Blurred(es[0].call, Serve(cfg, s, es[0]).outcome)] + Answers(cfg, Step(cfg, s, es[0]), es[1..])
  }

  /** The answers to those that are about `u`. */
  function OwnAnswers(cfg: Config, s: State, es: seq<Event>, u: UserId): seq<Outcome>
    decreases |es|
  {
    if es == [] then []
    else (if Target(Arrive(s, es[0]), es[0].call) == Some(u)
        then [Blurred(es[0].call, Serve(cfg, s, es[0]).outcome)] else [])
         + OwnAnswers(cfg, Step(cfg, s, es[0]), es[1..], u)
  }

  lemma {:induction false} TwinRuns(cfg: Config, s: State, t: State, es: seq<Event>, u: UserId)
    requires World(cfg, s) && World(cfg, t) && Twins(s, t, u) && t.clock <= s.clock && t.drawn <= s.drawn
    requires PossibleRun(cfg, s, es)
    ensures PossibleRun(cfg, t, OnlyAbout(cfg, s, es, u))
    ensures Twins(Run(cfg, s, es), Run(cfg, t, OnlyAbout(cfg, s, es, u)), u)
    ensures OwnAnswers(cfg, s, es, u) == Answers(cfg, t, OnlyAbout(cfg, s, es, u))
    decreases |es|
  {
    hide Apply, Twins, World, Blurred, Target;
    if es == [] {
    } else {
      var e, s' := es[0], Step(cfg, s, es[0]);
      var rest := OnlyAbout(cfg, s', es[1..], u);
      StepKeepsWorld(cfg, s, e);
      StepKeepsTime(cfg, s, e);
      if Target(Arrive(s, e), e.call) == Some(u) {
        OwnStep(cfg, s, t, e, u);
        StepKeepsWorld(cfg, t, e);
        StepKeepsTime(cfg, t, e);
        assert OnlyAbout(cfg, s, es, u) == [e] + rest && ([e] + rest)[1..] == rest;
        TwinRuns(cfg, s', Step(cfg, t, e), es[1..], u);
      } else {
        OtherStep(cfg, s, t, e, u);
        assert OnlyAbout(cfg, s, es, u) == rest;
        TwinRuns(cfg, s', t, es[1..], u);
      }
    }
  }

  /**
   For a user already in the store, striking out of any run every event that is about somebody else is
   again a possible run, leaves the user's row, sessions, refresh tokens and one-time tokens exactly as the full
   run does, and answers the user's own logins, rotations, resets and other calls the same.
   */
  lemma OthersDoNotMatter(cfg: Config, s: State, es: seq<Event>, u: UserId)
    requires World(cfg, s) && u in s.accounts.users && PossibleRun(cfg, s, es)
    ensures var own := OnlyAbout(cfg, s, es, u);
            && PossibleRun(cfg, s, own)
            && u in Run(cfg, s, es).accounts.users && u in Run(cfg, s, own).accounts.users
            && SliceOf(Run(cfg, s, es), u) == SliceOf(Run(cfg, s, own), u)
            && OwnAnswers(cfg, s, es, u) == Answers(cfg, s, own)
  {
    TwinRuns(cfg, s, s, es, u);
    TwinsHaveOneSlice(Run(cfg, s, es), Run(cfg, s, OnlyAbout(cfg, s, es, u)), u);
  }
}
