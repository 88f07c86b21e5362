/**
 The services at work on the tables and the Redis map, statement by statement. Each method reads, checks and
 writes in the order of its service, undoes its own writes when its transaction throws, and leaves exactly
 the state that the function of the same name describes.
 */
module Store {
  import opened Model
  import opened Requests
  import opened Invariants
  import Grants = GrantTables
  import Auth = AuthService
  import Self = UserService
  import Admin = AdminService
  import Gate = Lifecycle

  class IdentityStore {
    const cfg: Config
    var clock: Time
    ghost var drawn: set<Draw>

    // PostgreSQL
    var users: map<UserId, User>
    var emails: map<string, UserId>
    var newestFirst: seq<UserId>
    var sessions: map<SessionId, Session>
    var refreshTokens: map<TokenHash, RefreshToken>
    var verifications: map<TokenHash, VerificationToken>
    var resets: map<TokenHash, ResetToken>

    // The refresh JWTs whose signature verifies
    var minted: map<Draw, RefreshJwt>

    // Redis
    var meCache: map<UserId, Cached<MeView>>
    var adminCache: map<UserId, Cached<AdminView>>
    var pageCache: map<PageKey, Cached<PageView>>

    ghost function View(): State
      reads this
    {
      State(clock, drawn, Accounts(users, emails, newestFirst), Model.Grants(sessions, refreshTokens, minted),
            OneTime(verifications, resets), Cache(meCache, adminCache, pageCache))
    }

    constructor (cfg: Config)
      ensures this.cfg == cfg && View() == EMPTY && Sound(cfg, View())
    {
      this.cfg := cfg;
      clock, drawn := 0, {};
      users, emails, newestFirst := map[], map[], [];
      sessions, refreshTokens, verifications, resets := map[], map[], map[], map[];
      minted := map[];
      meCache, adminCache, pageCache := map[], map[], map[];
      new;
      EmptyIsSound(cfg);
    }

    // -------------------------------------------------------------- statements

    method UpdateUser(u: UserId, user: User)
      modifies this`users
      ensures users == old(users)[u := user.(updatedAt := clock)]
    {
      users := users[u := user.(updatedAt := clock)];
    }

    /** `session.deleteMany`; the foreign key takes the sessions' tokens along. */
    method DeleteSessions(u: UserId)
      modifies this`sessions, this`refreshTokens
      ensures Model.Grants(sessions, refreshTokens, minted)
              == Grants.DropSessions(old(View()).grants, Grants.SessionIdsOf(old(View()).grants, u))
    {
      var doomed := set sid | sid in sessions && sessions[sid].userId == u;
      sessions := sessions - doomed;
      refreshTokens := map h | h in refreshTokens && refreshTokens[h].sessionId !in doomed :: refreshTokens[h];
    }

    /** The two deletions at the end of five transactions. */
    method DeleteTokensAndSessions(u: UserId)
      modifies this`sessions, this`refreshTokens
      ensures Model.Grants(sessions, refreshTokens, minted) == Grants.Purge(old(View()).grants, u)
    {
      refreshTokens := map h | h in refreshTokens && refreshTokens[h].userId != u :: refreshTokens[h];
      DeleteSessions(u);
    }

    // -------------------------------------------------------------- authentication

    method Signup(firstName: string, lastName: string, email: string, password: string, uid: UserId, raw: Draw)
      returns (o: Outcome)
      modifies this
      ensures Reply(View(), o) == Auth.Signup(old(View()), firstName, lastName, email, password, uid, raw)
    {
      if email in emails { return Failed(UserAlreadyExists); }
      var before := users;
      if uid in users { return Failed(UniqueViolation); }
      users := users[uid := Auth.NewUser(firstName, lastName, email, password, clock)];
      if Sha256Hex(raw) in verifications {
        users := before;
        return Failed(UniqueViolation);
      }
      emails := emails[email := uid];
      newestFirst := [uid] + newestFirst;
      verifications := verifications[Sha256Hex(raw) := VerificationToken(uid, clock + ONE_TIME_TTL)];
      return Done;
    }

    method Login(email: string, password: string, metadata: SessionMetadata, sid: SessionId, jti: Draw)
      returns (o: Outcome)
      modifies this
      ensures Reply(View(), o) == Auth.Login(cfg, old(View()), email, password, metadata, sid, jti)
    {
      if email !in emails || emails[email] !in users { return Failed(InvalidCredentials); }
      var u := emails[email];
      var user := users[u];
      if user.status == DELETED { return Failed(AccountDeleted); }
      if user.status == SUSPENDED { return Failed(AccountSuspended); }
      if user.status == BANNED { return Failed(AccountBanned); }
      if user.lockUntil.Some? && user.lockUntil.value > clock { return Failed(AccountLocked); }

      if !ComparePassword(password, user.password) {
        o := CountFailure(u);
        return;
      }

      var jwt := RefreshJwt(jti, u, cfg.JwtExpiry(clock));
      minted := minted[jti := jwt];
      var committed := CommitLogin(u, metadata, sid, jti, cfg.StoredExpiry(clock));
      if !committed { return Failed(UniqueViolation); }
      return LoggedIn(LoginView(u, user.email, user.firstName, user.lastName, user.username, user.role),
                      AccessClaims(u, user.email, user.role), jwt);
    }

    /** Two updates: the incremented count, then the lock when the returned row is at the limit. */
    method CountFailure(u: UserId) returns (o: Outcome)
      requires u in users
      modifies this`users
      ensures Reply(View(), o) == Auth.FailLogin(cfg, old(View()), u)
    {
      UpdateUser(u, users[u].(failedLoginAttempts := users[u].failedLoginAttempts + 1));
      if users[u].failedLoginAttempts >= cfg.maxFailedLogin {
        UpdateUser(u, users[u].(lockUntil := Some(clock + cfg.LockMs())));
        return Failed(AccountLocked);
      }
      return Failed(InvalidCredentials);
    }

    /** Login's transaction, rolled back as a whole when a unique key is taken. */
    method CommitLogin(u: UserId, metadata: SessionMetadata, sid: SessionId, jti: Draw, expiresAt: Time)
      returns (committed: bool)
      requires u in users
      modifies this`users, this`sessions, this`refreshTokens
      ensures var next := Auth.CommitLogin(old(View()), u, metadata, sid, jti, expiresAt, clock);
              committed == next.Some? && View() == if committed then next.value else old(View())
    {
      var before := sessions;
      if sid in sessions { return false; }
      sessions := sessions[sid := Session(u, metadata, true, clock, expiresAt, clock)];
      if Sha256Hex(jti) in refreshTokens {
        sessions := before;
        return false;
      }
      refreshTokens := refreshTokens[Sha256Hex(jti) := RefreshToken(u, sid, expiresAt, clock)];
      UpdateUser(u, users[u].(failedLoginAttempts := 0, lockUntil := None, lastLoginAt := Some(clock)));
      return true;
    }

    method Logout(token: Option<RefreshJwt>) returns (o: Outcome)
      modifies this
      ensures Reply(View(), o) == Auth.LogoutCall(old(View()), token)
    {
      if token.None? { return Done; }
      var jwt := token.value;
      if !(jwt.jti in minted && minted[jwt.jti] == jwt && Seconds(clock) < jwt.exp) { return Done; }
      refreshTokens := refreshTokens - {Sha256Hex(jwt.jti)};
      DeleteSessions(jwt.id);
      meCache := meCache - {jwt.id};
      return Done;
    }

    method Refresh(jwt: RefreshJwt, jti: Draw) returns (o: Outcome)
      modifies this
      ensures Reply(View(), o) == Auth.Refresh(cfg, old(View()), jwt, jti)
    {
      if !(jwt.jti in minted && minted[jwt.jti] == jwt && Seconds(clock) < jwt.exp) { return Failed(JwtInvalid); }
      var h := Sha256Hex(jwt.jti);
      if h !in refreshTokens { return Failed(RefreshTokenInvalid); }
      var stored := refreshTokens[h];
      if stored.expiresAt < clock { return Failed(RefreshTokenInvalid); }
      if jwt.id !in users { return Failed(UserNotFound); }

      var access := AccessClaims(jwt.id, users[jwt.id].email, users[jwt.id].role);
      var next := RefreshJwt(jti, jwt.id, cfg.JwtExpiry(clock));
      minted := minted[jti := next];
      var before := refreshTokens;
      refreshTokens := refreshTokens - {h};
      if Sha256Hex(jti) in refreshTokens || stored.sessionId !in sessions {
        refreshTokens := before;
        return Failed(RecordNotFound);
      }
      var row := RefreshToken(jwt.id, stored.sessionId, cfg.StoredExpiry(clock), clock);
      refreshTokens := refreshTokens[Sha256Hex(jti) := row];
      sessions := sessions[stored.sessionId := sessions[stored.sessionId].(lastUsedAt := clock)];
      return Rotated(access, next);
    }

    method VerifyEmail(raw: Draw) returns (o: Outcome)
      modifies this
      ensures Reply(View(), o) == Auth.VerifyEmail(old(View()), raw)
    {
      var h := Sha256Hex(raw);
      if h !in verifications || verifications[h].userId !in users { return Failed(InvalidToken); }
      var row := verifications[h];
      var user := users[row.userId];
      if row.expiresAt < clock { return Failed(TokenExpired); }
      if user.isEmailVerified { return Failed(EmailAlreadyVerified); }
      UpdateUser(row.userId, user.(isEmailVerified := true, status := ACTIVE));
      verifications := verifications - {h};
      return Done;
    }

    method ResendVerification(u: UserId, raw: Draw) returns (o: Outcome)
      modifies this
      ensures Reply(View(), o) == Auth.ResendVerification(old(View()), u, raw)
    {
      if u !in users { return Failed(UserNotFound); }
      if users[u].isEmailVerified { return Failed(EmailAlreadyVerified); }
      verifications := map h | h in verifications && verifications[h].userId != u :: verifications[h];
      if Sha256Hex(raw) in verifications { return Failed(UniqueViolation); }
      verifications := verifications[Sha256Hex(raw) := VerificationToken(u, clock + ONE_TIME_TTL)];
      return Done;
    }

    method ForgotPassword(email: string, raw: Draw) returns (o: Outcome)
      modifies this
      ensures Reply(View(), o) == Auth.ForgotPassword(old(View()), email, raw)
    {
      if email !in emails || emails[email] !in users { return Done; }
      var u := emails[email];
      resets := map h | h in resets && !(resets[h].userId == u && resets[h].usedAt.None?) :: resets[h];
      if Sha256Hex(raw) in resets { return Failed(UniqueViolation); }
      resets := resets[Sha256Hex(raw) := ResetToken(u, clock + ONE_TIME_TTL, None)];
      return Done;
    }

    method ResetPassword(raw: Draw, newPassword: string) returns (o: Outcome)
      modifies this
      ensures Reply(View(), o) == Auth.ResetPassword(old(View()), raw, newPassword)
    {
      var h := Sha256Hex(raw);
      if h !in resets || resets[h].userId !in users { return Failed(InvalidToken); }
      var row := resets[h];
      if row.usedAt.Some? { return Failed(InvalidToken); }
      if row.expiresAt < clock { return Failed(TokenExpired); }
      var user := users[row.userId];
      if ComparePassword(newPassword, user.password) { return Failed(SamePassword); }
      UpdateUser(row.userId, user.(password := Bcrypt(newPassword), passwordChangedAt := Some(clock)));
      resets := resets[h := row.(usedAt := Some(clock))];
      DeleteTokensAndSessions(row.userId);
      meCache := meCache - {row.userId};
      return Done;
    }

    method ChangePassword(u: UserId, currentPassword: string, newPassword: string) returns (o: Outcome)
      modifies this
      ensures Reply(View(), o) == Auth.ChangePassword(old(View()), u, currentPassword, newPassword)
    {
      if u !in users { return Failed(UserNotFound); }
      var user := users[u];
      if !ComparePassword(currentPassword, user.password) { return Failed(CurrentPasswordIncorrect); }
      if ComparePassword(newPassword, user.password) { return Failed(SamePassword); }
      UpdateUser(u, user.(password := Bcrypt(newPassword)));
      DeleteTokensAndSessions(u);
      meCache := meCache - {u};
      return Done;
    }

    method GetMe(u: UserId) returns (o: Outcome)
      modifies this`meCache
      ensures Reply(View(), o) == Auth.GetMe(old(View()), u)
    {
      if u in meCache && clock < meCache[u].expiresAt { return Me(meCache[u].value, true); }
      if u !in users { return Failed(UserNotFound); }
      var user := users[u];
      var view := MeView(u, user.firstName, user.lastName, user.username, user.email, user.role,
                         user.isEmailVerified, user.createdAt, user.updatedAt, user.lastLoginAt);
      meCache := meCache[u := Cached(view, clock + CACHE_TTL)];
      return Me(view, false);
    }

    method RevokeAllSessions(u: UserId) returns (o: Outcome)
      modifies this
      ensures Reply(View(), o) == Auth.RevokeAllSessions(old(View()), u)
    {
      DeleteTokensAndSessions(u);
      meCache := meCache - {u};
      return Done;
    }

    // -------------------------------------------------------------- self-service

    method UpdateProfile(u: UserId, firstName: Option<string>, lastName: Option<string>, username: Option<string>)
      returns (o: Outcome)
      modifies this
      ensures Reply(View(), o) == Self.UpdateProfile(old(View()), u, firstName, lastName, username)
    {
      if username.Some? && username.value != "" && (exists v | v in users :: v != u && users[v].username == username) {
        return Failed(UsernameAlreadyTaken);
      }
      if u !in users { return Failed(RecordNotFound); }
      if username.Some? && (exists v | v in users :: v != u && users[v].username == username) {
        return Failed(UniqueViolation);
      }
      var user := users[u];
      if firstName.Some? { user := user.(firstName := firstName.value); }
      if lastName.Some? { user := user.(lastName := lastName.value); }
      if username.Some? { user := user.(username := username); }
      UpdateUser(u, user);
      meCache := meCache - {u};
      return ProfileUpdated(Self.ProfileViewOf(u, users[u]));
    }

    /** The deletion transaction. */
    method MarkDeleted(u: UserId)
      requires u in users
      modifies this`users, this`sessions, this`refreshTokens
      ensures View() == Self.MarkDeleted(old(View()), u)
    {
      UpdateUser(u, users[u].(status := DELETED, deletedAt := Some(clock)));
      DeleteTokensAndSessions(u);
    }

    method DeleteAccount(u: UserId) returns (o: Outcome)
      modifies this
      ensures Reply(View(), o) == Self.DeleteAccount(old(View()), u)
    {
      if u !in users { return Failed(UserNotFound); }
      if users[u].deletedAt.Some? { return Failed(AccountAlreadyDeleted); }
      MarkDeleted(u);
      meCache := meCache - {u};
      return Done;
    }

    method GetSessions(u: UserId) returns (o: Outcome)
      ensures Reply(View(), o) == Self.GetSessions(old(View()), u)
    {
      return SessionList(map sid | sid in sessions && sessions[sid].userId == u && sessions[sid].expiresAt > clock
                           :: sessions[sid]);
    }

    method RevokeSession(u: UserId, sid: SessionId) returns (o: Outcome)
      modifies this
      ensures Reply(View(), o) == Self.RevokeSession(old(View()), u, sid)
    {
      if sid !in sessions { return Failed(SessionNotFound); }
      if sessions[sid].userId != u { return Failed(Forbidden); }
      if sessions[sid].isCurrent { return Failed(CurrentSessionCannotBeRevoked); }
      sessions := sessions - {sid};
      refreshTokens := map h | h in refreshTokens && refreshTokens[h].sessionId != sid :: refreshTokens[h];
      return Done;
    }

    // -------------------------------------------------------------- administration

    method GetAllUsers(page: PageNumber, limit: PageLimit) returns (o: Outcome)
      modifies this`pageCache
      ensures Reply(View(), o) == Admin.GetAllUsers(old(View()), page, limit)
    {
      var key := PageKey(page, limit);
      if key in pageCache && clock < pageCache[key].expiresAt { return UserPage(pageCache[key].value, true); }
      var view := Admin.PageQuery(Accounts(users, emails, newestFirst), page, limit);
      pageCache := pageCache[key := Cached(view, clock + CACHE_TTL)];
      return UserPage(view, false);
    }

    method GetUserById(u: UserId) returns (o: Outcome)
      modifies this`adminCache
      ensures Reply(View(), o) == Admin.GetUserById(old(View()), u)
    {
      if u in adminCache && clock < adminCache[u].expiresAt { return AdminUser(adminCache[u].value, true); }
      if u !in users { return Failed(UserNotFound); }
      var view := Self.AdminViewOf(u, users[u]);
      adminCache := adminCache[u := Cached(view, clock + CACHE_TTL)];
      return AdminUser(view, false);
    }

    method UpdateUserRole(u: UserId, role: Role) returns (o: Outcome)
      modifies this
      ensures Reply(View(), o) == Admin.UpdateUserRole(old(View()), u, role)
    {
      if u !in users { return Failed(UserNotFound); }
      if users[u].role == role { return Failed(RoleAlreadyAssigned); }
      UpdateUser(u, users[u].(role := role));
      adminCache, pageCache := adminCache - {u}, map[];
      return Updated(Self.AccountViewOf(u, users[u]));
    }

    method UpdateUserStatus(u: UserId, status: SettableStatus) returns (o: Outcome)
      modifies this
      ensures Reply(View(), o) == Admin.UpdateUserStatus(old(View()), u, status)
    {
      if u !in users { return Failed(UserNotFound); }
      if users[u].status == status { return Failed(StatusAlreadyAssigned); }
      UpdateUser(u, users[u].(status := status));
      adminCache, pageCache := adminCache - {u}, map[];
      return Updated(Self.AccountViewOf(u, users[u]));
    }

    method DeleteUser(u: UserId) returns (o: Outcome)
      modifies this
      ensures Reply(View(), o) == Admin.DeleteUser(old(View()), u)
    {
      if u !in users { return Failed(UserNotFound); }
      if users[u].status == DELETED { return Failed(UserAlreadyDeleted); }
      MarkDeleted(u);
      meCache := meCache - {u};
      adminCache, pageCache := adminCache - {u}, map[];
      return Done;
    }

    method FlushCache() returns (o: Outcome)
      modifies this
      ensures View() == old(View()).(cache := Cache(map[], map[], map[])) && o == Done
    {
      meCache, adminCache, pageCache := map[], map[], map[];
      return Done;
    }

    // -------------------------------------------------------------- one whole request

    method DispatchOneTime(c: Call) returns (o: Outcome)
      requires c.Signup? || c.VerifyEmail? || c.ResendVerification? || c.ForgotPassword? || c.ResetPassword?
      modifies this
      ensures Reply(View(), o) == Apply(cfg, old(View()), c)
    {
      hide Auth.Signup, Auth.VerifyEmail, Auth.ResendVerification, Auth.ForgotPassword, Auth.ResetPassword;
      match c {
        case Signup(firstName, lastName, email, password, uid, raw) =>
          o := Signup(firstName, lastName, email, password, uid, raw);
        case VerifyEmail(raw) => o := VerifyEmail(raw);
        case ResendVerification(u, raw) => o := ResendVerification(u, raw);
        case ForgotPassword(email, raw) => o := ForgotPassword(email, raw);
        case ResetPassword(raw, newPassword) => o := ResetPassword(raw, newPassword);
      }
    }

    method DispatchSession(c: Call) returns (o: Outcome)
      requires c.Login? || c.Logout? || c.Refresh? || c.ChangePassword? || c.GetMe? || c.RevokeAllSessions?
      modifies this
      ensures Reply(View(), o) == Apply(cfg, old(View()), c)
    {
      hide Auth.Login, Auth.LogoutCall, Auth.Refresh, Auth.ChangePassword, Auth.GetMe, Auth.RevokeAllSessions;
      match c {
        case Login(email, password, metadata, sid, jti) => o := Login(email, password, metadata, sid, jti);
        case Logout(token) => o := Logout(token);
        case Refresh(jwt, jti) => o := Refresh(jwt, jti);
        case ChangePassword(u, current, new') => o := ChangePassword(u, current, new');
        case GetMe(u) => o := GetMe(u);
        case RevokeAllSessions(u) => o := RevokeAllSessions(u);
      }
    }

    method DispatchSelf(c: Call) returns (o: Outcome)
      requires c.UpdateProfile? || c.DeleteAccount? || c.GetSessions? || c.RevokeSession?
      modifies this
      ensures Reply(View(), o) == Apply(cfg, old(View()), c)
    {
      hide Self.UpdateProfile, Self.DeleteAccount, Self.GetSessions, Self.RevokeSession;
      match c {
        case UpdateProfile(u, f, l, n) => o := UpdateProfile(u, f, l, n);
        case DeleteAccount(u) => o := DeleteAccount(u);
        case GetSessions(u) => o := GetSessions(u);
        case RevokeSession(u, sid) => o := RevokeSession(u, sid);
      }
    }

    method DispatchListing(c: Call) returns (o: Outcome)
      requires c.GetAllUsers? || c.GetUserById? || c.FlushCache?
      modifies this
      ensures Reply(View(), o) == Apply(cfg, old(View()), c)
    {
      hide Admin.GetAllUsers, Admin.GetUserById;
      match c {
        case GetAllUsers(page, limit) => o := GetAllUsers(page, limit);
        case GetUserById(u) => o := GetUserById(u);
        case FlushCache => o := FlushCache();
      }
    }

    method DispatchAdmin(c: Call) returns (o: Outcome)
      requires c.UpdateUserRole? || c.UpdateUserStatus? || c.DeleteUser?
      modifies this
      ensures Reply(View(), o) == Apply(cfg, old(View()), c)
    {
      hide Admin.UpdateUserRole, Admin.UpdateUserStatus, Admin.DeleteUser;
      match c {
        case UpdateUserRole(u, role) => o := UpdateUserRole(u, role);
        case UpdateUserStatus(u, status) => o := UpdateUserStatus(u, status);
        case DeleteUser(u) => o := DeleteUser(u);
      }
    }

    method Dispatch(c: Call) returns (o: Outcome)
      modifies this
      ensures Reply(View(), o) == Apply(cfg, old(View()), c)
    {
      hide Apply;
      if c.Signup? || c.VerifyEmail? || c.ResendVerification? || c.ForgotPassword? || c.ResetPassword? {
        o := DispatchOneTime(c);
      } else if c.Login? || c.Logout? || c.Refresh? || c.ChangePassword? || c.GetMe? || c.RevokeAllSessions? {
        o := DispatchSession(c);
      } else if c.UpdateProfile? || c.DeleteAccount? || c.GetSessions? || c.RevokeSession? {
        o := DispatchSelf(c);
      } else if c.GetAllUsers? || c.GetUserById? || c.FlushCache? {
        o := DispatchListing(c);
      } else {
        o := DispatchAdmin(c);
      }
    }

    /** Every invariant holds before and after every request, and the request did what its function says. */
    method Serve(e: Event) returns (o: Outcome)
      requires Sound(cfg, View()) && Possible(View(), e)
      modifies this
      ensures Reply(View(), o) == Requests.Serve(cfg, old(View()), e)
      ensures Sound(cfg, View())
    {
      StepKeepsSound(cfg, View(), e);
      clock := e.at;
      drawn := drawn + Draws(e.call);
      o := Dispatch(e.call);
    }

    // -------------------------------------------------------------- the gate in front

    /** Refuses, or lets the owner of the token through. */
    method AuthenticateUser(token: Option<UserId>) returns (refusal: Option<Error>)
      ensures refusal == if token.Some? then Gate.Authenticate(View(), token.value) else Some(AccessTokenInvalid)
      ensures refusal.None? <==> token.Some? && token.value in users && !Gate.Blocked(View(), token.value, clock)
    {
      if token.None? || token.value !in users { return Some(AccessTokenInvalid); }
      var user := users[token.value];
      if user.status == DELETED { return Some(AccountDeleted); }
      if user.status == SUSPENDED { return Some(AccountSuspended); }
      if user.status == BANNED { return Some(AccountBanned); }
      if user.lockUntil.Some? && user.lockUntil.value > clock { return Some(AccountLocked); }
      return None;
    }

    method AuthenticateAdmin(id: UserId) returns (refusal: Option<Error>)
      ensures refusal == Gate.AuthenticateAdmin(View(), id)
      ensures refusal.None? <==> Gate.IsAdmin(View(), id)
    {
      if id !in users { return Some(UserNotFound); }
      if users[id].role != ADMIN { return Some(Forbidden); }
      return None;
    }

    /** A request with its middlewares. The invariants survive a refusal, too. */
    method Receive(h: Gate.Http) returns (o: Outcome)
      requires Sound(cfg, View()) && Possible(View(), Event(h.at, h.call))
      modifies this
      ensures Reply(View(), o) == Gate.Handle(cfg, old(View()), h)
      ensures Sound(cfg, View())
    {
      hide Apply, Sound;
      var route := Gate.RouteOf(h.call);
      if route.Public? {
        o := Serve(Event(h.at, h.call));
        return;
      }
      ghost var before := View();
      StepKeepsSound(cfg, before, Event(h.at, h.call));
      ArriveKeepsSound(cfg, before, Event(h.at, h.call));
      clock := h.at;
      drawn := drawn + Draws(h.call);
      assert View() == Arrive(before, Event(h.at, h.call));
      var refusal := AuthenticateUser(h.token);
      if refusal.Some? { return Failed(refusal.value); }
      if route.AdminOnly? {
        refusal := AuthenticateAdmin(h.token.value);
        if refusal.Some? { return Failed(refusal.value); }
      }
      o := Dispatch(h.call);
    }
  }
}
