/**
 What each call of the authentication service does to the whole state, as a function of the state it
 starts in. `s.clock` is the moment of the call; fresh random values are arguments.
 */
module AuthService {
  import opened Model
  import opened GrantTables

  function FindByEmail(a: Accounts, email: string): Option<UserId> {
    if email in a.emails && a.emails[email] in a.users then Some(a.emails[email]) else None
  }

  /** `prisma.user.update`; `@updatedAt` stamps the row. */
  function SetUser(s: State, u: UserId, user: User): State {
    s.(accounts := s.accounts.(users := s.accounts.users[u := user.(updatedAt := s.clock)]))
  }

  function DropMe(s: State, u: UserId): State {
    s.(cache := s.cache.(me := s.cache.me - {u}))
  }

  function NewUser(firstName: string, lastName: string, email: string, password: string, now: Time): User {
    User(firstName, lastName, None, email, Bcrypt(password), USER, PENDING_VERIFICATION, false,
         None, None, 0, None, None, now, now)
  }

  function Signup(s: State, firstName: string, lastName: string, email: string, password: string,
                  uid: UserId, raw: Draw): Reply
  {
    if email in s.accounts.emails then Reply(s, Failed(UserAlreadyExists))
    else if uid in s.accounts.users || Sha256Hex(raw) in s.oneTime.verifications then Reply(s, Failed(UniqueViolation))
    else
      var accounts := Accounts(
        s.accounts.users[uid := NewUser(firstName, lastName, email, password, s.clock)],
        s.accounts.emails[email := uid],
        [uid] + s.accounts.newestFirst);
      var verifications := s.oneTime.verifications[Sha256Hex(raw) := VerificationToken(uid, s.clock + ONE_TIME_TTL)];
      Reply(s.(accounts := accounts, oneTime := s.oneTime.(verifications := verifications)), Done)
  }

  // ---------------------------------------------------------------- login

  /** The status and lock checks that login and the authentication gate share. */
  function Barred(user: User, now: Time): Option<Error> {
    if user.status == DELETED then Some(AccountDeleted)
    else if user.status == SUSPENDED then Some(AccountSuspended)
    else if user.status == BANNED then Some(AccountBanned)
    else if user.lockUntil.Some? && user.lockUntil.value > now then Some(AccountLocked)
    else None
  }

  datatype LoginVerdict = LoginRefused(error: Error) | WrongPassword(id: UserId) | Accepted(id: UserId)

  /** Everything login reads before it writes. */
  function CheckLogin(s: State, email: string, password: string): LoginVerdict {
    match FindByEmail(s.accounts, email)
    case None => LoginRefused(InvalidCredentials)
    case Some(u) =>
      var user := s.accounts.users[u];
      match Barred(user, s.clock)
      case Some(error) => LoginRefused(error)
      case None => if ComparePassword(password, user.password) then Accepted(u) else WrongPassword(u)
  }

  /** Count the failure, and lock the account once the count reaches the limit. */
  function CountFailure(cfg: Config, user: User, now: Time): User {
    var n := user.failedLoginAttempts + 1;
    if n >= cfg.maxFailedLogin then user.(failedLoginAttempts := n, lockUntil := Some(now + cfg.LockMs()))
    else user.(failedLoginAttempts := n)
  }

  function FailLogin(cfg: Config, s: State, u: UserId): Reply
    requires u in s.accounts.users
  {
    var user := CountFailure(cfg, s.accounts.users[u], s.clock);
    Reply(SetUser(s, u, user),
          Failed(if user.failedLoginAttempts >= cfg.maxFailedLogin then AccountLocked else InvalidCredentials))
  }

  /** `generateAccessToken`: the claims come from the row as it was read. */
  function AccessFor(u: UserId, user: User): AccessClaims {
    AccessClaims(u, user.email, user.role)
  }

  function LoginViewOf(u: UserId, user: User): LoginView {
    LoginView(u, user.email, user.firstName, user.lastName, user.username, user.role)
  }

  function MintFor(cfg: Config, s: State, u: UserId, jti: Draw): State {
    s.(grants := Mint(s.grants, RefreshJwt(jti, u, cfg.JwtExpiry(s.clock))))
  }

  /** Login's transaction: the session, its refresh token, and a cleared failure count. */
  function CommitLogin(s: State, u: UserId, metadata: SessionMetadata, sid: SessionId,
                       jti: Draw, expiresAt: Time, checkedAt: Time): Option<State>
  {
    match CreateSession(s.grants, u, metadata, sid, jti, expiresAt, s.clock)
    case None => None
    case Some(g) =>
      if u !in s.accounts.users then None else
      var user := s.accounts.users[u].(failedLoginAttempts := 0, lockUntil := None, lastLoginAt := Some(checkedAt));
      Some(SetUser(s.(grants := g), u, user))
  }

  function Login(cfg: Config, s: State, email: string, password: string, metadata: SessionMetadata,
                 sid: SessionId, jti: Draw): Reply
  {
    match CheckLogin(s, email, password)
    case LoginRefused(error) => Reply(s, Failed(error))
    case WrongPassword(u) => FailLogin(cfg, s, u)
    case Accepted(u) =>
      var s1, user := MintFor(cfg, s, u, jti), s.accounts.users[u];
      match CommitLogin(s1, u, metadata, sid, jti, cfg.StoredExpiry(s.clock), s.clock)
      case None => Reply(s1, Failed(UniqueViolation))
      case Some(s2) => Reply(s2, LoggedIn(LoginViewOf(u, user), AccessFor(u, user), s1.grants.minted[jti]))
  }

  // ---------------------------------------------------------------- logout and rotation

  /** An absent or unverifiable token is ignored. */
  function LogoutCall(s: State, token: Option<RefreshJwt>): Reply {
    if token.None? || !VerifyRefresh(s.grants, token.value, s.clock) then Reply(s, Done)
    else Reply(DropMe(s.(grants := Logout(s.grants, token.value)), token.value.id), Done)
  }

  datatype RefreshVerdict = RefreshRefused(error: Error) | Rotatable(sessionId: SessionId)

  /** Everything rotation reads before it writes. */
  function CheckRefresh(s: State, token: RefreshJwt): RefreshVerdict {
    var h := Sha256Hex(token.jti);
    if !VerifyRefresh(s.grants, token, s.clock) then RefreshRefused(JwtInvalid)
    else if h !in s.grants.tokens then RefreshRefused(RefreshTokenInvalid)
    else if s.grants.tokens[h].expiresAt < s.clock then RefreshRefused(RefreshTokenInvalid)
    else if token.id !in s.accounts.users then RefreshRefused(UserNotFound)
    else Rotatable(s.grants.tokens[h].sessionId)
  }

  function CommitRefresh(s: State, presented: Draw, u: UserId, sid: SessionId,
                         jti: Draw, expiresAt: Time): Option<State>
  {
    match Rotate(s.grants, presented, u, sid, jti, expiresAt, s.clock)
    case None => None
    case Some(g) => Some(s.(grants := g))
  }

  function Refresh(cfg: Config, s: State, token: RefreshJwt, jti: Draw): Reply {
    match CheckRefresh(s, token)
    case RefreshRefused(error) => Reply(s, Failed(error))
    case Rotatable(sid) =>
      var s1 := MintFor(cfg, s, token.id, jti);
      match CommitRefresh(s1, token.jti, token.id, sid, jti, cfg.StoredExpiry(s.clock))
      case None => Reply(s1, Failed(RecordNotFound))
      case Some(s2) => Reply(s2, Rotated(AccessFor(token.id, s.accounts.users[token.id]), s1.grants.minted[jti]))
  }

  // ---------------------------------------------------------------- one-time tokens

  /** `findUnique` with `include: user`: the row, when it is there and its user is. */
  function FindVerification(s: State, raw: Draw): Option<VerificationToken> {
    var h := Sha256Hex(raw);
    if h in s.oneTime.verifications && s.oneTime.verifications[h].userId in s.accounts.users
    then Some(s.oneTime.verifications[h]) else None
  }

  function VerifyEmail(s: State, raw: Draw): Reply {
    match FindVerification(s, raw)
    case None => Reply(s, Failed(InvalidToken))
    case Some(row) =>
      var user := s.accounts.users[row.userId];
      if row.expiresAt < s.clock then Reply(s, Failed(TokenExpired))
      else if user.isEmailVerified then Reply(s, Failed(EmailAlreadyVerified))
      else
        var s1 := SetUser(s, row.userId, user.(isEmailVerified := true, status := ACTIVE));
        Reply(s1.(oneTime := s.oneTime.(verifications := s.oneTime.verifications - {Sha256Hex(raw)})), Done)
  }

  function WithoutVerifications(o: OneTime, u: UserId): OneTime {
    o.(verifications := map h | h in o.verifications && o.verifications[h].userId != u :: o.verifications[h])
  }

  /** Two statements without a transaction: when the create throws, the deletion stays. */
  function ResendVerification(s: State, u: UserId, raw: Draw): Reply {
    if u !in s.accounts.users then Reply(s, Failed(UserNotFound))
    else if s.accounts.users[u].isEmailVerified then Reply(s, Failed(EmailAlreadyVerified))
    else
      var o := WithoutVerifications(s.oneTime, u);
      if Sha256Hex(raw) in o.verifications then Reply(s.(oneTime := o), Failed(UniqueViolation))
      else
        var row := VerificationToken(u, s.clock + ONE_TIME_TTL);
        Reply(s.(oneTime := o.(verifications := o.verifications[Sha256Hex(raw) := row])), Done)
  }

  function WithoutUnusedResets(o: OneTime, u: UserId): OneTime {
    o.(resets := map h | h in o.resets && !(o.resets[h].userId == u && o.resets[h].usedAt.None?) :: o.resets[h])
  }

  function ForgotPassword(s: State, email: string, raw: Draw): Reply {
    match FindByEmail(s.accounts, email)
    case None => Reply(s, Done)
    case Some(u) =>
      var o := WithoutUnusedResets(s.oneTime, u);
      if Sha256Hex(raw) in o.resets then Reply(s.(oneTime := o), Failed(UniqueViolation))
      else
        var row := ResetToken(u, s.clock + ONE_TIME_TTL, None);
        Reply(s.(oneTime := o.(resets := o.resets[Sha256Hex(raw) := row])), Done)
  }

  function FindReset(s: State, raw: Draw): Option<ResetToken> {
    var h := Sha256Hex(raw);
    if h in s.oneTime.resets && s.oneTime.resets[h].userId in s.accounts.users
    then Some(s.oneTime.resets[h]) else None
  }

  function ResetPassword(s: State, raw: Draw, newPassword: string): Reply {
    match FindReset(s, raw)
    case None => Reply(s, Failed(InvalidToken))
    case Some(row) =>
      var user := s.accounts.users[row.userId];
      if row.usedAt.Some? then Reply(s, Failed(InvalidToken))
      else if row.expiresAt < s.clock then Reply(s, Failed(TokenExpired))
      else if ComparePassword(newPassword, user.password) then Reply(s, Failed(SamePassword))
      else
        var s1 := SetUser(s, row.userId, user.(password := Bcrypt(newPassword), passwordChangedAt := Some(s.clock)));
        var resets := s.oneTime.resets[Sha256Hex(raw) := row.(usedAt := Some(s.clock))];
        Reply(DropMe(s1.(oneTime := s.oneTime.(resets := resets), grants := Purge(s.grants, row.userId)), row.userId),
              Done)
  }

  // ---------------------------------------------------------------- the signed-in user's own calls

  function ChangePassword(s: State, u: UserId, currentPassword: string, newPassword: string): Reply {
    if u !in s.accounts.users then Reply(s, Failed(UserNotFound)) else
    var user := s.accounts.users[u];
    if !ComparePassword(currentPassword, user.password) then Reply(s, Failed(CurrentPasswordIncorrect))
    else if ComparePassword(newPassword, user.password) then Reply(s, Failed(SamePassword))
    else
      var s1 := SetUser(s, u, user.(password := Bcrypt(newPassword)));
      Reply(DropMe(s1.(grants := Purge(s.grants, u)), u), Done)
  }

  function MeQuery(a: Accounts, u: UserId): Option<MeView> {
    if u !in a.users then None else
    var user := a.users[u];
    Some(MeView(u, user.firstName, user.lastName, user.username, user.email, user.role,
                user.isEmailVerified, user.createdAt, user.updatedAt, user.lastLoginAt))
  }

  /** A Redis key answers until its time to live has run out. */
  predicate Live<K, V>(m: map<K, Cached<V>>, k: K, now: Time) {
    k in m && now < m[k].expiresAt
  }

  function GetMe(s: State, u: UserId): Reply {
    if Live(s.cache.me, u, s.clock) then Reply(s, Me(s.cache.me[u].value, true))
    else
      match MeQuery(s.accounts, u)
      case None => Reply(s, Failed(UserNotFound))
      case Some(view) =>
        var me := s.cache.me[u := Cached(view, s.clock + CACHE_TTL)];
        Reply(s.(cache := s.cache.(me := me)), Me(view, false))
  }

  function RevokeAllSessions(s: State, u: UserId): Reply {
    Reply(DropMe(s.(grants := Purge(s.grants, u)), u), Done)
  }
}
