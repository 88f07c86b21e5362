/** The tables, the Redis map, the signed tokens and the settings that the services work on. */
module Model {

  datatype Option<+T> = None | Some(value: T)

  /** A moment or a duration, in milliseconds. */
  type Time = int

  /** One output of the random generators (cuid, UUID, 32 random bytes). Draws are only ever compared. */
  type Draw = nat
  type UserId = Draw
  type SessionId = Draw

  /** SHA-256, idealised as injective. */
  datatype TokenHash = Sha256Hex(preimage: Draw)

  /** Bcrypt, idealised: a hash verifies exactly the password it was made from. */
  datatype PasswordHash = Bcrypt(password: string)

  predicate ComparePassword(password: string, hash: PasswordHash) {
    password == hash.password
  }

  datatype Role = USER | ADMIN
  datatype Status = ACTIVE | PENDING_VERIFICATION | SUSPENDED | BANNED | DELETED

  /** The statuses that the admin validator lets through. */
  type SettableStatus = s: Status | s in {ACTIVE, SUSPENDED, BANNED} witness ACTIVE

  datatype User = User(
    firstName: string, lastName: string, username: Option<string>, email: string,
    password: PasswordHash, role: Role, status: Status, isEmailVerified: bool,
    lastLoginAt: Option<Time>, passwordChangedAt: Option<Time>,
    failedLoginAttempts: nat, lockUntil: Option<Time>, deletedAt: Option<Time>,
    createdAt: Time, updatedAt: Time)

  datatype SessionMetadata = SessionMetadata(
    ipAddress: Option<string>, userAgent: Option<string>,
    browser: Option<string>, os: Option<string>, device: Option<string>)

  datatype Session = Session(
    userId: UserId, metadata: SessionMetadata, isCurrent: bool,
    lastUsedAt: Time, expiresAt: Time, createdAt: Time)

  datatype RefreshToken = RefreshToken(userId: UserId, sessionId: SessionId, expiresAt: Time, createdAt: Time)
  datatype VerificationToken = VerificationToken(userId: UserId, expiresAt: Time)
  datatype ResetToken = ResetToken(userId: UserId, expiresAt: Time, usedAt: Option<Time>)

  /** The claims of a refresh JWT; `exp` is in whole seconds (sections 4.1.4 and 4.1.7 of RFC 7519). */
  datatype RefreshJwt = RefreshJwt(jti: Draw, id: UserId, exp: int)

  /** The user table with its unique index on email, and its rows in the order of the admin listing. */
  datatype Accounts = Accounts(
    users: map<UserId, User>, emails: map<string, UserId>, newestFirst: seq<UserId>)

  /** The session and refresh token tables, and every refresh JWT the server has signed, by `jti`. */
  datatype Grants = Grants(
    sessions: map<SessionId, Session>, tokens: map<TokenHash, RefreshToken>, minted: map<Draw, RefreshJwt>)

  datatype OneTime = OneTime(
    verifications: map<TokenHash, VerificationToken>, resets: map<TokenHash, ResetToken>)

  datatype MeView = MeView(
    id: UserId, firstName: string, lastName: string, username: Option<string>, email: string, role: Role,
    isEmailVerified: bool, createdAt: Time, updatedAt: Time, lastLoginAt: Option<Time>)

  datatype AdminView = AdminView(
    id: UserId, firstName: string, lastName: string, email: string, role: Role, status: Status,
    isEmailVerified: bool, createdAt: Time, updatedAt: Time)

  /** What login answers about its user, and the claims that it puts into the access token. */
  datatype LoginView = LoginView(
    id: UserId, email: string, firstName: string, lastName: string, username: Option<string>, role: Role)
  datatype AccessClaims = AccessClaims(id: UserId, email: string, role: Role)

  /** The answers of a profile update, and of an admin's role or status update. */
  datatype ProfileView = ProfileView(
    id: UserId, firstName: string, lastName: string, username: Option<string>, email: string, role: Role,
    status: Status, isEmailVerified: bool, updatedAt: Time)
  datatype AccountView = AccountView(
    id: UserId, firstName: string, lastName: string, email: string, role: Role, status: Status,
    isEmailVerified: bool, updatedAt: Time)

  datatype PageView = PageView(
    users: seq<AdminView>, page: int, limit: int,
    totalUsers: nat, totalPages: int, hasNextPage: bool, hasPreviousPage: bool)

  /** What the controller's clamping lets through. */
  type PageNumber = n: int | n >= 1 witness 1
  type PageLimit = n: int | 1 <= n <= 100 witness 1

  datatype PageKey = PageKey(page: PageNumber, limit: PageLimit)
  datatype Cached<T> = Cached(value: T, expiresAt: Time)

  /** The key families `user:<id>`, `admin:user:<id>` and `admin:users:<page>:<limit>`. */
  datatype Cache = Cache(
    me: map<UserId, Cached<MeView>>, admin: map<UserId, Cached<AdminView>>, pages: map<PageKey, Cached<PageView>>)

  /** `drawn` holds every random value handed out so far; no service reads it. */
  datatype State = State(
    clock: Time, drawn: set<Draw>, accounts: Accounts, grants: Grants, oneTime: OneTime, cache: Cache)

  const EMPTY := State(0, {}, Accounts(map[], map[], []), Grants(map[], map[], map[]),
                       OneTime(map[], map[]), Cache(map[], map[], map[]))

  /** `refreshExpiresIn` is one setting that the source reads in two units. */
  datatype Config = Config(maxFailedLogin: int, lockMinutes: int, refreshExpiresIn: int) {
    function LockMs(): Time { lockMinutes * 60 * 1000 }

    /** `new Date(Date.now() + env.JWT_REFRESH_EXPIRES_IN)`: the setting as milliseconds. */
    function StoredExpiry(now: Time): Time { now + refreshExpiresIn }

    /** The `exp` that `jwt.sign` computes: the setting as seconds after a truncated `iat`. */
    function JwtExpiry(now: Time): int { Seconds(now) + refreshExpiresIn }
  }

  const CACHE_TTL: Time := 60 * 5 * 1000
  const ONE_TIME_TTL: Time := 15 * 60 * 1000

  function Seconds(t: Time): int { t / 1000 }

  datatype Error =
    | UserAlreadyExists | InvalidCredentials | AccountDeleted | AccountSuspended | AccountBanned | AccountLocked
    | JwtInvalid | RefreshTokenInvalid | UserNotFound | InvalidToken | TokenExpired | EmailAlreadyVerified
    | SamePassword | CurrentPasswordIncorrect | UsernameAlreadyTaken | AccountAlreadyDeleted | UserAlreadyDeleted
    | SessionNotFound | Forbidden | CurrentSessionCannotBeRevoked | RoleAlreadyAssigned | StatusAlreadyAssigned
    | AccessTokenInvalid
    | UniqueViolation  // Prisma P2002
    | RecordNotFound   // Prisma P2025

  datatype Outcome =
    | Failed(error: Error)
    | Done
    | LoggedIn(user: LoginView, access: AccessClaims, refresh: RefreshJwt)
    | Rotated(access: AccessClaims, refresh: RefreshJwt)
    | Me(me: MeView, cached: bool)
    | AdminUser(admin: AdminView, cached: bool)
    | UserPage(page: PageView, cached: bool)
    | SessionList(sessions: map<SessionId, Session>)
    | ProfileUpdated(profile: ProfileView)
    | Updated(account: AccountView)

  datatype Reply = Reply(state: State, outcome: Outcome)
}
