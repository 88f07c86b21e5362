/** What each call of the user self-service does to the whole state. */
module UserService {
  import opened Model
  import opened GrantTables
  import opened AuthService

  function AdminViewOf(u: UserId, user: User): AdminView {
    AdminView(u, user.firstName, user.lastName, user.email, user.role, user.status,
              user.isEmailVerified, user.createdAt, user.updatedAt)
  }

  function ProfileViewOf(u: UserId, user: User): ProfileView {
    ProfileView(u, user.firstName, user.lastName, user.username, user.email, user.role, user.status,
                user.isEmailVerified, user.updatedAt)
  }

  function AccountViewOf(u: UserId, user: User): AccountView {
    AccountView(u, user.firstName, user.lastName, user.email, user.role, user.status, user.isEmailVerified,
                user.updatedAt)
  }

  predicate UsernameHeldByAnother(a: Accounts, u: UserId, username: string) {
    exists v | v in a.users :: v != u && a.users[v].username == Some(username)
  }

  function Given<T>(update: Option<T>, present: T): T {
    if update.Some? then update.value else present
  }

  /** The explicit check skips an empty username; the unique index does not. */
  function UpdateProfile(s: State, u: UserId, firstName: Option<string>, lastName: Option<string>,
                         username: Option<string>): Reply
  {
    if username.Some? && username.value != "" && UsernameHeldByAnother(s.accounts, u, username.value)
    then Reply(s, Failed(UsernameAlreadyTaken))
    else if u !in s.accounts.users then Reply(s, Failed(RecordNotFound))
    else if username.Some? && UsernameHeldByAnother(s.accounts, u, username.value)
    then Reply(s, Failed(UniqueViolation))
    else
      var user := s.accounts.users[u];
      var user' := user.(firstName := Given(firstName, user.firstName), lastName := Given(lastName, user.lastName),
                         username := if username.Some? then username else user.username);
      var s1 := SetUser(s, u, user');
      Reply(DropMe(s1, u), ProfileUpdated(ProfileViewOf(u, s1.accounts.users[u])))
  }

  function MarkDeleted(s: State, u: UserId): State
    requires u in s.accounts.users
  {
    SetUser(s, u, s.accounts.users[u].(status := DELETED, deletedAt := Some(s.clock)))
      .(grants := Purge(s.grants, u))
  }

  /** Self-deletion looks at `deletedAt`. */
  function DeleteAccount(s: State, u: UserId): Reply {
    if u !in s.accounts.users then Reply(s, Failed(UserNotFound))
    else if s.accounts.users[u].deletedAt.Some? then Reply(s, Failed(AccountAlreadyDeleted))
    else Reply(DropMe(MarkDeleted(s, u), u), Done)
  }

  function LiveSessions(s: State, u: UserId): map<SessionId, Session> {
    map sid | sid in s.grants.sessions && s.grants.sessions[sid].userId == u
        && s.grants.sessions[sid].expiresAt > s.clock
      :: s.grants.sessions[sid]
  }

  function GetSessions(s: State, u: UserId): Reply {
    Reply(s, SessionList(LiveSessions(s, u)))
  }

  function RevokeSession(s: State, u: UserId, sid: SessionId): Reply {
    if sid !in s.grants.sessions then Reply(s, Failed(SessionNotFound))
    else if s.grants.sessions[sid].userId != u then Reply(s, Failed(Forbidden))
    else if s.grants.sessions[sid].isCurrent then Reply(s, Failed(CurrentSessionCannotBeRevoked))
    else Reply(s.(grants := DropSessions(s.grants, {sid})), Done)
  }
}
