/** The user table: which row a call may touch, and what the unique keys and the listing order keep. */
module Directory {
  import opened Model
  import opened Requests
  import Auth = AuthService

  /** The one user a call is about. */
  function Target(s: State, c: Call): Option<UserId> {
    match c
    case Signup(_, _, _, _, uid, _) => Some(uid)
    case Login(email, _, _, _, _) => Auth.FindByEmail(s.accounts, email)
    case Logout(token) => if token.Some? then Some(token.value.id) else None
    case Refresh(jwt, _) => Some(jwt.id)
    case VerifyEmail(raw) =>
      var row := Auth.FindVerification(s, raw);
      if row.Some? then Some(row.value.userId) else None
    case ForgotPassword(email, _) => Auth.FindByEmail(s.accounts, email)
    case ResetPassword(raw, _) =>
      var row := Auth.FindReset(s, raw);
      if row.Some? then Some(row.value.userId) else None
    case GetAllUsers(_, _) => None
    case FlushCache => None
    case GetUserById(u) => Some(u)
    case UpdateUserRole(u, _) => Some(u)
    case UpdateUserStatus(u, _) => Some(u)
    case DeleteUser(u) => Some(u)
    case _ => Some(c.userId)
  }

  predicate Registers(cfg: Config, s: State, c: Call) {
    c.Signup? && Apply(cfg, s, c).outcome == Done
  }

  /** No call removes a user, and only a signup adds one. */
  lemma UsersOnlyJoin(cfg: Config, s: State, c: Call)
    ensures Apply(cfg, s, c).state.accounts.users.Keys
            == s.accounts.users.Keys + (if Registers(cfg, s, c) then {c.uid} else {})
  {
  }

  /** Only the row of the call's target can change. */
  lemma OnlyTheTargetChanges(cfg: Config, s: State, c: Call)
    ensures forall v | v in s.accounts.users && Target(s, c) != Some(v) ::
              && v in Apply(cfg, s, c).state.accounts.users
              && Apply(cfg, s, c).state.accounts.users[v] == s.accounts.users[v]
  {
  }

  /** Outside signup the unique index, the listing and the set of users stand still. */
  lemma FixedTables(cfg: Config, s: State, c: Call)
    requires !c.Signup?
    ensures var a' := Apply(cfg, s, c).state.accounts;
            && a'.emails == s.accounts.emails && a'.newestFirst == s.accounts.newestFirst
            && a'.users.Keys == s.accounts.users.Keys
  {
  }

  lemma FixedColumnsOf(cfg: Config, s: State, c: Call, u: UserId)
    requires u in s.accounts.users
    ensures u in Apply(cfg, s, c).state.accounts.users
    ensures Apply(cfg, s, c).state.accounts.users[u].email == s.accounts.users[u].email
    ensures Apply(cfg, s, c).state.accounts.users[u].createdAt == s.accounts.users[u].createdAt
  {
  }

  /** Nobody's email and creation time ever change. */
  lemma FixedColumns(cfg: Config, s: State, c: Call)
    ensures forall v | v in s.accounts.users ::
              && v in Apply(cfg, s, c).state.accounts.users
              && Apply(cfg, s, c).state.accounts.users[v].email == s.accounts.users[v].email
              && Apply(cfg, s, c).state.accounts.users[v].createdAt == s.accounts.users[v].createdAt
  {
    hide Apply;
    forall v | v in s.accounts.users { FixedColumnsOf(cfg, s, c, v); }
  }

  /** A new account starts out as signup makes it. */
  lemma NewcomersComeFromSignup(cfg: Config, s: State, c: Call, u: UserId)
    requires u !in s.accounts.users && u in Apply(cfg, s, c).state.accounts.users
    ensures c.Signup? && c.uid == u
    ensures Apply(cfg, s, c).state.accounts.users[u]
            == User(c.firstName, c.lastName, None, c.email, Bcrypt(c.password), USER, PENDING_VERIFICATION, false,
                    None, None, 0, None, None, s.clock, s.clock)
  {
  }

  /** Only a role update writes a role. */
  lemma RoleColumn(cfg: Config, s: State, c: Call, u: UserId)
    requires u in s.accounts.users && !(c.UpdateUserRole? && c.target == u)
    ensures u in Apply(cfg, s, c).state.accounts.users
    ensures Apply(cfg, s, c).state.accounts.users[u].role == s.accounts.users[u].role
  {
  }

  /** Only a profile update writes the names. */
  lemma NameColumns(cfg: Config, s: State, c: Call, u: UserId)
    requires u in s.accounts.users && !(c.UpdateProfile? && c.userId == u)
    ensures var users := Apply(cfg, s, c).state.accounts.users;
            && u in users
            && users[u].firstName == s.accounts.users[u].firstName && users[u].lastName == s.accounts.users[u].lastName
            && users[u].username == s.accounts.users[u].username
  {
  }

  ghost predicate EmailsExact(a: Accounts) {
    && (forall u | u in a.users :: a.users[u].email in a.emails && a.emails[a.users[u].email] == u)
    && (forall e | e in a.emails :: a.emails[e] in a.users && a.users[a.emails[e]].email == e)
  }

  ghost predicate UsernamesUnique(a: Accounts) {
    forall u, v | u in a.users && v in a.users && a.users[u].username.Some?
        && a.users[u].username == a.users[v].username
      :: u == v
  }

  /** `newestFirst` lists every user once, latest `createdAt` first. */
  ghost predicate ListingExact(a: Accounts) {
    && (forall u | u in a.newestFirst :: u in a.users)
    && (forall u | u in a.users :: u in a.newestFirst)
    && (forall i, j | 0 <= i < j < |a.newestFirst| ::
          a.newestFirst[i] != a.newestFirst[j]
          && a.users[a.newestFirst[j]].createdAt <= a.users[a.newestFirst[i]].createdAt)
  }

  ghost predicate DirectoryOk(s: State) {
    && EmailsExact(s.accounts)
    && UsernamesUnique(s.accounts)
    && ListingExact(s.accounts)
    && s.accounts.users.Keys <= s.drawn
    && forall u | u in s.accounts.users :: s.accounts.users[u].createdAt <= s.clock
  }

  lemma UsernamesStayUnique(cfg: Config, s: State, c: Call)
    requires UsernamesUnique(s.accounts)
    ensures UsernamesUnique(Apply(cfg, s, c).state.accounts)
  {
    var a, a' := s.accounts, Apply(cfg, s, c).state.accounts;
    forall u, v | u in a'.users && v in a'.users && a'.users[u].username.Some?
        && a'.users[u].username == a'.users[v].username
      ensures u == v
    {
      if !c.UpdateProfile? {
        UsernamesKept(cfg, s, c);
      }
    }
  }

  lemma UsernamesKept(cfg: Config, s: State, c: Call)
    requires !c.UpdateProfile?
    ensures var a' := Apply(cfg, s, c).state.accounts;
            forall v | v in a'.users ::
              a'.users[v].username == if v in s.accounts.users then s.accounts.users[v].username else None
  {
    hide Apply;
    forall v | v in Apply(cfg, s, c).state.accounts.users
      ensures Apply(cfg, s, c).state.accounts.users[v].username
              == if v in s.accounts.users then s.accounts.users[v].username else None
    {
      if v in s.accounts.users { NameColumns(cfg, s, c, v); } else { NewcomersComeFromSignup(cfg, s, c, v); }
    }
  }

  lemma NewestIsListedFirst(a: Accounts, a': Accounts, uid: UserId, user: User)
    requires EmailsExact(a) && ListingExact(a) && uid !in a.users && user.email !in a.emails
    requires forall u | u in a.users :: a.users[u].createdAt <= user.createdAt
    requires a' == Accounts(a.users[uid := user], a.emails[user.email := uid], [uid] + a.newestFirst)
    ensures EmailsExact(a') && ListingExact(a')
  {
    forall i, j | 0 <= i < j < |a'.newestFirst|
      ensures a'.newestFirst[i] != a'.newestFirst[j]
              && a'.users[a'.newestFirst[j]].createdAt <= a'.users[a'.newestFirst[i]].createdAt
    {
      assert a'.newestFirst[j] == a.newestFirst[j - 1] && a.newestFirst[j - 1] in a.users;
      if i > 0 {
        assert a'.newestFirst[i] == a.newestFirst[i - 1] && a.newestFirst[i - 1] in a.users;
      }
    }
  }

  lemma SignupKeepsDirectory(cfg: Config, s: State, c: Call)
    requires c.Signup? && EmailsExact(s.accounts) && ListingExact(s.accounts)
    requires forall u | u in s.accounts.users :: s.accounts.users[u].createdAt <= s.clock
    ensures EmailsExact(Apply(cfg, s, c).state.accounts)
    ensures ListingExact(Apply(cfg, s, c).state.accounts)
  {
    var a, a' := s.accounts, Apply(cfg, s, c).state.accounts;
    if Registers(cfg, s, c) {
      NewestIsListedFirst(a, a', c.uid, Auth.NewUser(c.firstName, c.lastName, c.email, c.password, s.clock));
    }
  }

  lemma OtherCallsKeepDirectory(a: Accounts, a': Accounts)
    requires EmailsExact(a) && ListingExact(a)
    requires a'.emails == a.emails && a'.newestFirst == a.newestFirst && a'.users.Keys == a.users.Keys
    requires forall v | v in a.users ::
        a'.users[v].email == a.users[v].email && a'.users[v].createdAt == a.users[v].createdAt
    ensures EmailsExact(a') && ListingExact(a')
  {
  }

  lemma CreatedInThePast(cfg: Config, s: State, c: Call)
    requires forall u | u in s.accounts.users :: s.accounts.users[u].createdAt <= s.clock
    ensures var s' := Apply(cfg, s, c).state;
            forall u | u in s'.accounts.users :: s'.accounts.users[u].createdAt <= s.clock
  {
    if !c.Signup? {
      FixedTables(cfg, s, c);
      FixedColumns(cfg, s, c);
    }
  }

  lemma {:induction false} StepKeepsDirectory(cfg: Config, s: State, e: Event)
    requires DirectoryOk(s) && Possible(s, e)
    ensures DirectoryOk(Step(cfg, s, e))
  {
    hide Apply;
    var s1 := Arrive(s, e);
    UsernamesStayUnique(cfg, s1, e.call);
    CreatedInThePast(cfg, s1, e.call);
    StepKeepsTime(cfg, s, e);
    UsersOnlyJoin(cfg, s1, e.call);
    if e.call.Signup? {
      SignupKeepsDirectory(cfg, s1, e.call);
    } else {
      FixedTables(cfg, s1, e.call);
      FixedColumns(cfg, s1, e.call);
      OtherCallsKeepDirectory(s.accounts, Step(cfg, s, e).accounts);
    }
  }

  lemma {:induction false} RunKeepsDirectory(cfg: Config, s: State, es: seq<Event>)
    requires DirectoryOk(s) && PossibleRun(cfg, s, es)
    ensures DirectoryOk(Run(cfg, s, es))
    decreases |es|
  {
    hide Apply, DirectoryOk;
    if es == [] {
    } else {
      StepKeepsDirectory(cfg, s, es[0]);
      RunKeepsDirectory(cfg, Step(cfg, s, es[0]), es[1..]);
    }
  }
}
