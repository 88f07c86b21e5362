/** What the answers show about an account, field by field, told from the events of the run before them. */
module Answers {
  import opened Model
  import opened GrantTables
  import opened Requests
  import opened Chronicle
  import opened Outcomes
  import opened Invariants
  import Auth = AuthService
  import Self = UserService
  import Admin = AdminService
  import Caching
  import Directory
  import Lockout
  import Pagination
  import Redemption

  // ---------------------------------------------------------------- what a view has to show before event `n`

  ghost predicate NamesTold(cfg: Config, es: seq<Event>, n: nat, u: UserId, firstName: string, lastName: string,
                            email: string)
    requires n <= |es|
  {
    && Owner(cfg, es, n, u, email)
    && Latest(Firsts(cfg, es, u), n) == Some(firstName) && Latest(Lasts(cfg, es, u), n) == Some(lastName)
  }

  predicate FlagTold(cfg: Config, es: seq<Event>, n: nat, u: UserId, isEmailVerified: bool)
    requires n <= |es|
  {
    isEmailVerified <==> Latest(Verifyings(cfg, es, u), n).Some?
  }

  ghost predicate MeTold(cfg: Config, es: seq<Event>, n: nat, view: MeView)
    requires n <= |es|
  {
    && NamesTold(cfg, es, n, view.id, view.firstName, view.lastName, view.email)
    && Latest(Usernames(cfg, es, view.id), n) == view.username
    && Latest(Roles(cfg, es, view.id), n) == Some(view.role)
    && FlagTold(cfg, es, n, view.id, view.isEmailVerified)
    && Latest(Joining(cfg, es, view.id), n) == Some(view.createdAt)
    && Latest(Touching(cfg, es, view.id), n) == Some(view.updatedAt)
    && Latest(Logins(cfg, es, view.id), n) == view.lastLoginAt
  }

  ghost predicate AdminTold(cfg: Config, es: seq<Event>, n: nat, view: AdminView)
    requires n <= |es|
  {
    && NamesTold(cfg, es, n, view.id, view.firstName, view.lastName, view.email)
    && Latest(Roles(cfg, es, view.id), n) == Some(view.role)
    && Latest(Statuses(cfg, es, view.id), n) == Some(view.status)
    && FlagTold(cfg, es, n, view.id, view.isEmailVerified)
    && Latest(Joining(cfg, es, view.id), n) == Some(view.createdAt)
    && Latest(Touching(cfg, es, view.id), n) == Some(view.updatedAt)
  }

  ghost predicate ProfileTold(cfg: Config, es: seq<Event>, n: nat, view: ProfileView)
    requires n <= |es|
  {
    && NamesTold(cfg, es, n, view.id, view.firstName, view.lastName, view.email)
    && Latest(Usernames(cfg, es, view.id), n) == view.username
    && Latest(Roles(cfg, es, view.id), n) == Some(view.role)
    && Latest(Statuses(cfg, es, view.id), n) == Some(view.status)
    && FlagTold(cfg, es, n, view.id, view.isEmailVerified)
    && Latest(Touching(cfg, es, view.id), n) == Some(view.updatedAt)
  }

  ghost predicate AccountTold(cfg: Config, es: seq<Event>, n: nat, view: AccountView)
    requires n <= |es|
  {
    && NamesTold(cfg, es, n, view.id, view.firstName, view.lastName, view.email)
    && Latest(Roles(cfg, es, view.id), n) == Some(view.role)
    && Latest(Statuses(cfg, es, view.id), n) == Some(view.status)
    && FlagTold(cfg, es, n, view.id, view.isEmailVerified)
    && Latest(Touching(cfg, es, view.id), n) == Some(view.updatedAt)
  }

  ghost predicate AccessTold(cfg: Config, es: seq<Event>, n: nat, access: AccessClaims)
    requires n <= |es|
  {
    Owner(cfg, es, n, access.id, access.email) && Latest(Roles(cfg, es, access.id), n) == Some(access.role)
  }

  ghost predicate LoginTold(cfg: Config, es: seq<Event>, n: nat, view: LoginView)
    requires n <= |es|
  {
    && NamesTold(cfg, es, n, view.id, view.firstName, view.lastName, view.email)
    && Latest(Usernames(cfg, es, view.id), n) == view.username
    && Latest(Roles(cfg, es, view.id), n) == Some(view.role)
  }

  // ---------------------------------------------------------------- every view of a row tells it

  /** The row of `u` as the events before `n` tell it, with the email that its signup gave. */
  ghost predicate RowTold(cfg: Config, es: seq<Event>, n: nat, u: UserId, r: User)
    requires n <= |es|
  {
    && NamesTold(cfg, es, n, u, r.firstName, r.lastName, r.email)
    && Latest(Usernames(cfg, es, u), n) == r.username
    && Latest(Roles(cfg, es, u), n) == Some(r.role)
    && Latest(Statuses(cfg, es, u), n) == Some(r.status)
    && FlagTold(cfg, es, n, u, r.isEmailVerified)
    && Latest(Joining(cfg, es, u), n) == Some(r.createdAt)
    && Latest(Touching(cfg, es, u), n) == Some(r.updatedAt)
    && Latest(Logins(cfg, es, u), n) == r.lastLoginAt
  }

  lemma RowsAreTold(cfg: Config, es: seq<Event>, n: nat, u: UserId)
    requires n <= |es| && PossibleRun(cfg, EMPTY, es) && u in StateAt(cfg, es, n).accounts.users
    ensures RowTold(cfg, es, n, u, StateAt(cfg, es, n).accounts.users[u])
  {
    hide StateAt, Latest, PossibleRun, Owner;
    RowsAreAsTold(cfg, es, n, u);
    HoldersAreOwners(cfg, es, n, u, StateAt(cfg, es, n).accounts.users[u].email);
  }

  lemma ViewsTell(cfg: Config, es: seq<Event>, n: nat, u: UserId, r: User)
    requires n <= |es| && RowTold(cfg, es, n, u, r)
    ensures forall a: Accounts | u in a.users && a.users[u] == r :: MeTold(cfg, es, n, Auth.MeQuery(a, u).value)
    ensures AdminTold(cfg, es, n, Self.AdminViewOf(u, r))
    ensures ProfileTold(cfg, es, n, Self.ProfileViewOf(u, r))
    ensures AccountTold(cfg, es, n, Self.AccountViewOf(u, r))
    ensures LoginTold(cfg, es, n, Auth.LoginViewOf(u, r))
    ensures AccessTold(cfg, es, n, Auth.AccessFor(u, r))
  {
    hide Latest, Owner;
  }

  // ---------------------------------------------------------------- the answers

  /** A login shows the account as it was told before, and its token is of that account and that moment. */
  lemma LoginsTell(cfg: Config, es: seq<Event>, n: nat)
    requires n < |es| && PossibleRun(cfg, EMPTY, es) && es[n].call.Login? && Answer(cfg, es, n).LoggedIn?
    ensures var o, u := Answer(cfg, es, n), Answer(cfg, es, n).user.id;
            && o.user.email == es[n].call.email
            && LoginTold(cfg, es, n, o.user)
            && o.access.id == u && AccessTold(cfg, es, n, o.access)
            && o.refresh == RefreshJwt(es[n].call.jti, u, es[n].at / 1000 + cfg.refreshExpiresIn)
  {
    hide StateAt, PossibleRun, LoginTold, AccessTold, RowTold;
    var s, u := StateAt(cfg, es, n), Answer(cfg, es, n).user.id;
    Redemption.SoundAt(cfg, es, n);
    LoginAnswers(cfg, s, es[n]);
    RowsAreTold(cfg, es, n, u);
    ViewsTell(cfg, es, n, u, s.accounts.users[u]);
  }

  lemma LoginAnswers(cfg: Config, s: State, e: Event)
    requires Sound(cfg, s) && e.call.Login? && Serve(cfg, s, e).outcome.LoggedIn?
    ensures var o, u := Serve(cfg, s, e).outcome, Serve(cfg, s, e).outcome.user.id;
            && u in s.accounts.users && s.accounts.users[u].email == e.call.email
            && o.user == Auth.LoginViewOf(u, s.accounts.users[u])
            && o.access == Auth.AccessFor(u, s.accounts.users[u])
            && o.refresh == RefreshJwt(e.call.jti, u, Seconds(e.at) + cfg.refreshExpiresIn)
  {
  }

  /** A rotation answers with a token of the same account and of that moment, and with its present claims. */
  lemma RotationsTell(cfg: Config, es: seq<Event>, n: nat)
    requires n < |es| && PossibleRun(cfg, EMPTY, es) && es[n].call.Refresh? && Answer(cfg, es, n).Rotated?
    ensures var o, u := Answer(cfg, es, n), es[n].call.jwt.id;
            && o.access.id == u && AccessTold(cfg, es, n, o.access)
            && o.refresh == RefreshJwt(es[n].call.jti, u, es[n].at / 1000 + cfg.refreshExpiresIn)
  {
    hide StateAt, PossibleRun, AccessTold, RowTold;
    var s, u := StateAt(cfg, es, n), es[n].call.jwt.id;
    RotationAnswers(cfg, s, es[n]);
    RowsAreTold(cfg, es, n, u);
    ViewsTell(cfg, es, n, u, s.accounts.users[u]);
  }

  lemma RotationAnswers(cfg: Config, s: State, e: Event)
    requires e.call.Refresh? && Serve(cfg, s, e).outcome.Rotated?
    ensures var o, u := Serve(cfg, s, e).outcome, e.call.jwt.id;
            && u in s.accounts.users && o.access == Auth.AccessFor(u, s.accounts.users[u])
            && o.refresh == RefreshJwt(e.call.jti, u, Seconds(e.at) + cfg.refreshExpiresIn)
  {
  }

  /** A successful update, by the owner or by an admin, shows the account as it is told from then on. */
  lemma UpdatesTell(cfg: Config, es: seq<Event>, n: nat)
    requires n < |es| && PossibleRun(cfg, EMPTY, es)
    ensures match Answer(cfg, es, n)
            case ProfileUpdated(view) =>
              es[n].call.UpdateProfile? && view.id == es[n].call.userId && ProfileTold(cfg, es, n + 1, view)
            case Updated(view) =>
              && (es[n].call.UpdateUserRole? || es[n].call.UpdateUserStatus?)
              && view.id == es[n].call.target && AccountTold(cfg, es, n + 1, view)
            case _ => true
  {
    hide StateAt, PossibleRun, ProfileTold, AccountTold, RowTold;
    var s, o := StateAt(cfg, es, n), Answer(cfg, es, n);
    UpdateAnswers(cfg, s, es[n]);
    StateAtNext(cfg, es, n);
    if o.ProfileUpdated? || o.Updated? {
      var u := if o.ProfileUpdated? then o.profile.id else o.account.id;
      RowsAreTold(cfg, es, n + 1, u);
      ViewsTell(cfg, es, n + 1, u, StateAt(cfg, es, n + 1).accounts.users[u]);
    }
  }

  lemma UpdateAnswers(cfg: Config, s: State, e: Event)
    ensures var s', o := Step(cfg, s, e), Serve(cfg, s, e).outcome;
            && (o.ProfileUpdated? ==>
                  && e.call.UpdateProfile? && e.call.userId in s'.accounts.users
                  && o.profile == Self.ProfileViewOf(e.call.userId, s'.accounts.users[e.call.userId]))
            && (o.Updated? ==>
                  && (e.call.UpdateUserRole? || e.call.UpdateUserStatus?) && e.call.target in s'.accounts.users
                  && o.account == Self.AccountViewOf(e.call.target, s'.accounts.users[e.call.target]))
  {
  }

  /**
   `getMe` answers if and only if some signup made the account. The answer is what the events before some `getMe`
   less than 300 seconds earlier tell, and its names are what the events tell now.
   */
  lemma ProfilesTell(cfg: Config, es: seq<Event>, n: nat, u: UserId)
    requires n < |es| && PossibleRun(cfg, EMPTY, es) && es[n].call == GetMe(u)
    ensures Answer(cfg, es, n).Me? <==> Member(cfg, es, n, u)
    ensures Answer(cfg, es, n).Me? || Answer(cfg, es, n) == Failed(UserNotFound)
    ensures Answer(cfg, es, n).Me? ==>
              var view := Answer(cfg, es, n).me;
              && view.id == u
              && NamesTold(cfg, es, n, u, view.firstName, view.lastName, view.email)
              && Latest(Usernames(cfg, es, u), n) == view.username
              && exists j: nat | j <= n ::
                   es[j].call == GetMe(u) && es[n].at < es[j].at + 300 * 1000 && MeTold(cfg, es, j, view)
  {
    hide Run, PossibleRun, Sound, MeTold, NamesTold, JoinsAt, Latest;
    var s := StateAt(cfg, es, n);
    Redemption.SoundAt(cfg, es, n);
    MembersJoined(cfg, es, n, u);
    MeAnswers(cfg, s, es[n], u);
    Caching.ProfileAnswersAreRecent(cfg, es, n, u);
    if Answer(cfg, es, n).Me? {
      var view := Answer(cfg, es, n).me;
      var j: nat :| j <= n && Caching.MeSeen(cfg, es, j, u, view) && es[n].at < es[j].at + CACHE_TTL;
      TellsMe(cfg, es, j, u);
      TellsMe(cfg, es, n, u);
    }
  }

  lemma TellsMe(cfg: Config, es: seq<Event>, n: nat, u: UserId)
    requires n <= |es| && PossibleRun(cfg, EMPTY, es) && u in StateAt(cfg, es, n).accounts.users
    ensures MeTold(cfg, es, n, Auth.MeQuery(StateAt(cfg, es, n).accounts, u).value)
    ensures var r := StateAt(cfg, es, n).accounts.users[u];
            NamesTold(cfg, es, n, u, r.firstName, r.lastName, r.email) && Latest(Usernames(cfg, es, u), n) == r.username
  {
    hide StateAt, PossibleRun, MeTold;
    RowsAreTold(cfg, es, n, u);
    ViewsTell(cfg, es, n, u, StateAt(cfg, es, n).accounts.users[u]);
  }

  lemma MeAnswers(cfg: Config, s: State, e: Event, u: UserId)
    requires Sound(cfg, s) && e.call == GetMe(u)
    ensures Serve(cfg, s, e).outcome.Me? <==> u in s.accounts.users
    ensures Serve(cfg, s, e).outcome.Me? || Serve(cfg, s, e).outcome == Failed(UserNotFound)
    ensures Serve(cfg, s, e).outcome.Me? ==>
              var view, r := Serve(cfg, s, e).outcome.me, s.accounts.users[u];
              view.id == u && view.firstName == r.firstName && view.lastName == r.lastName
              && view.email == r.email && view.username == r.username
  {
  }

  /** The same of `getUserById`, where the role is what the events tell now. */
  lemma AdminViewsTell(cfg: Config, es: seq<Event>, n: nat, u: UserId)
    requires n < |es| && PossibleRun(cfg, EMPTY, es) && es[n].call == GetUserById(u)
    ensures Answer(cfg, es, n).AdminUser? <==> Member(cfg, es, n, u)
    ensures Answer(cfg, es, n).AdminUser? || Answer(cfg, es, n) == Failed(UserNotFound)
    ensures Answer(cfg, es, n).AdminUser? ==>
              var view := Answer(cfg, es, n).admin;
              && view.id == u && Latest(Roles(cfg, es, u), n) == Some(view.role)
              && exists j: nat | j <= n ::
                   es[j].call == GetUserById(u) && es[n].at < es[j].at + 300 * 1000 && AdminTold(cfg, es, j, view)
  {
    hide Run, PossibleRun, Sound, AdminTold, JoinsAt, Latest;
    Redemption.SoundAt(cfg, es, n);
    MembersJoined(cfg, es, n, u);
    AdminAnswers(cfg, StateAt(cfg, es, n), es[n], u);
    Caching.AdminAnswersAreRecent(cfg, es, n, u);
    if Answer(cfg, es, n).AdminUser? {
      var view := Answer(cfg, es, n).admin;
      var j: nat :| j <= n && Caching.AdminSeen(cfg, es, j, u, view) && es[n].at < es[j].at + CACHE_TTL;
      TellsAdmin(cfg, es, j, u);
      RoleIsTold(cfg, es, n, u);
    }
  }

  lemma TellsAdmin(cfg: Config, es: seq<Event>, n: nat, u: UserId)
    requires n <= |es| && PossibleRun(cfg, EMPTY, es) && u in StateAt(cfg, es, n).accounts.users
    ensures AdminTold(cfg, es, n, Self.AdminViewOf(u, StateAt(cfg, es, n).accounts.users[u]))
  {
    hide StateAt, PossibleRun, AdminTold, RowTold;
    RowsAreTold(cfg, es, n, u);
    ViewsTell(cfg, es, n, u, StateAt(cfg, es, n).accounts.users[u]);
  }

  lemma AdminAnswers(cfg: Config, s: State, e: Event, u: UserId)
    requires Sound(cfg, s) && e.call == GetUserById(u)
    ensures Serve(cfg, s, e).outcome.AdminUser? <==> u in s.accounts.users
    ensures Serve(cfg, s, e).outcome.AdminUser? || Serve(cfg, s, e).outcome == Failed(UserNotFound)
    ensures Serve(cfg, s, e).outcome.AdminUser? ==>
              var view := Serve(cfg, s, e).outcome.admin; view.id == u && view.role == s.accounts.users[u].role
  {
  }

  // ---------------------------------------------------------------- pages of the listing

  /** The accounts that signups before event `n` made, the latest first. */
  function Joiners(cfg: Config, es: seq<Event>, n: nat): seq<UserId>
    requires n <= |es|
    decreases n
  {
    if n == 0 then []
    else if es[n - 1].call.Signup? && Answer(cfg, es, n - 1) == Done
    then [es[n - 1].call.uid] + Joiners(cfg, es, n - 1)
    else Joiners(cfg, es, n - 1)
  }

  lemma JoiningLists(cfg: Config, s: State, e: Event)
    ensures Step(cfg, s, e).accounts.newestFirst
            == if e.call.Signup? && Serve(cfg, s, e).outcome == Done then [e.call.uid] + s.accounts.newestFirst
               else s.accounts.newestFirst
  {
  }

  lemma {:induction false} ListingIsTheJoiners(cfg: Config, es: seq<Event>, n: nat)
    requires n <= |es|
    ensures StateAt(cfg, es, n).accounts.newestFirst == Joiners(cfg, es, n)
    decreases n
  {
    if n == 0 {
    } else {
      hide Apply;
      ListingIsTheJoiners(cfg, es, n - 1);
      StateAtNext(cfg, es, n - 1);
      JoiningLists(cfg, StateAt(cfg, es, n - 1), es[n - 1]);
    }
  }

  function Skip(page: int, limit: int): int { (page - 1) * limit }

  /** The totals and flags that go with this number of users. */
  predicate CountsFit(view: PageView, total: nat) {
    && view.totalUsers == total
    && (view.totalPages - 1) * view.limit < view.totalUsers <= view.totalPages * view.limit
    && (view.hasNextPage <==> view.page < view.totalPages)
    && (view.hasPreviousPage <==> view.page > 1)
  }

  /** The page as the events before `n` tell it: its cut of the joiners, row by row, and the counts around it. */
  ghost predicate PageTold(cfg: Config, es: seq<Event>, n: nat, view: PageView)
    requires n <= |es|
  {
    var joiners, skip := Joiners(cfg, es, n), Skip(view.page, view.limit);
    && 0 <= skip && |view.users| <= view.limit
    && (forall i | 0 <= i < |view.users| ::
          && skip + i < |joiners| && view.users[i].id == joiners[skip + i]
          && AdminTold(cfg, es, n, view.users[i]))
    && (|view.users| < view.limit ==> |joiners| <= skip + |view.users|)
    && CountsFit(view, |joiners|)
  }

  lemma WindowCuts<T>(rows: seq<T>, page: PageNumber, limit: PageLimit)
    ensures var cut, skip := Admin.Window(rows, page, limit), Skip(page, limit);
            && 0 <= skip && |cut| <= limit
            && (|cut| < limit ==> |rows| <= skip + |cut|)
            && (forall i | 0 <= i < |cut| :: skip + i < |rows| && cut[i] == rows[skip + i])
  {
    assert 0 <= (page - 1) * limit;
  }

  lemma {:induction false} RowsTell(cfg: Config, es: seq<Event>, n: nat, cut: seq<UserId>)
    requires n <= |es| && PossibleRun(cfg, EMPTY, es)
    requires forall u | u in cut :: u in StateAt(cfg, es, n).accounts.users
    ensures var rows := Admin.Rows(StateAt(cfg, es, n).accounts, cut);
            |rows| == |cut| && forall i | 0 <= i < |cut| :: rows[i].id == cut[i] && AdminTold(cfg, es, n, rows[i])
  {
    hide StateAt, PossibleRun, AdminTold;
    var a := StateAt(cfg, es, n).accounts;
    Pagination.RowsAreAll(a, cut);
    forall i | 0 <= i < |cut| ensures AdminTold(cfg, es, n, Admin.Rows(a, cut)[i]) {
      TellsAdmin(cfg, es, n, cut[i]);
    }
  }

  lemma CountsTell(a: Accounts, page: PageNumber, limit: PageLimit)
    requires Directory.ListingExact(a)
    ensures var view := Admin.PageQuery(a, page, limit);
            view.page == page && view.limit == limit && CountsFit(view, |a.newestFirst|)
  {
    hide Admin.Rows, Admin.Window;
    Pagination.ListingHasAllUsers(a);
    Pagination.FlagsAreExact(a, page, limit);
    Pagination.CeilIs(|a.users|, limit);
  }

  lemma QueriedPagesTell(cfg: Config, es: seq<Event>, n: nat, page: PageNumber, limit: PageLimit)
    requires n <= |es| && PossibleRun(cfg, EMPTY, es)
    ensures PageTold(cfg, es, n, Admin.PageQuery(StateAt(cfg, es, n).accounts, page, limit))
  {
    hide StateAt, PossibleRun, AdminTold, Joiners, Skip, CountsFit, Admin.Window, Admin.Rows, Admin.Ceil;
    var a := StateAt(cfg, es, n).accounts;
    var cut := Admin.Window(a.newestFirst, page, limit);
    SoundListing(cfg, es, n);
    ListingIsTheJoiners(cfg, es, n);
    WindowCuts(a.newestFirst, page, limit);
    CountsTell(a, page, limit);
    RowsTell(cfg, es, n, cut);
  }

  lemma SoundListing(cfg: Config, es: seq<Event>, n: nat)
    requires n <= |es| && PossibleRun(cfg, EMPTY, es)
    ensures Directory.ListingExact(StateAt(cfg, es, n).accounts)
  {
    Redemption.SoundAt(cfg, es, n);
  }

  /** `getAllUsers` answers the page that the events before some call for it less than 300 seconds earlier tell. */
  lemma PagesTell(cfg: Config, es: seq<Event>, n: nat)
    requires n < |es| && PossibleRun(cfg, EMPTY, es) && es[n].call.GetAllUsers?
    ensures Answer(cfg, es, n).UserPage?
    ensures var view := Answer(cfg, es, n).page;
            && view.page == es[n].call.page && view.limit == es[n].call.limit
            && exists j: nat | j <= n ::
                 es[j].call == es[n].call && es[n].at < es[j].at + 300 * 1000 && PageTold(cfg, es, j, view)
  {
    hide StateAt, Run, PossibleRun, PageTold, Admin.Window, Admin.Rows;
    var k := PageKey(es[n].call.page, es[n].call.limit);
    Caching.PageAnswersAreRecent(cfg, es, n, k);
    var view := Answer(cfg, es, n).page;
    var j: nat :| j <= n && Caching.PageSeen(cfg, es, j, k, view) && es[n].at < es[j].at + CACHE_TTL;
    QueriedPagesTell(cfg, es, j, k.page, k.limit);
  }
}
