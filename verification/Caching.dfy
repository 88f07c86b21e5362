/** The Redis map against the database: which cached fields are exact, and how old the others can be. */
module Caching {
  import opened Model
  import opened Requests
  import opened Directory
  import opened Purges
  import opened Lifecycle
  import Auth = AuthService
  import Self = UserService
  import Admin = AdminService

  // ---------------------------------------------------------------- exact fields

  predicate MeExact(a: Accounts, u: UserId, view: MeView) {
    && u in a.users && view.id == u
    && view.firstName == a.users[u].firstName && view.lastName == a.users[u].lastName
    && view.username == a.users[u].username
    && view.email == a.users[u].email && view.createdAt == a.users[u].createdAt
  }

  predicate AdminExact(a: Accounts, view: AdminView) {
    && view.id in a.users
    && view.role == a.users[view.id].role
    && view.email == a.users[view.id].email && view.createdAt == a.users[view.id].createdAt
  }

  predicate PageExact(a: Accounts, view: PageView) {
    forall i | 0 <= i < |view.users| :: AdminExact(a, view.users[i])
  }

  /** What a cached value can be relied on for: live or not, these fields equal the database. */
  predicate CacheExact(s: State) {
    && (forall u | u in s.cache.me :: MeExact(s.accounts, u, s.cache.me[u].value))
    && (forall u | u in s.cache.admin ::
        s.cache.admin[u].value.id == u && AdminExact(s.accounts, s.cache.admin[u].value))
    && (forall k | k in s.cache.pages :: PageExact(s.accounts, s.cache.pages[k].value))
  }

  /** From `s` to `s'` call `c` filled the cache with nothing but what its own query returned. */
  predicate MeRefilled(s: State, c: Call, s': State) {
    forall u | u in s'.cache.me ::
      || (u in s.cache.me && s'.cache.me[u] == s.cache.me[u])
      || (c == GetMe(u) && Auth.MeQuery(s.accounts, u) == Some(s'.cache.me[u].value)
          && s'.cache.me[u].expiresAt == s.clock + CACHE_TTL && s'.accounts == s.accounts)
  }

  predicate AdminRefilled(s: State, c: Call, s': State) {
    forall u | u in s'.cache.admin ::
      || (u in s.cache.admin && s'.cache.admin[u] == s.cache.admin[u])
      || (c == GetUserById(u) && Admin.AdminQuery(s.accounts, u) == Some(s'.cache.admin[u].value)
          && s'.cache.admin[u].expiresAt == s.clock + CACHE_TTL && s'.accounts == s.accounts)
  }

  predicate PagesRefilled(s: State, c: Call, s': State) {
    forall k | k in s'.cache.pages ::
      || (k in s.cache.pages && s'.cache.pages[k] == s.cache.pages[k])
      || (c == GetAllUsers(k.page, k.limit)
          && Admin.PageQuery(s.accounts, k.page, k.limit) == s'.cache.pages[k].value
          && s'.cache.pages[k].expiresAt == s.clock + CACHE_TTL && s'.accounts == s.accounts)
  }

  lemma MeEntriesComeFromQueries(cfg: Config, s: State, c: Call)
    ensures MeRefilled(s, c, Apply(cfg, s, c).state)
  {
  }

  lemma AdminEntriesComeFromQueries(cfg: Config, s: State, c: Call)
    ensures AdminRefilled(s, c, Apply(cfg, s, c).state)
  {
  }

  lemma PageEntriesComeFromQueries(cfg: Config, s: State, c: Call)
    ensures PagesRefilled(s, c, Apply(cfg, s, c).state)
  {
  }

  /** A successful role update, status update or deletion by an admin. */
  predicate AdminWrites(cfg: Config, s: State, c: Call) {
    (c.UpdateUserRole? || c.UpdateUserStatus? || c.DeleteUser?) && !Apply(cfg, s, c).outcome.Failed?
  }

  /** The writers drop what they make stale, and every purge drops its user's profile. */
  lemma WritersInvalidate(cfg: Config, s: State, c: Call)
    ensures var s' := Apply(cfg, s, c).state;
            && (c.UpdateProfile? && !Apply(cfg, s, c).outcome.Failed? ==> c.userId !in s'.cache.me)
            && (PurgeTarget(cfg, s, c).Some? ==> PurgeTarget(cfg, s, c).value !in s'.cache.me)
            && (AdminWrites(cfg, s, c) ==> c.target !in s'.cache.admin && s'.cache.pages == map[])
  {
  }

  lemma FailedUpdatesChangeNothing(cfg: Config, s: State, c: Call)
    requires (c.UpdateProfile? || c.UpdateUserRole?) && Apply(cfg, s, c).outcome.Failed?
    ensures Apply(cfg, s, c).state == s
  {
  }

  lemma {:induction false} RowsAreExact(a: Accounts, ids: seq<UserId>)
    ensures forall i | 0 <= i < |Admin.Rows(a, ids)| ::
              var row := Admin.Rows(a, ids)[i];
              AdminExact(a, row) && row.status == a.users[row.id].status
  {
    if ids == [] {
    } else {
      RowsAreExact(a, ids[1..]);
    }
  }

  lemma {:induction false} StepKeepsMeExact(cfg: Config, s: State, c: Call, u: UserId)
    requires CacheExact(s) && u in Apply(cfg, s, c).state.cache.me
    ensures MeExact(Apply(cfg, s, c).state.accounts, u, Apply(cfg, s, c).state.cache.me[u].value)
  {
    hide Apply;
    MeEntriesComeFromQueries(cfg, s, c);
    if u in s.cache.me {
      assert MeExact(s.accounts, u, s.cache.me[u].value);
      FixedColumns(cfg, s, c);
      WritersInvalidate(cfg, s, c);
      if !(c.UpdateProfile? && c.userId == u) {
        NameColumns(cfg, s, c, u);
      } else if Apply(cfg, s, c).outcome.Failed? {
        FailedUpdatesChangeNothing(cfg, s, c);
      }
    }
  }

  lemma {:induction false} StepKeepsRowExact(cfg: Config, s: State, c: Call, view: AdminView)
    requires AdminExact(s.accounts, view) && !(AdminWrites(cfg, s, c) && c.target == view.id)
    ensures AdminExact(Apply(cfg, s, c).state.accounts, view)
  {
    hide Apply;
    if c.UpdateUserRole? && Apply(cfg, s, c).outcome.Failed? {
      FailedUpdatesChangeNothing(cfg, s, c);
    } else {
      FixedColumns(cfg, s, c);
      RoleColumn(cfg, s, c, view.id);
    }
  }

  lemma {:induction false} StepKeepsCacheExact(cfg: Config, s: State, e: Event)
    requires CacheExact(s)
    ensures CacheExact(Step(cfg, s, e))
  {
    var s1, s', c := Arrive(s, e), Step(cfg, s, e), e.call;
    AdminEntriesComeFromQueries(cfg, s1, c);
    PageEntriesComeFromQueries(cfg, s1, c);
    WritersInvalidate(cfg, s1, c);
    forall u | u in s'.cache.me ensures MeExact(s'.accounts, u, s'.cache.me[u].value) {
      StepKeepsMeExact(cfg, s1, c, u);
    }
    forall u | u in s'.cache.admin
      ensures s'.cache.admin[u].value.id == u && AdminExact(s'.accounts, s'.cache.admin[u].value)
    {
      if u in s.cache.admin && s'.cache.admin[u] == s.cache.admin[u] {
        StepKeepsRowExact(cfg, s1, c, s.cache.admin[u].value);
      }
    }
    forall k | k in s'.cache.pages ensures PageExact(s'.accounts, s'.cache.pages[k].value) {
      if k in s.cache.pages && s'.cache.pages[k] == s.cache.pages[k] {
        var view := s.cache.pages[k].value;
        assert PageExact(s.accounts, view);
        forall i | 0 <= i < |view.users| ensures AdminExact(s'.accounts, view.users[i]) {
          StepKeepsRowExact(cfg, s1, c, view.users[i]);
        }
      } else {
        RowsAreExact(s.accounts, Admin.Window(s.accounts.newestFirst, k.page, k.limit));
      }
    }
  }

  /** Served from the cache or not: names in a profile, and roles in the admin views, are the database's. */
  lemma ServedFieldsAreExact(cfg: Config, s: State, e: Event)
    requires CacheExact(s)
    ensures match Serve(cfg, s, e).outcome
            case Me(view, _) => e.call.GetMe? && MeExact(s.accounts, e.call.userId, view)
            case AdminUser(view, _) => e.call.GetUserById? && view.id == e.call.target && AdminExact(s.accounts, view)
            case UserPage(view, _) => PageExact(s.accounts, view)
            case _ => true
  {
    if e.call.GetAllUsers? {
      RowsAreExact(s.accounts, Admin.Window(s.accounts.newestFirst, e.call.page, e.call.limit));
    }
  }

  // ---------------------------------------------------------------- the other fields do go stale

  /** A role change does not reach a profile cached before it, until that entry runs out. */
  lemma ProfileRoleGoesStale(cfg: Config, s: State, u: UserId, role: Role, t0: Time, t1: Time, t2: Time)
    requires u in s.accounts.users && s.accounts.users[u].role != role
    requires !Auth.Live(s.cache.me, u, t0) && t0 <= t1 <= t2 < t0 + CACHE_TTL
    ensures var s1 := Step(cfg, s, Event(t0, GetMe(u)));
            var s2 := Step(cfg, s1, Event(t1, UpdateUserRole(u, role)));
            var outcome := Serve(cfg, s2, Event(t2, GetMe(u))).outcome;
            outcome.Me? && outcome.me.role != s2.accounts.users[u].role == role
  {
    var s1 := Step(cfg, s, Event(t0, GetMe(u)));
    assert s1.cache.me[u] == Cached(Auth.MeQuery(s.accounts, u).value, t0 + CACHE_TTL);
  }

  /** A self-deletion does not reach an admin view cached before it, until that entry runs out. */
  lemma AdminStatusGoesStale(cfg: Config, s: State, u: UserId, t0: Time, t1: Time, t2: Time)
    requires u in s.accounts.users && s.accounts.users[u].status != DELETED && s.accounts.users[u].deletedAt.None?
    requires !Auth.Live(s.cache.admin, u, t0) && t0 <= t1 <= t2 < t0 + CACHE_TTL
    ensures var s1 := Step(cfg, s, Event(t0, GetUserById(u)));
            var s2 := Step(cfg, s1, Event(t1, DeleteAccount(u)));
            var outcome := Serve(cfg, s2, Event(t2, GetUserById(u))).outcome;
            outcome.AdminUser? && outcome.admin.status != s2.accounts.users[u].status == DELETED
  {
    var s1 := Step(cfg, s, Event(t0, GetUserById(u)));
    assert s1.cache.admin[u] == Cached(Self.AdminViewOf(u, s.accounts.users[u]), t0 + CACHE_TTL);
  }

  // ---------------------------------------------------------------- bounded staleness

  /** The accounts as event `j` of the run found them. */
  function AccountsAt(cfg: Config, es: seq<Event>, j: nat): Accounts
    requires j <= |es|
  {
    StateAt(cfg, es, j).accounts
  }

  /** Event `j` asked for the profile of `u`, and this is what the query returns then. */
  ghost predicate MeSeen(cfg: Config, es: seq<Event>, j: nat, u: UserId, view: MeView)
    requires j < |es|
  {
    es[j].call == GetMe(u) && Auth.MeQuery(AccountsAt(cfg, es, j), u) == Some(view)
  }

  ghost predicate AdminSeen(cfg: Config, es: seq<Event>, j: nat, u: UserId, view: AdminView)
    requires j < |es|
  {
    es[j].call == GetUserById(u) && Admin.AdminQuery(AccountsAt(cfg, es, j), u) == Some(view)
  }

  ghost predicate PageSeen(cfg: Config, es: seq<Event>, j: nat, k: PageKey, view: PageView)
    requires j < |es|
  {
    es[j].call == GetAllUsers(k.page, k.limit) && Admin.PageQuery(AccountsAt(cfg, es, j), k.page, k.limit) == view
  }

  predicate AdminWritesAt(cfg: Config, es: seq<Event>, i: nat)
    requires i < |es|
  {
    AdminWrites(cfg, Arrive(StateAt(cfg, es, i), es[i]), es[i].call)
  }

  /** From event `j` to event `n` no admin updated or deleted `u`. */
  ghost predicate Untouched(cfg: Config, es: seq<Event>, j: nat, n: nat, u: UserId)
    requires n <= |es|
  {
    forall i | j <= i < n :: AdminWritesAt(cfg, es, i) ==> es[i].call.target != u
  }

  ghost predicate AllUntouched(cfg: Config, es: seq<Event>, j: nat, n: nat)
    requires n <= |es|
  {
    forall i | j <= i < n :: !AdminWritesAt(cfg, es, i)
  }

  /** The entry was its query's result at an event before `n`, when its time to live began. */
  ghost predicate MeSourced(cfg: Config, es: seq<Event>, n: nat, u: UserId, entry: Cached<MeView>)
    requires n <= |es|
  {
    exists j: nat | j < n :: MeSeen(cfg, es, j, u, entry.value) && entry.expiresAt == es[j].at + CACHE_TTL
  }

  ghost predicate AdminSourced(cfg: Config, es: seq<Event>, n: nat, u: UserId, entry: Cached<AdminView>)
    requires n <= |es|
  {
    exists j: nat | j < n ::
      AdminSeen(cfg, es, j, u, entry.value) && entry.expiresAt == es[j].at + CACHE_TTL && Untouched(cfg, es, j, n, u)
  }

  ghost predicate PageSourced(cfg: Config, es: seq<Event>, n: nat, k: PageKey, entry: Cached<PageView>)
    requires n <= |es|
  {
    exists j: nat | j < n ::
      PageSeen(cfg, es, j, k, entry.value) && entry.expiresAt == es[j].at + CACHE_TTL && AllUntouched(cfg, es, j, n)
  }

  ghost predicate Sourced(cfg: Config, es: seq<Event>, n: nat, cache: Cache)
    requires n <= |es|
  {
    && (forall u | u in cache.me :: MeSourced(cfg, es, n, u, cache.me[u]))
    && (forall u | u in cache.admin :: AdminSourced(cfg, es, n, u, cache.admin[u]))
    && (forall k | k in cache.pages :: PageSourced(cfg, es, n, k, cache.pages[k]))
  }

  lemma {:induction false} MeSourcedStep(cfg: Config, es: seq<Event>, n: nat, s: State, s': State, u: UserId)
    requires n < |es| && s == StateAt(cfg, es, n) && Sourced(cfg, es, n, s.cache)
    requires MeRefilled(Arrive(s, es[n]), es[n].call, s') && u in s'.cache.me
    ensures MeSourced(cfg, es, n + 1, u, s'.cache.me[u])
  {
    hide Run;
    if u in s.cache.me && s'.cache.me[u] == s.cache.me[u] {
      assert MeSourced(cfg, es, n, u, s.cache.me[u]);
    } else {
      assert MeSeen(cfg, es, n, u, s'.cache.me[u].value);
    }
  }

  lemma {:induction false} AdminSourcedStep(cfg: Config, es: seq<Event>, n: nat, s: State, s': State, u: UserId)
    requires n < |es| && s == StateAt(cfg, es, n) && Sourced(cfg, es, n, s.cache)
    requires AdminRefilled(Arrive(s, es[n]), es[n].call, s') && u in s'.cache.admin
    requires AdminWritesAt(cfg, es, n) ==> es[n].call.target != u
    ensures AdminSourced(cfg, es, n + 1, u, s'.cache.admin[u])
  {
    hide Run, Apply, AdminWritesAt, Admin.AdminQuery;
    if u in s.cache.admin && s'.cache.admin[u] == s.cache.admin[u] {
      assert AdminSourced(cfg, es, n, u, s.cache.admin[u]);
      var j: nat :| j < n && AdminSeen(cfg, es, j, u, s.cache.admin[u].value)
                    && s.cache.admin[u].expiresAt == es[j].at + CACHE_TTL && Untouched(cfg, es, j, n, u);
      assert Untouched(cfg, es, j, n + 1, u);
    } else {
      assert AdminSeen(cfg, es, n, u, s'.cache.admin[u].value);
      assert Untouched(cfg, es, n, n + 1, u);
    }
  }

  lemma {:induction false} PageSourcedStep(cfg: Config, es: seq<Event>, n: nat, s: State, s': State, k: PageKey)
    requires n < |es| && s == StateAt(cfg, es, n) && Sourced(cfg, es, n, s.cache)
    requires PagesRefilled(Arrive(s, es[n]), es[n].call, s') && k in s'.cache.pages
    requires !AdminWritesAt(cfg, es, n)
    ensures PageSourced(cfg, es, n + 1, k, s'.cache.pages[k])
  {
    hide Run, Apply, AdminWritesAt, Admin.PageQuery;
    if k in s.cache.pages && s'.cache.pages[k] == s.cache.pages[k] {
      assert PageSourced(cfg, es, n, k, s.cache.pages[k]);
      var j: nat :| j < n && PageSeen(cfg, es, j, k, s.cache.pages[k].value)
                    && s.cache.pages[k].expiresAt == es[j].at + CACHE_TTL && AllUntouched(cfg, es, j, n);
      assert AllUntouched(cfg, es, j, n + 1);
    } else {
      assert PageSeen(cfg, es, n, k, s'.cache.pages[k].value);
      assert AllUntouched(cfg, es, n, n + 1);
    }
  }

  lemma {:induction false} EveryEntryIsSourced(cfg: Config, es: seq<Event>, n: nat)
    requires n <= |es|
    ensures Sourced(cfg, es, n, StateAt(cfg, es, n).cache)
    decreases n
  {
    hide Apply;
    if n == 0 {
    } else {
      EveryEntryIsSourced(cfg, es, n - 1);
      StateAtNext(cfg, es, n - 1);
      var before, after := StateAt(cfg, es, n - 1), StateAt(cfg, es, n);
      var arrived, call := Arrive(before, es[n - 1]), es[n - 1].call;
      MeEntriesComeFromQueries(cfg, arrived, call);
      AdminEntriesComeFromQueries(cfg, arrived, call);
      PageEntriesComeFromQueries(cfg, arrived, call);
      WritersInvalidate(cfg, arrived, call);
      forall u | u in after.cache.me { MeSourcedStep(cfg, es, n - 1, before, after, u); }
      forall u | u in after.cache.admin { AdminSourcedStep(cfg, es, n - 1, before, after, u); }
      forall k | k in after.cache.pages { PageSourcedStep(cfg, es, n - 1, before, after, k); }
    }
  }

  // ---------------------------------------------------------------- how the role and the status have moved since

  predicate ChangesRole(cfg: Config, s: State, c: Call, u: UserId) {
    c.UpdateUserRole? && c.target == u && !Apply(cfg, s, c).outcome.Failed?
  }

  /** There are two roles, and an update to the present one is refused: every successful update flips. */
  lemma UpdatesFlipTheRole(cfg: Config, s: State, c: Call, u: UserId)
    requires u in s.accounts.users
    ensures u in Apply(cfg, s, c).state.accounts.users
    ensures Apply(cfg, s, c).state.accounts.users[u].role != s.accounts.users[u].role <==> ChangesRole(cfg, s, c, u)
  {
  }

  /** Successful role updates of `u` from event `j` up to, not including, event `n`. */
  function RoleChanges(cfg: Config, es: seq<Event>, j: nat, n: nat, u: UserId): nat
    requires n <= |es|
    decreases n
  {
    if n <= j then 0
    else RoleChanges(cfg, es, j, n - 1, u)
         + if ChangesRole(cfg, Arrive(StateAt(cfg, es, n - 1), es[n - 1]), es[n - 1].call, u) then 1 else 0
  }

  lemma {:induction false} RoleAfterChanges(cfg: Config, es: seq<Event>, j: nat, n: nat, u: UserId)
    requires j <= n <= |es| && u in AccountsAt(cfg, es, j).users
    ensures u in AccountsAt(cfg, es, n).users
    ensures AccountsAt(cfg, es, n).users[u].role == AccountsAt(cfg, es, j).users[u].role
            <==> RoleChanges(cfg, es, j, n, u) % 2 == 0
    decreases n
  {
    hide Apply, ChangesRole, StateAt;
    if n == j {
    } else {
      RoleAfterChanges(cfg, es, j, n - 1, u);
      StateAtNext(cfg, es, n - 1);
      UpdatesFlipTheRole(cfg, Arrive(StateAt(cfg, es, n - 1), es[n - 1]), es[n - 1].call, u);
    }
  }

  /** The status that a successful self-deletion or email verification of `u` gives. */
  function OwnStatus(cfg: Config, s: State, c: Call, u: UserId): Option<Status> {
    if Apply(cfg, s, c).outcome.Failed? || Target(s, c) != Some(u) then None
    else if c.VerifyEmail? then Some(ACTIVE)
    else if c.DeleteAccount? then Some(DELETED)
    else None
  }

  lemma {:induction false} OnlyOwnStatusMoves(cfg: Config, s: State, c: Call, u: UserId)
    requires u in s.accounts.users && (AdminWrites(cfg, s, c) ==> c.target != u)
    ensures u in Apply(cfg, s, c).state.accounts.users
    ensures Apply(cfg, s, c).state.accounts.users[u].status
            == if OwnStatus(cfg, s, c, u).Some? then OwnStatus(cfg, s, c, u).value else s.accounts.users[u].status
  {
    hide Apply;
    StatusMovesExactly(cfg, s, c, u);
  }

  /** The last status that `u` got by self-deletion or verification from event `j` up to, not including, event `n`. */
  function LastOwnStatus(cfg: Config, es: seq<Event>, j: nat, n: nat, u: UserId): Option<Status>
    requires n <= |es|
    decreases n
  {
    if n <= j then None
    else
      var last := OwnStatus(cfg, Arrive(StateAt(cfg, es, n - 1), es[n - 1]), es[n - 1].call, u);
      if last.Some? then last else LastOwnStatus(cfg, es, j, n - 1, u)
  }

  lemma {:induction false} StatusIsTheLast(cfg: Config, es: seq<Event>, j: nat, n: nat, u: UserId)
    requires j <= n <= |es| && u in AccountsAt(cfg, es, j).users && Untouched(cfg, es, j, n, u)
    ensures u in AccountsAt(cfg, es, n).users
    ensures var last := LastOwnStatus(cfg, es, j, n, u);
            AccountsAt(cfg, es, n).users[u].status == if last.Some?
                then last.value else AccountsAt(cfg, es, j).users[u].status
    decreases n
  {
    hide Apply, OwnStatus, StateAt;
    if n == j {
    } else {
      StatusIsTheLast(cfg, es, j, n - 1, u);
      StateAtNext(cfg, es, n - 1);
      OnlyOwnStatusMoves(cfg, Arrive(StateAt(cfg, es, n - 1), es[n - 1]), es[n - 1].call, u);
    }
  }

  // ---------------------------------------------------------------- what is served

  lemma MeSeenRole(cfg: Config, es: seq<Event>, j: nat, n: nat, u: UserId, view: MeView)
    requires j <= n < |es| && MeSeen(cfg, es, j, u, view)
    ensures u in AccountsAt(cfg, es, n).users
    ensures view.role == AccountsAt(cfg, es, n).users[u].role <==> RoleChanges(cfg, es, j, n, u) % 2 == 0
  {
    hide StateAt, RoleChanges;
    RoleAfterChanges(cfg, es, j, n, u);
  }

  lemma NothingSinceNow(cfg: Config, es: seq<Event>, n: nat, u: UserId)
    requires n <= |es|
    ensures Untouched(cfg, es, n, n, u) && AllUntouched(cfg, es, n, n)
  {
  }

  lemma AdminSeenStatus(cfg: Config, es: seq<Event>, j: nat, n: nat, u: UserId, view: AdminView)
    requires j <= n < |es| && AdminSeen(cfg, es, j, u, view) && Untouched(cfg, es, j, n, u)
    ensures StatusExactWhen(cfg, es, j, n, view)
  {
    hide StateAt, LastOwnStatus, AdminWritesAt;
    StatusIsTheLast(cfg, es, j, n, u);
  }

  /**
   Whatever `getMe` answers at event `n` of a run from the empty store is what its database query returned at some
   `getMe` less than 300 seconds before. Its role is the database's exactly when the number of successful role
   updates since is even.
   */
  lemma ProfileAnswersAreRecent(cfg: Config, es: seq<Event>, n: nat, u: UserId)
    requires n < |es| && es[n].call == GetMe(u)
    ensures var outcome := Serve(cfg, StateAt(cfg, es, n), es[n]).outcome;
            outcome.Me? ==>
              && u in AccountsAt(cfg, es, n).users
              && exists j: nat | j <= n ::
                   && MeSeen(cfg, es, j, u, outcome.me) && es[n].at < es[j].at + 300 * 1000
                   && (outcome.me.role == AccountsAt(cfg, es, n).users[u].role
                       <==> RoleChanges(cfg, es, j, n, u) % 2 == 0)
  {
    hide Run, RoleChanges;
    EveryEntryIsSourced(cfg, es, n);
    var s, outcome := StateAt(cfg, es, n), Serve(cfg, StateAt(cfg, es, n), es[n]).outcome;
    if outcome.Me? {
      if Auth.Live(s.cache.me, u, es[n].at) {
        assert MeSourced(cfg, es, n, u, s.cache.me[u]);
      } else {
        assert MeSeen(cfg, es, n, u, outcome.me);
      }
      var j: nat :| j <= n && MeSeen(cfg, es, j, u, outcome.me) && es[n].at < es[j].at + CACHE_TTL;
      MeSeenRole(cfg, es, j, n, u, outcome.me);
    }
  }

  /** In a view read at event `j` the status is right at event `n` for as long as no other one was given since. */
  ghost predicate StatusExactWhen(cfg: Config, es: seq<Event>, j: nat, n: nat, view: AdminView)
    requires n <= |es|
  {
    && view.id in AccountsAt(cfg, es, n).users
    && (view.status == AccountsAt(cfg, es, n).users[view.id].status
        <==> LastOwnStatus(cfg, es, j, n, view.id) in {None, Some(view.status)})
  }

  /**
   The same of `getUserById`. Its status is the database's exactly when the last self-deletion or verification of
   the account since, if there was one, set that very status: admins' updates never go unnoticed.
   */
  lemma AdminAnswersAreRecent(cfg: Config, es: seq<Event>, n: nat, u: UserId)
    requires n < |es| && es[n].call == GetUserById(u)
    ensures var outcome := Serve(cfg, StateAt(cfg, es, n), es[n]).outcome;
            outcome.AdminUser? ==>
              exists j: nat | j <= n ::
                AdminSeen(cfg, es, j, u, outcome.admin) && es[n].at < es[j].at + 300 * 1000
                && Untouched(cfg, es, j, n, u) && StatusExactWhen(cfg, es, j, n, outcome.admin)
  {
    hide Run, LastOwnStatus, AdminWritesAt, StatusExactWhen, Untouched;
    EveryEntryIsSourced(cfg, es, n);
    var s, outcome := StateAt(cfg, es, n), Serve(cfg, StateAt(cfg, es, n), es[n]).outcome;
    if outcome.AdminUser? {
      if Auth.Live(s.cache.admin, u, es[n].at) {
        assert AdminSourced(cfg, es, n, u, s.cache.admin[u]);
      } else {
        assert AdminSeen(cfg, es, n, u, outcome.admin);
        NothingSinceNow(cfg, es, n, u);
      }
      var j: nat :| j <= n && AdminSeen(cfg, es, j, u, outcome.admin) && es[n].at < es[j].at + CACHE_TTL
                    && Untouched(cfg, es, j, n, u);
      AdminSeenStatus(cfg, es, j, n, u, outcome.admin);
    }
  }

  lemma {:induction false} PageStatusesExactWhen(cfg: Config, es: seq<Event>, j: nat, n: nat, k: PageKey,
                                              view: PageView)
    requires j <= n < |es| && PageSeen(cfg, es, j, k, view) && AllUntouched(cfg, es, j, n)
    ensures forall i | 0 <= i < |view.users| :: StatusExactWhen(cfg, es, j, n, view.users[i])
  {
    hide StateAt, LastOwnStatus, AdminWritesAt;
    var a := AccountsAt(cfg, es, j);
    RowsAreExact(a, Admin.Window(a.newestFirst, k.page, k.limit));
    forall i | 0 <= i < |view.users| ensures StatusExactWhen(cfg, es, j, n, view.users[i]) {
      StatusIsTheLast(cfg, es, j, n, view.users[i].id);
    }
  }

  /** The same of `getAllUsers`, rows and page counts together, with the status of each row. */
  lemma PageAnswersAreRecent(cfg: Config, es: seq<Event>, n: nat, k: PageKey)
    requires n < |es| && es[n].call == GetAllUsers(k.page, k.limit)
    ensures var outcome := Serve(cfg, StateAt(cfg, es, n), es[n]).outcome;
            && outcome.UserPage?
            && exists j: nat | j <= n ::
                 PageSeen(cfg, es, j, k, outcome.page) && es[n].at < es[j].at + 300 * 1000
                 && AllUntouched(cfg, es, j, n)
                 && forall i | 0 <= i < |outcome.page.users| :: StatusExactWhen(cfg, es, j, n, outcome.page.users[i])
  {
    hide Run, LastOwnStatus, AdminWritesAt, StatusExactWhen, Admin.PageQuery;
    EveryEntryIsSourced(cfg, es, n);
    var s, outcome := StateAt(cfg, es, n), Serve(cfg, StateAt(cfg, es, n), es[n]).outcome;
    if Auth.Live(s.cache.pages, k, es[n].at) {
      assert PageSourced(cfg, es, n, k, s.cache.pages[k]);
    } else {
      assert PageSeen(cfg, es, n, k, outcome.page) && AllUntouched(cfg, es, n, n);
    }
    var j: nat :| j <= n && PageSeen(cfg, es, j, k, outcome.page) && es[n].at < es[j].at + CACHE_TTL
                  && AllUntouched(cfg, es, j, n);
    PageStatusesExactWhen(cfg, es, j, n, k, outcome.page);
  }
}
