/** What each call of the admin service does to the whole state. */
module AdminService {
  import opened Model
  import opened AuthService
  import opened UserService

  function Ceil(n: nat, d: PageLimit): int { (n + d - 1) / d }

  /** `skip` and `take` over a fixed order. */
  function Window<T>(rows: seq<T>, page: PageNumber, limit: PageLimit): seq<T> {
    var skip := (page - 1) * limit;
    if skip >= |rows| then []
    else if skip + limit >= |rows| then rows[skip..]
    else rows[skip..skip + limit]
  }

  function Rows(a: Accounts, ids: seq<UserId>): seq<AdminView> {
    if ids == [] then []
    else if ids[0] in a.users then [AdminViewOf(ids[0], a.users[ids[0]])] + Rows(a, ids[1..])
    else Rows(a, ids[1..])
  }

  function PageQuery(a: Accounts, page: PageNumber, limit: PageLimit): PageView {
    var total := |a.users|;
    PageView(Rows(a, Window(a.newestFirst, page, limit)), page, limit,
             total, Ceil(total, limit), page * limit < total, page > 1)
  }

  function GetAllUsers(s: State, page: PageNumber, limit: PageLimit): Reply {
    var key := PageKey(page, limit);
    if Live(s.cache.pages, key, s.clock) then Reply(s, UserPage(s.cache.pages[key].value, true))
    else
      var view := PageQuery(s.accounts, page, limit);
      var pages := s.cache.pages[key := Cached(view, s.clock + CACHE_TTL)];
      Reply(s.(cache := s.cache.(pages := pages)), UserPage(view, false))
  }

  function AdminQuery(a: Accounts, u: UserId): Option<AdminView> {
    if u in a.users then Some(AdminViewOf(u, a.users[u])) else None
  }

  function GetUserById(s: State, u: UserId): Reply {
    if Live(s.cache.admin, u, s.clock) then Reply(s, AdminUser(s.cache.admin[u].value, true))
    else
      match AdminQuery(s.accounts, u)
      case None => Reply(s, Failed(UserNotFound))
      case Some(view) =>
        var admin := s.cache.admin[u := Cached(view, s.clock + CACHE_TTL)];
        Reply(s.(cache := s.cache.(admin := admin)), AdminUser(view, false))
  }

  /** Drop `admin:user:<id>` and every `admin:users:*` page. */
  function DropAdmin(s: State, u: UserId): State {
    s.(cache := s.cache.(admin := s.cache.admin - {u}, pages := map[]))
  }

  function UpdateUserRole(s: State, u: UserId, role: Role): Reply {
    if u !in s.accounts.users then Reply(s, Failed(UserNotFound))
    else if s.accounts.users[u].role == role then Reply(s, Failed(RoleAlreadyAssigned))
    else
      var s1 := SetUser(s, u, s.accounts.users[u].(role := role));
      Reply(DropAdmin(s1, u), Updated(AccountViewOf(u, s1.accounts.users[u])))
  }

  function UpdateUserStatus(s: State, u: UserId, status: SettableStatus): Reply {
    if u !in s.accounts.users then Reply(s, Failed(UserNotFound))
    else if s.accounts.users[u].status == status then Reply(s, Failed(StatusAlreadyAssigned))
    else
      var s1 := SetUser(s, u, s.accounts.users[u].(status := status));
      Reply(DropAdmin(s1, u), Updated(AccountViewOf(u, s1.accounts.users[u])))
  }

  /** Admin deletion looks at the status. */
  function DeleteUser(s: State, u: UserId): Reply {
    if u !in s.accounts.users then Reply(s, Failed(UserNotFound))
    else if s.accounts.users[u].status == DELETED then Reply(s, Failed(UserAlreadyDeleted))
    else Reply(DropAdmin(DropMe(MarkDeleted(s, u), u), u), Done)
  }
}
