/** Status, soft deletion, and the gate in front of every signed-in operation. */
module Lifecycle {
  import opened Model
  import opened GrantTables
  import opened Requests
  import opened Directory
  import opened Purges
  import opened Interleaving
  import Auth = AuthService

  // ---------------------------------------------------------------- status

  /** The status a successful call gives its target, if it gives one. */
  function NewStatus(cfg: Config, s: State, c: Call): Option<Status> {
    if Apply(cfg, s, c).outcome.Failed? then None else
    match c
    case VerifyEmail(_) => Some(ACTIVE)
    case UpdateUserStatus(_, status) => Some(status)
    case DeleteAccount(_) => Some(DELETED)
    case DeleteUser(_) => Some(DELETED)
    case _ => None
  }

  predicate MayMoveStatus(c: Call) {
    c.VerifyEmail? || c.UpdateUserStatus? || c.DeleteAccount? || c.DeleteUser?
  }

  lemma OthersKeepStatus(cfg: Config, s: State, c: Call, u: UserId)
    requires u in s.accounts.users && !MayMoveStatus(c)
    ensures u in Apply(cfg, s, c).state.accounts.users
    ensures Apply(cfg, s, c).state.accounts.users[u].status == s.accounts.users[u].status
    ensures Apply(cfg, s, c).state.accounts.users[u].deletedAt == s.accounts.users[u].deletedAt
  {
  }

  lemma MovingCalls(cfg: Config, s: State, c: Call, u: UserId)
    requires u in s.accounts.users && MayMoveStatus(c)
    ensures var s', hit := Apply(cfg, s, c).state, NewStatus(cfg, s, c).Some? && Target(s, c) == Some(u);
            && u in s'.accounts.users
            && s'.accounts.users[u].status == (if hit then NewStatus(cfg, s, c).value else s.accounts.users[u].status)
            && s'.accounts.users[u].deletedAt ==
                 (if hit && (c.DeleteAccount? || c.DeleteUser?) then Some(s.clock) else s.accounts.users[u].deletedAt)
  {
  }

  /** The only four ways a status moves, and the only two that stamp `deletedAt`. */
  lemma StatusMovesExactly(cfg: Config, s: State, c: Call, u: UserId)
    requires u in s.accounts.users
    ensures var s', hit := Apply(cfg, s, c).state, NewStatus(cfg, s, c).Some? && Target(s, c) == Some(u);
            && u in s'.accounts.users
            && s'.accounts.users[u].status == (if hit then NewStatus(cfg, s, c).value else s.accounts.users[u].status)
            && s'.accounts.users[u].deletedAt ==
                 (if hit && (c.DeleteAccount? || c.DeleteUser?) then Some(s.clock) else s.accounts.users[u].deletedAt)
  {
    hide Apply;
    if MayMoveStatus(c) {
      MovingCalls(cfg, s, c, u);
    } else {
      OthersKeepStatus(cfg, s, c, u);
    }
  }

  /** A deleted account is stamped, and holds no session and no refresh token. */
  predicate DeletedHoldNothing(s: State) {
    forall u | u in s.accounts.users && s.accounts.users[u].status == DELETED ::
      s.accounts.users[u].deletedAt.Some? && SessionIdsOf(s.grants, u) == {} && TokensOf(s.grants, u) == map[]
  }

  /** The account is deleted, suspended, banned or locked. */
  predicate Blocked(s: State, u: UserId, now: Time) {
    && u in s.accounts.users
    && var user := s.accounts.users[u];
       user.status in {DELETED, SUSPENDED, BANNED} || (user.lockUntil.Some? && now < user.lockUntil.value)
  }

  lemma {:induction false} BlockedGainNoSession(cfg: Config, s: State, c: Call, u: UserId)
    requires Matched(s.grants) && Blocked(s, u, s.clock)
    ensures SessionIdsOf(Apply(cfg, s, c).state.grants, u) <= SessionIdsOf(s.grants, u)
    ensures c.Refresh? ==> SessionIdsOf(Apply(cfg, s, c).state.grants, u) == SessionIdsOf(s.grants, u)
  {
    if !c.Login? && !c.Refresh? { OtherCallsOnlyDrop(cfg, s, c); }
  }

  lemma NoTokenWithoutSession(g: Grants, u: UserId)
    requires Matched(g)
    ensures SessionIdsOf(g, u) == {} ==> TokensOf(g, u) == map[]
  {
    OwnTokensGoWithTheSessions(g, u);
  }

  lemma {:induction false} StepKeepsDeleted(cfg: Config, s: State, e: Event)
    requires DeletedHoldNothing(s) && Coherent(cfg, Conc(s, map[])) && Possible(s, e)
    ensures DeletedHoldNothing(Step(cfg, s, e))
  {
    hide Apply, Matched;
    var s1, s' := Arrive(s, e), Step(cfg, s, e);
    CallKeepsCoherent(cfg, s, e);
    forall u | u in s'.accounts.users && s'.accounts.users[u].status == DELETED
      ensures s'.accounts.users[u].deletedAt.Some?
      ensures SessionIdsOf(s'.grants, u) == {} && TokensOf(s'.grants, u) == map[]
    {
      NoTokenWithoutSession(s'.grants, u);
      if u in s.accounts.users {
        DeletedStepOf(cfg, s1, e.call, u);
      } else {
        NewcomersComeFromSignup(cfg, s1, e.call, u);
      }
    }
  }

  lemma {:induction false} DeletedStepOf(cfg: Config, s: State, c: Call, u: UserId)
    requires DeletedHoldNothing(s) && Matched(s.grants) && u in s.accounts.users
    requires u in Apply(cfg, s, c).state.accounts.users && Apply(cfg, s, c).state.accounts.users[u].status == DELETED
    ensures Apply(cfg, s, c).state.accounts.users[u].deletedAt.Some?
    ensures SessionIdsOf(Apply(cfg, s, c).state.grants, u) == {}
  {
    StatusMovesExactly(cfg, s, c, u);
    if s.accounts.users[u].status == DELETED {
      BlockedGainNoSession(cfg, s, c, u);
    } else {
      AllPurgePathsAgree(cfg, s, c, u, u);
      assert SessionIdsOf(Apply(cfg, s, c).state.grants, u) == SessionsOf(Apply(cfg, s, c).state.grants, u).Keys;
    }
  }

  /** Over any run: deletion stays on record, and nobody becomes pending again. */
  lemma {:induction false} StampsAndStatusesOverRuns(cfg: Config, s: State, es: seq<Event>, u: UserId)
    requires u in s.accounts.users
    ensures u in Run(cfg, s, es).accounts.users
    ensures s.accounts.users[u].deletedAt.Some? ==> Run(cfg, s, es).accounts.users[u].deletedAt.Some?
    ensures s.accounts.users[u].status != PENDING_VERIFICATION
        ==> Run(cfg, s, es).accounts.users[u].status != PENDING_VERIFICATION
    decreases |es|
  {
    if es == [] {
    } else {
      StatusMovesExactly(cfg, Arrive(s, es[0]), es[0].call, u);
      StampsAndStatusesOverRuns(cfg, Step(cfg, s, es[0]), es[1..], u);
    }
  }

  function CountSelfDeletions(cfg: Config, s: State, es: seq<Event>, u: UserId): nat
    decreases |es|
  {
    if es == [] then 0
    else (if es[0].call == DeleteAccount(u) && Serve(cfg, s, es[0]).outcome == Done then 1 else 0)
         + CountSelfDeletions(cfg, Step(cfg, s, es[0]), es[1..], u)
  }

  /**
   Self-deletion looks at the stamp and admin deletion at the status. An account that was ever deleted, and
   then reactivated, can never delete itself again; over a whole run it does so at most once.
   */
  lemma {:induction false} SelfDeletionHappensOnce(cfg: Config, s: State, es: seq<Event>, u: UserId)
    requires u in s.accounts.users
    ensures CountSelfDeletions(cfg, s, es, u) <= if s.accounts.users[u].deletedAt.Some? then 0 else 1
    decreases |es|
  {
    if es == [] {
    } else {
      StatusMovesExactly(cfg, Arrive(s, es[0]), es[0].call, u);
      SelfDeletionHappensOnce(cfg, Step(cfg, s, es[0]), es[1..], u);
    }
  }

  /** A successful self- or admin deletion of `u`. */
  predicate Deletes(cfg: Config, s: State, e: Event, u: UserId) {
    (e.call == DeleteAccount(u) || e.call == DeleteUser(u)) && Serve(cfg, s, e).outcome == Done
  }

  predicate DeletesAt(cfg: Config, es: seq<Event>, i: nat, u: UserId)
    requires i < |es|
  {
    Deletes(cfg, StateAt(cfg, es, i), es[i], u)
  }

  predicate Stamped(s: State, u: UserId) {
    u in s.accounts.users && s.accounts.users[u].deletedAt.Some?
  }

  lemma DeletionsStamp(cfg: Config, s: State, e: Event, u: UserId)
    requires e.call == DeleteAccount(u) || e.call == DeleteUser(u)
    ensures Stamped(Step(cfg, s, e), u) <==> Stamped(s, u) || Deletes(cfg, s, e, u)
  {
  }

  lemma {:induction false} StepStamps(cfg: Config, s: State, e: Event, u: UserId)
    ensures Stamped(Step(cfg, s, e), u) <==> Stamped(s, u) || Deletes(cfg, s, e, u)
  {
    hide Apply;
    if e.call == DeleteAccount(u) || e.call == DeleteUser(u) {
      DeletionsStamp(cfg, s, e, u);
    } else if u in s.accounts.users {
      StatusMovesExactly(cfg, Arrive(s, e), e.call, u);
    } else if u in Step(cfg, s, e).accounts.users {
      NewcomersComeFromSignup(cfg, Arrive(s, e), e.call, u);
    }
  }

  lemma {:induction false} StampedByADeletion(cfg: Config, es: seq<Event>, n: nat, u: UserId)
    requires n <= |es|
    ensures Stamped(StateAt(cfg, es, n), u) <==> exists i: nat | i < n :: DeletesAt(cfg, es, i, u)
    decreases n
  {
    hide Apply;
    if n == 0 {
    } else {
      StampedByADeletion(cfg, es, n - 1, u);
      StateAtNext(cfg, es, n - 1);
      StepStamps(cfg, StateAt(cfg, es, n - 1), es[n - 1], u);
      assert DeletesAt(cfg, es, n - 1, u) <==> Deletes(cfg, StateAt(cfg, es, n - 1), es[n - 1], u);
    }
  }

  /**
   In any run a self-deletion succeeds if and only if the account exists and nobody, its owner or an admin, ever
   deleted it before, whatever became of its status since.
   */
  lemma SelfDeletionSucceedsExactly(cfg: Config, es: seq<Event>, n: nat, u: UserId)
    requires n < |es| && es[n].call == DeleteAccount(u)
    ensures Serve(cfg, StateAt(cfg, es, n), es[n]).outcome == Done
            <==> u in StateAt(cfg, es, n).accounts.users && !exists i: nat | i < n :: DeletesAt(cfg, es, i, u)
  {
    hide StateAt, DeletesAt;
    StampedByADeletion(cfg, es, n, u);
  }

  /** Deleted and made ACTIVE again, an account is refused its own deletion, but not an admin's. */
  lemma ReactivatedCannotDeleteItself(cfg: Config, s: State, u: UserId, t0: Time, t1: Time, t2: Time)
    requires u in s.accounts.users && s.accounts.users[u].deletedAt.None?
    ensures var s1 := Step(cfg, s, Event(t0, DeleteAccount(u)));
            var s2 := Step(cfg, s1, Event(t1, UpdateUserStatus(u, ACTIVE)));
            && u in s2.accounts.users && s2.accounts.users[u].status == ACTIVE
            && Serve(cfg, s2, Event(t2, DeleteAccount(u))).outcome == Failed(AccountAlreadyDeleted)
            && Serve(cfg, s2, Event(t2, DeleteUser(u))).outcome == Done
  {
    var s1 := Step(cfg, s, Event(t0, DeleteAccount(u)));
    assert s1.accounts.users[u].status == DELETED;
  }

  // ---------------------------------------------------------------- the gate

  /** `authenticateUser`: the claims of a verified access token against the live row. */
  function Authenticate(s: State, id: UserId): Option<Error> {
    if id !in s.accounts.users then Some(AccessTokenInvalid) else Auth.Barred(s.accounts.users[id], s.clock)
  }

  /** `authenticateAdmin`, mounted after it. */
  function AuthenticateAdmin(s: State, id: UserId): Option<Error> {
    if id !in s.accounts.users then Some(UserNotFound)
    else if s.accounts.users[id].role != ADMIN then Some(Forbidden)
    else None
  }

  predicate IsAdmin(s: State, id: UserId) {
    id in s.accounts.users && s.accounts.users[id].role == ADMIN
  }

  datatype Route = Public | SignedIn(self: UserId) | AdminOnly

  function RouteOf(c: Call): Route {
    match c
    case Signup(_, _, _, _, _, _) => Public
    case Login(_, _, _, _, _) => Public
    case Logout(_) => Public
    case Refresh(_, _) => Public
    case VerifyEmail(_) => Public
    case ForgotPassword(_, _) => Public
    case ResetPassword(_, _) => Public
    case GetAllUsers(_, _) => AdminOnly
    case GetUserById(_) => AdminOnly
    case UpdateUserRole(_, _) => AdminOnly
    case UpdateUserStatus(_, _) => AdminOnly
    case DeleteUser(_) => AdminOnly
    case FlushCache => AdminOnly
    case _ => SignedIn(c.userId)
  }

  /**
   A request as it arrives: the call, and the `id` claim of the access token when there is a valid one. The
   controllers copy a signed-in call's `userId` from that claim; the results below do not depend on it.
   */
  datatype Http = Http(at: Time, token: Option<UserId>, call: Call)

  function Handle(cfg: Config, s: State, h: Http): Reply {
    var s1 := Arrive(s, Event(h.at, h.call));
    match RouteOf(h.call)
    case Public => Apply(cfg, s1, h.call)
    case _ =>
      if h.token.None? then Reply(s1, Failed(AccessTokenInvalid))
      else if Authenticate(s1, h.token.value).Some? then Reply(s1, Failed(Authenticate(s1, h.token.value).value))
      else if RouteOf(h.call).AdminOnly? && AuthenticateAdmin(s1, h.token.value).Some?
      then Reply(s1, Failed(AuthenticateAdmin(s1, h.token.value).value))
      else Apply(cfg, s1, h.call)
  }

  function HandleAll(cfg: Config, s: State, hs: seq<Http>): State
    decreases |hs|
  {
    if hs == [] then s else HandleAll(cfg, Handle(cfg, s, hs[0]).state, hs[1..])
  }

  /** User `u` is suspended, banned, deleted or locked whenever a request of the run arrives. */
  predicate BlockedThroughout(cfg: Config, s: State, hs: seq<Http>, u: UserId)
    decreases |hs|
  {
    hs == [] || (Blocked(s, u, hs[0].at) && BlockedThroughout(cfg, Handle(cfg, s, hs[0]).state, hs[1..], u))
  }

  predicate PossibleHttp(cfg: Config, s: State, hs: seq<Http>)
    decreases |hs|
  {
    hs == [] || (Possible(s, Event(hs[0].at, hs[0].call)) && PossibleHttp(cfg, Handle(cfg, s, hs[0]).state, hs[1..]))
  }

  /** The seven calls that are open to everybody. */
  predicate OpenToAll(c: Call) {
    c.Signup? || c.Login? || c.Logout? || c.Refresh? || c.VerifyEmail? || c.ForgotPassword? || c.ResetPassword?
  }

  /** The six calls that ask for the admin role. */
  predicate ForAdmins(c: Call) {
    c.GetAllUsers? || c.GetUserById? || c.UpdateUserRole? || c.UpdateUserStatus? || c.DeleteUser? || c.FlushCache?
  }

  /** The token's user exists and is not barred, and holds the admin role where that is asked for. */
  predicate Entitled(s: State, h: Http) {
    && h.token.Some? && h.token.value in s.accounts.users && !Blocked(s, h.token.value, h.at)
    && (ForAdmins(h.call) ==> s.accounts.users[h.token.value].role == ADMIN)
  }

  /** A request is served if it is open to all or its token entitles to it; otherwise it fails and changes nothing. */
  lemma ServedExactlyWhenEntitled(cfg: Config, s: State, h: Http)
    ensures var s1 := Arrive(s, Event(h.at, h.call));
            if OpenToAll(h.call) || Entitled(s, h) then Handle(cfg, s, h) == Apply(cfg, s1, h.call)
            else Handle(cfg, s, h).outcome.Failed? && Handle(cfg, s, h).state == s1
  {
    hide Apply;
  }

  /** Why the gate refuses: first the token, then its user's status and lock, then the role. */
  lemma GateNamesTheReason(cfg: Config, s: State, h: Http)
    requires !OpenToAll(h.call) && !Entitled(s, h)
    ensures Handle(cfg, s, h).outcome == Failed(
              if h.token.None? || h.token.value !in s.accounts.users then AccessTokenInvalid else
              var user := s.accounts.users[h.token.value];
              if user.status == DELETED then AccountDeleted else if user.status == SUSPENDED then AccountSuspended
              else if user.status == BANNED then AccountBanned
              else if Blocked(s, h.token.value, h.at) then AccountLocked else Forbidden)
  {
    hide Apply;
  }

  /** A request of `u` for any of the fourteen other calls. */
  predicate GuardedOf(h: Http, u: UserId) {
    h.token == Some(u) && !OpenToAll(h.call)
  }

  /** Every guarded request of `u` in the run is answered with an error. */
  predicate AllRefused(cfg: Config, s: State, hs: seq<Http>, u: UserId)
    decreases |hs|
  {
    hs == [] || ((GuardedOf(hs[0], u) ==> Handle(cfg, s, hs[0]).outcome.Failed?)
                 && AllRefused(cfg, Handle(cfg, s, hs[0]).state, hs[1..], u))
  }

  /** The run without the guarded requests that carry a token of `u`. */
  function WithoutGuarded(hs: seq<Http>, u: UserId): seq<Http> {
    if hs == [] then []
    else (if GuardedOf(hs[0], u) then [] else [hs[0]]) + WithoutGuarded(hs[1..], u)
  }

  /** Same tables and same cache; only the clock and the used-up draws may differ. */
  predicate SameTables(s: State, t: State) {
    s == t.(clock := s.clock, drawn := s.drawn)
  }

  lemma DrawnIsNeverReadInPublic(cfg: Config, s: State, drawn: set<Draw>, c: Call)
    requires RouteOf(c).Public?
    ensures Apply(cfg, s.(drawn := drawn), c).state == Apply(cfg, s, c).state.(drawn := drawn)
  {
  }

  lemma DrawnIsNeverReadBehindTheGate(cfg: Config, s: State, drawn: set<Draw>, c: Call)
    requires !RouteOf(c).Public?
    ensures Apply(cfg, s.(drawn := drawn), c).state == Apply(cfg, s, c).state.(drawn := drawn)
  {
  }

  lemma DrawnIsNeverRead(cfg: Config, s: State, drawn: set<Draw>, c: Call)
    ensures Apply(cfg, s.(drawn := drawn), c).state == Apply(cfg, s, c).state.(drawn := drawn)
  {
    hide Apply;
    if RouteOf(c).Public? {
      DrawnIsNeverReadInPublic(cfg, s, drawn, c);
    } else {
      DrawnIsNeverReadBehindTheGate(cfg, s, drawn, c);
    }
  }

  lemma HandleIsACongruence(cfg: Config, s: State, t: State, h: Http)
    requires SameTables(s, t)
    ensures SameTables(Handle(cfg, s, h).state, Handle(cfg, t, h).state)
  {
    var s1, t1 := Arrive(s, Event(h.at, h.call)), Arrive(t, Event(h.at, h.call));
    assert s1 == t1.(drawn := s1.drawn);
    DrawnIsNeverRead(cfg, t1, s1.drawn, h.call);
  }

  /**
   However fresh the access token: as long as `u` stays blocked, guarded requests of `u` all fail, and the
   run ends in the same tables as if they had never been made.
   */
  lemma {:induction false} BlockedRequestsChangeNothing(cfg: Config, s: State, t: State, hs: seq<Http>, u: UserId)
    requires BlockedThroughout(cfg, s, hs, u) && SameTables(s, t)
    ensures AllRefused(cfg, s, hs, u)
    ensures SameTables(HandleAll(cfg, s, hs), HandleAll(cfg, t, WithoutGuarded(hs, u)))
    decreases |hs|
  {
    if hs == [] {
    } else {
      var s' := Handle(cfg, s, hs[0]).state;
      var rest := WithoutGuarded(hs[1..], u);
      if GuardedOf(hs[0], u) {
        assert WithoutGuarded(hs, u) == rest;
        BlockedRequestsChangeNothing(cfg, s', t, hs[1..], u);
      } else {
        assert WithoutGuarded(hs, u) == [hs[0]] + rest && ([hs[0]] + rest)[1..] == rest;
        HandleIsACongruence(cfg, s, t, hs[0]);
        BlockedRequestsChangeNothing(cfg, s', Handle(cfg, t, hs[0]).state, hs[1..], u);
      }
    }
  }

  /** The requests of the run that get through, as the calls they make. */
  function Served(cfg: Config, s: State, hs: seq<Http>): seq<Event>
    decreases |hs|
  {
    if hs == [] then []
    else (if OpenToAll(hs[0].call) || Entitled(s, hs[0]) then [Event(hs[0].at, hs[0].call)] else [])
         + Served(cfg, Handle(cfg, s, hs[0]).state, hs[1..])
  }

  /**
   A run of requests with their middlewares comes to the whole-request run of those that get through, which is a
   possible run again: what holds of runs of calls holds behind the gate.
   */
  lemma {:induction false} RequestsRunAsCalls(cfg: Config, s: State, t: State, hs: seq<Http>)
    requires PossibleHttp(cfg, s, hs) && SameTables(s, t) && t.clock <= s.clock && t.drawn <= s.drawn
    ensures PossibleRun(cfg, t, Served(cfg, s, hs))
    ensures SameTables(HandleAll(cfg, s, hs), Run(cfg, t, Served(cfg, s, hs)))
    decreases |hs|
  {
    hide Apply, OpenToAll, Entitled;
    if hs == [] {
    } else {
      var e, s' := Event(hs[0].at, hs[0].call), Handle(cfg, s, hs[0]).state;
      var rest := Served(cfg, s', hs[1..]);
      ServedExactlyWhenEntitled(cfg, s, hs[0]);
      StepKeepsTime(cfg, s, e);
      if OpenToAll(hs[0].call) || Entitled(s, hs[0]) {
        assert Served(cfg, s, hs) == [e] + rest && ([e] + rest)[1..] == rest;
        assert Arrive(s, e) == Arrive(t, e).(drawn := Arrive(s, e).drawn);
        DrawnIsNeverRead(cfg, Arrive(t, e), Arrive(s, e).drawn, e.call);
        StepKeepsTime(cfg, t, e);
        RequestsRunAsCalls(cfg, s', Step(cfg, t, e), hs[1..]);
      } else {
        assert Served(cfg, s, hs) == rest;
        RequestsRunAsCalls(cfg, s', t, hs[1..]);
      }
    }
  }

  lemma HandleKeepsCoherent(cfg: Config, s: State, h: Http)
    requires Coherent(cfg, Conc(s, map[])) && Possible(s, Event(h.at, h.call))
    ensures Coherent(cfg, Conc(Handle(cfg, s, h).state, map[]))
  {
    var s1 := Arrive(s, Event(h.at, h.call));
    CallKeepsCoherent(cfg, s, Event(h.at, h.call));
    DropKeepsCoherent(cfg, Conc(s, map[]), Conc(s1, map[]), {});
  }

  /** As long as `u` stays blocked, whatever anybody requests, `u` gains no session. */
  lemma {:induction false} BlockedNeverGainSessions(cfg: Config, s: State, hs: seq<Http>, u: UserId)
    requires Coherent(cfg, Conc(s, map[])) && PossibleHttp(cfg, s, hs) && BlockedThroughout(cfg, s, hs, u)
    ensures SessionIdsOf(HandleAll(cfg, s, hs).grants, u) <= SessionIdsOf(s.grants, u)
    decreases |hs|
  {
    if hs == [] {
    } else {
      BlockedGainNoSession(cfg, Arrive(s, Event(hs[0].at, hs[0].call)), hs[0].call, u);
      HandleKeepsCoherent(cfg, s, hs[0]);
      BlockedNeverGainSessions(cfg, Handle(cfg, s, hs[0]).state, hs[1..], u);
    }
  }

  // ---------------------------------------------------------------- roles come from administrators

  /** A role changes only at the hands of somebody who holds the admin role, and is not barred, at that moment. */
  lemma {:induction false} RolesAreGivenByAdmins(cfg: Config, s: State, h: Http, u: UserId)
    requires u in s.accounts.users
    ensures var s' := Handle(cfg, s, h).state;
            && u in s'.accounts.users
            && (s'.accounts.users[u].role != s.accounts.users[u].role ==>
                  && h.token.Some? && h.token.value in s.accounts.users
                  && s.accounts.users[h.token.value].role == ADMIN && !Blocked(s, h.token.value, h.at)
                  && h.call == UpdateUserRole(u, s'.accounts.users[u].role))
  {
    var s1 := Arrive(s, Event(h.at, h.call));
    UsersOnlyJoin(cfg, s1, h.call);
    if !h.call.UpdateUserRole? || h.call.target != u { RoleColumn(cfg, s1, h.call, u); }
  }

  predicate NoAdmins(s: State) {
    forall u | u in s.accounts.users :: s.accounts.users[u].role != ADMIN
  }

  /** So from a store without administrators, no sequence of requests ever makes one. */
  lemma {:induction false} NoAdminOutOfNothing(cfg: Config, s: State, hs: seq<Http>)
    requires NoAdmins(s)
    ensures NoAdmins(HandleAll(cfg, s, hs))
    decreases |hs|
  {
    hide Apply;
    if hs == [] {
    } else {
      var s' := Handle(cfg, s, hs[0]).state;
      forall u | u in s'.accounts.users ensures s'.accounts.users[u].role != ADMIN {
        if u in s.accounts.users { RolesAreGivenByAdmins(cfg, s, hs[0], u); }
        else { NewcomersComeFromSignup(cfg, Arrive(s, Event(hs[0].at, hs[0].call)), hs[0].call, u); }
      }
      NoAdminOutOfNothing(cfg, s', hs[1..]);
    }
  }
}
