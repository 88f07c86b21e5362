/**
 What the user table holds at any moment of a run, told from the requests and their answers: each column has
 the value that the last event which gave it one gave it.
 */
module Chronicle {
  import opened Model
  import opened Requests
  import opened Directory
  import opened Interleaving
  import Lifecycle
  import Lockout
  import Redemption
  import Resets

  /** The last of the first `n` values that is there. */
  function Latest<T>(given: nat -> Option<T>, n: nat): Option<T> {
    if n == 0 then None else if given(n - 1).Some? then given(n - 1) else Latest(given, n - 1)
  }

  // ---------------------------------------------------------------- what one event gives to account `u`

  /** A signup that made account `u`. */
  predicate Joins(cfg: Config, s: State, e: Event, u: UserId) {
    e.call.Signup? && e.call.uid == u && Serve(cfg, s, e).outcome == Done
  }

  /** A profile update of `u` that was not refused. */
  predicate Edits(cfg: Config, s: State, e: Event, u: UserId) {
    e.call.UpdateProfile? && e.call.userId == u && !Serve(cfg, s, e).outcome.Failed?
  }

  predicate Promotes(cfg: Config, s: State, e: Event, u: UserId) {
    e.call.UpdateUserRole? && e.call.target == u && !Serve(cfg, s, e).outcome.Failed?
  }

  predicate Moderates(cfg: Config, s: State, e: Event, u: UserId) {
    e.call.UpdateUserStatus? && e.call.target == u && !Serve(cfg, s, e).outcome.Failed?
  }

  predicate Changes(cfg: Config, s: State, e: Event, u: UserId) {
    e.call.ChangePassword? && e.call.userId == u && Serve(cfg, s, e).outcome == Done
  }

  predicate ResetsPassword(cfg: Config, s: State, e: Event, u: UserId) {
    Resets.Resets(cfg, Arrive(s, e), e.call, u)
  }

  /** Everything that stamps `updatedAt`: a failed password comparison does, too. */
  predicate Touches(cfg: Config, s: State, e: Event, u: UserId) {
    || Joins(cfg, s, e, u) || Edits(cfg, s, e, u) || Promotes(cfg, s, e, u) || Moderates(cfg, s, e, u)
    || Changes(cfg, s, e, u) || ResetsPassword(cfg, s, e, u)
    || Redemption.Verifies(cfg, s, e, u) || Lifecycle.Deletes(cfg, s, e, u)
    || Lockout.Compares(Arrive(s, e), e.call, u)
  }

  function FirstGiven(cfg: Config, s: State, e: Event, u: UserId): Option<string> {
    if Joins(cfg, s, e, u) then Some(e.call.firstName) else if Edits(cfg, s, e, u) then e.call.newFirst else None
  }

  function LastGiven(cfg: Config, s: State, e: Event, u: UserId): Option<string> {
    if Joins(cfg, s, e, u) then Some(e.call.lastName) else if Edits(cfg, s, e, u) then e.call.newLast else None
  }

  function UsernameGiven(cfg: Config, s: State, e: Event, u: UserId): Option<string> {
    if Edits(cfg, s, e, u) then e.call.newUsername else None
  }

  function RoleGiven(cfg: Config, s: State, e: Event, u: UserId): Option<Role> {
    if Joins(cfg, s, e, u) then Some(USER) else if Promotes(cfg, s, e, u) then Some(e.call.role) else None
  }

  function StatusGiven(cfg: Config, s: State, e: Event, u: UserId): Option<Status> {
    if Joins(cfg, s, e, u) then Some(PENDING_VERIFICATION)
    else if Redemption.Verifies(cfg, s, e, u) then Some(ACTIVE)
    else if Moderates(cfg, s, e, u) then Some(e.call.status)
    else if Lifecycle.Deletes(cfg, s, e, u) then Some(DELETED)
    else None
  }

  function When(happens: bool, e: Event): Option<Time> {
    if happens then Some(e.at) else None
  }

  // ---------------------------------------------------------------- the same over the events of a run

  predicate JoinsAt(cfg: Config, es: seq<Event>, j: nat, u: UserId)
    requires j < |es|
  {
    Joins(cfg, StateAt(cfg, es, j), es[j], u)
  }

  function Firsts(cfg: Config, es: seq<Event>, u: UserId): nat -> Option<string> {
    (i: nat) => if i < |es| then FirstGiven(cfg, StateAt(cfg, es, i), es[i], u) else None
  }

  function Lasts(cfg: Config, es: seq<Event>, u: UserId): nat -> Option<string> {
    (i: nat) => if i < |es| then LastGiven(cfg, StateAt(cfg, es, i), es[i], u) else None
  }

  function Usernames(cfg: Config, es: seq<Event>, u: UserId): nat -> Option<string> {
    (i: nat) => if i < |es| then UsernameGiven(cfg, StateAt(cfg, es, i), es[i], u) else None
  }

  function Roles(cfg: Config, es: seq<Event>, u: UserId): nat -> Option<Role> {
    (i: nat) => if i < |es| then RoleGiven(cfg, StateAt(cfg, es, i), es[i], u) else None
  }

  function Statuses(cfg: Config, es: seq<Event>, u: UserId): nat -> Option<Status> {
    (i: nat) => if i < |es| then StatusGiven(cfg, StateAt(cfg, es, i), es[i], u) else None
  }

  function Joining(cfg: Config, es: seq<Event>, u: UserId): nat -> Option<Time> {
    (i: nat) => if i < |es| then When(Joins(cfg, StateAt(cfg, es, i), es[i], u), es[i]) else None
  }

  function Touching(cfg: Config, es: seq<Event>, u: UserId): nat -> Option<Time> {
    (i: nat) => if i < |es| then When(Touches(cfg, StateAt(cfg, es, i), es[i], u), es[i]) else None
  }

  function Logins(cfg: Config, es: seq<Event>, u: UserId): nat -> Option<Time> {
    (i: nat) => if i < |es| then When(Lockout.LogsIn(cfg, StateAt(cfg, es, i), es[i], u), es[i]) else None
  }

  function Verifyings(cfg: Config, es: seq<Event>, u: UserId): nat -> Option<Time> {
    (i: nat) => if i < |es| then When(Redemption.Verifies(cfg, StateAt(cfg, es, i), es[i], u), es[i]) else None
  }

  function Deletions(cfg: Config, es: seq<Event>, u: UserId): nat -> Option<Time> {
    (i: nat) => if i < |es| then When(Lifecycle.Deletes(cfg, StateAt(cfg, es, i), es[i], u), es[i]) else None
  }

  function PasswordResets(cfg: Config, es: seq<Event>, u: UserId): nat -> Option<Time> {
    (i: nat) => if i < |es| then When(ResetsPassword(cfg, StateAt(cfg, es, i), es[i], u), es[i]) else None
  }

  // ---------------------------------------------------------------- one step, column by column

  function Or<T>(given: Option<T>, present: Option<T>): Option<T> {
    if given.Some? then given else present
  }

  function Row(s: State, u: UserId): Option<User> {
    if u in s.accounts.users then Some(s.accounts.users[u]) else None
  }

  /** A row as far as the columns below go, each optional; without a row there is nothing in any of them. */
  datatype Columns = Columns(
    firstName: Option<string>, lastName: Option<string>, username: Option<string>,
    role: Option<Role>, status: Option<Status>,
    createdAt: Option<Time>, updatedAt: Option<Time>, lastLoginAt: Option<Time>,
    deletedAt: Option<Time>, passwordChangedAt: Option<Time>)

  function ColumnsOf(s: State, u: UserId): Columns {
    match Row(s, u)
    case None => Columns(None, None, None, None, None, None, None, None, None, None)
    case Some(r) => Columns(Some(r.firstName), Some(r.lastName), r.username, Some(r.role), Some(r.status),
                            Some(r.createdAt), Some(r.updatedAt), r.lastLoginAt, r.deletedAt, r.passwordChangedAt)
  }

  predicate Verified(s: State, u: UserId) {
    u in s.accounts.users && s.accounts.users[u].isEmailVerified
  }

  /** From `s` on, event `e` gives account `u` what it gives, and leaves the other columns as they are. */
  ghost predicate Written(cfg: Config, s: State, e: Event, u: UserId) {
    var before, after := ColumnsOf(s, u), ColumnsOf(Step(cfg, s, e), u);
    && after.firstName == Or(FirstGiven(cfg, s, e, u), before.firstName)
    && after.lastName == Or(LastGiven(cfg, s, e, u), before.lastName)
    && after.username == Or(UsernameGiven(cfg, s, e, u), before.username)
    && after.role == Or(RoleGiven(cfg, s, e, u), before.role)
    && after.status == Or(StatusGiven(cfg, s, e, u), before.status)
    && after.createdAt == Or(When(Joins(cfg, s, e, u), e), before.createdAt)
    && after.updatedAt == Or(When(Touches(cfg, s, e, u), e), before.updatedAt)
    && after.lastLoginAt == Or(When(Lockout.LogsIn(cfg, s, e, u), e), before.lastLoginAt)
    && after.deletedAt == Or(When(Lifecycle.Deletes(cfg, s, e, u), e), before.deletedAt)
    && after.passwordChangedAt == Or(When(ResetsPassword(cfg, s, e, u), e), before.passwordChangedAt)
    && (Verified(Step(cfg, s, e), u) <==> Redemption.Verifies(cfg, s, e, u) || Verified(s, u))
  }

  predicate Writer(c: Call) {
    || c.Signup? || c.Login? || c.VerifyEmail? || c.ResetPassword? || c.ChangePassword? || c.UpdateProfile?
    || c.DeleteAccount? || c.UpdateUserRole? || c.UpdateUserStatus? || c.DeleteUser?
  }

  lemma OthersWriteNothing(cfg: Config, s: State, c: Call)
    requires !Writer(c)
    ensures Apply(cfg, s, c).state.accounts == s.accounts
  {
  }

  lemma OthersGiveNothing(cfg: Config, s: State, e: Event, u: UserId)
    requires !Writer(e.call)
    ensures Written(cfg, s, e, u)
  {
    OthersWriteNothing(cfg, Arrive(s, e), e.call);
    assert !Lockout.LogsIn(cfg, s, e, u);
  }

  lemma SignupWrites(cfg: Config, s: State, e: Event, u: UserId)
    requires e.call.Signup?
    ensures Written(cfg, s, e, u)
  {
  }

  lemma LoginWrites(cfg: Config, s: State, e: Event, u: UserId)
    requires Coherent(cfg, Conc(s, map[])) && Possible(s, e) && e.call.Login?
    ensures Written(cfg, s, e, u)
  {
    hide Coherent;
    Lockout.AcceptedLoginSucceeds(cfg, s, e, u);
  }

  lemma VerifyEmailWrites(cfg: Config, s: State, e: Event, u: UserId)
    requires e.call.VerifyEmail?
    ensures Written(cfg, s, e, u)
  {
  }

  lemma ResetPasswordWrites(cfg: Config, s: State, e: Event, u: UserId)
    requires e.call.ResetPassword?
    ensures Written(cfg, s, e, u)
  {
  }

  lemma ChangePasswordWrites(cfg: Config, s: State, e: Event, u: UserId)
    requires e.call.ChangePassword?
    ensures Written(cfg, s, e, u)
  {
  }

  lemma UpdateProfileWrites(cfg: Config, s: State, e: Event, u: UserId)
    requires e.call.UpdateProfile?
    ensures Written(cfg, s, e, u)
  {
  }

  lemma DeleteAccountWrites(cfg: Config, s: State, e: Event, u: UserId)
    requires e.call.DeleteAccount?
    ensures Written(cfg, s, e, u)
  {
  }

  lemma UpdateUserRoleWrites(cfg: Config, s: State, e: Event, u: UserId)
    requires e.call.UpdateUserRole?
    ensures Written(cfg, s, e, u)
  {
  }

  lemma UpdateUserStatusWrites(cfg: Config, s: State, e: Event, u: UserId)
    requires e.call.UpdateUserStatus?
    ensures Written(cfg, s, e, u)
  {
  }

  lemma DeleteUserWrites(cfg: Config, s: State, e: Event, u: UserId)
    requires e.call.DeleteUser?
    ensures Written(cfg, s, e, u)
  {
  }

  lemma {:induction false} StepWrites(cfg: Config, s: State, e: Event, u: UserId)
    requires Coherent(cfg, Conc(s, map[])) && Possible(s, e)
    ensures Written(cfg, s, e, u)
  {
    hide Step, Serve, Coherent, Written;
    if e.call.Signup? { SignupWrites(cfg, s, e, u); }
    else if e.call.Login? { LoginWrites(cfg, s, e, u); }
    else if e.call.VerifyEmail? { VerifyEmailWrites(cfg, s, e, u); }
    else if e.call.ResetPassword? { ResetPasswordWrites(cfg, s, e, u); }
    else if e.call.ChangePassword? { ChangePasswordWrites(cfg, s, e, u); }
    else if e.call.UpdateProfile? { UpdateProfileWrites(cfg, s, e, u); }
    else if e.call.DeleteAccount? { DeleteAccountWrites(cfg, s, e, u); }
    else if e.call.UpdateUserRole? { UpdateUserRoleWrites(cfg, s, e, u); }
    else if e.call.UpdateUserStatus? { UpdateUserStatusWrites(cfg, s, e, u); }
    else if e.call.DeleteUser? { DeleteUserWrites(cfg, s, e, u); }
    else { OthersGiveNothing(cfg, s, e, u); }
  }

  // ---------------------------------------------------------------- over runs

  /** What the answered events before `n` make of account `u`. */
  function Told(cfg: Config, es: seq<Event>, n: nat, u: UserId): Columns {
    Columns(Latest(Firsts(cfg, es, u), n), Latest(Lasts(cfg, es, u), n), Latest(Usernames(cfg, es, u), n),
            Latest(Roles(cfg, es, u), n), Latest(Statuses(cfg, es, u), n),
            Latest(Joining(cfg, es, u), n), Latest(Touching(cfg, es, u), n), Latest(Logins(cfg, es, u), n),
            Latest(Deletions(cfg, es, u), n), Latest(PasswordResets(cfg, es, u), n))
  }

  lemma NothingIsToldYet(cfg: Config, es: seq<Event>, u: UserId)
    ensures ColumnsOf(StateAt(cfg, es, 0), u) == Told(cfg, es, 0, u)
    ensures !Verified(StateAt(cfg, es, 0), u) && Latest(Verifyings(cfg, es, u), 0).None?
  {
    assert StateAt(cfg, es, 0) == EMPTY;
  }

  lemma ToldStep(cfg: Config, es: seq<Event>, n: nat, next: nat, u: UserId)
    requires next == n + 1 && n < |es| && Written(cfg, StateAt(cfg, es, n), es[n], u)
    requires StateAt(cfg, es, next) == Step(cfg, StateAt(cfg, es, n), es[n])
    requires ColumnsOf(StateAt(cfg, es, n), u) == Told(cfg, es, n, u)
    requires Verified(StateAt(cfg, es, n), u) <==> Latest(Verifyings(cfg, es, u), n).Some?
    ensures ColumnsOf(StateAt(cfg, es, next), u) == Told(cfg, es, next, u)
    ensures Verified(StateAt(cfg, es, next), u) <==> Latest(Verifyings(cfg, es, u), next).Some?
  {
    hide Step, StateAt, ColumnsOf, Verified, FirstGiven, LastGiven, UsernameGiven, RoleGiven, StatusGiven, Joins,
         Touches, ResetsPassword;
    hide Lockout.LogsIn, Lifecycle.Deletes, Redemption.Verifies;
  }

  /**
   After any possible run every account is what the answered requests tell: its names, role, status and moments are
   those that the last request to give it one gave it, and its address is verified once some token verified it.
   */
  lemma {:induction false} RowsAreAsTold(cfg: Config, es: seq<Event>, n: nat, u: UserId)
    requires n <= |es| && PossibleRun(cfg, EMPTY, es)
    ensures ColumnsOf(StateAt(cfg, es, n), u) == Told(cfg, es, n, u)
    ensures Verified(StateAt(cfg, es, n), u) <==> Latest(Verifyings(cfg, es, u), n).Some?
    decreases n
  {
    hide Step, Run, Written, Coherent, Told, ColumnsOf, Verified;
    if n == 0 {
      NothingIsToldYet(cfg, es, u);
    } else {
      RowsAreAsTold(cfg, es, n - 1, u);
      Lockout.CoherentAt(cfg, es, n - 1);
      PrefixesArePossible(cfg, EMPTY, es, n - 1);
      StepWrites(cfg, StateAt(cfg, es, n - 1), es[n - 1], u);
      StateAtNext(cfg, es, n - 1);
      ToldStep(cfg, es, n - 1, n, u);
    }
  }

  // ---------------------------------------------------------------- who exists, under which email

  lemma {:induction false} MembersJoined(cfg: Config, es: seq<Event>, n: nat, u: UserId)
    requires n <= |es|
    ensures u in StateAt(cfg, es, n).accounts.users <==> exists j: nat | j < n :: JoinsAt(cfg, es, j, u)
    decreases n
  {
    hide Apply;
    if n == 0 {
    } else {
      MembersJoined(cfg, es, n - 1, u);
      StateAtNext(cfg, es, n - 1);
      UsersOnlyJoin(cfg, Arrive(StateAt(cfg, es, n - 1), es[n - 1]), es[n - 1].call);
      assert JoinsAt(cfg, es, n - 1, u) <==> Joins(cfg, StateAt(cfg, es, n - 1), es[n - 1], u);
    }
  }

  /** An account keeps for good the email that its signup gave. */
  lemma {:induction false} EmailsAreFromSignup(cfg: Config, es: seq<Event>, j: nat, n: nat, u: UserId)
    requires j < n <= |es| && JoinsAt(cfg, es, j, u)
    ensures u in StateAt(cfg, es, n).accounts.users
    ensures StateAt(cfg, es, n).accounts.users[u].email == es[j].call.email
    decreases n
  {
    hide Apply, Joins;
    StateAtNext(cfg, es, n - 1);
    if j == n - 1 {
      JoiningWritesTheEmail(cfg, StateAt(cfg, es, j), es[j], u);
    } else {
      EmailsAreFromSignup(cfg, es, j, n - 1, u);
      FixedColumns(cfg, Arrive(StateAt(cfg, es, n - 1), es[n - 1]), es[n - 1].call);
    }
  }

  lemma JoiningWritesTheEmail(cfg: Config, s: State, e: Event, u: UserId)
    requires Joins(cfg, s, e, u)
    ensures u in Step(cfg, s, e).accounts.users && Step(cfg, s, e).accounts.users[u].email == e.call.email
  {
  }
}
