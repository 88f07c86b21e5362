/** When exactly each call succeeds, and what its answer shows, told from the events of the run before it. */
module Outcomes {
  import opened Model
  import opened GrantTables
  import opened Requests
  import opened Directory
  import opened Chronicle
  import opened Invariants
  import Auth = AuthService
  import Self = UserService
  import Admin = AdminService
  import Caching
  import Lifetimes
  import Lifecycle
  import Lockout
  import Passwords
  import Purges
  import Redemption
  import Resets
  import Verification

  function Answer(cfg: Config, es: seq<Event>, n: nat): Outcome
    requires n < |es|
  {
    Serve(cfg, StateAt(cfg, es, n), es[n]).outcome
  }

  /** Some signup before event `n` made the account. */
  ghost predicate Member(cfg: Config, es: seq<Event>, n: nat, u: UserId)
    requires n <= |es|
  {
    exists j: nat | j < n :: JoinsAt(cfg, es, j, u)
  }

  /** Some signup before event `n` made the account, for this email. */
  ghost predicate Owner(cfg: Config, es: seq<Event>, n: nat, u: UserId, email: string)
    requires n <= |es|
  {
    exists j: nat | j < n :: JoinsAt(cfg, es, j, u) && es[j].call.email == email
  }

  /** The row holds this email. */
  predicate Holds(s: State, u: UserId, email: string) {
    u in s.accounts.users && s.accounts.users[u].email == email
  }

  lemma HoldersAreOwners(cfg: Config, es: seq<Event>, n: nat, u: UserId, email: string)
    requires n <= |es|
    ensures Holds(StateAt(cfg, es, n), u, email) <==> Owner(cfg, es, n, u, email)
  {
    hide Apply, Run, Serve;
    MembersJoined(cfg, es, n, u);
    forall j: nat | j < n && JoinsAt(cfg, es, j, u)
      ensures StateAt(cfg, es, n).accounts.users[u].email == es[j].call.email
    {
      EmailsAreFromSignup(cfg, es, j, n, u);
    }
  }

  // ---------------------------------------------------------------- signup

  /** A signup is refused for a taken email and for nothing else. */
  lemma SignupDoneExactly(cfg: Config, s: State, e: Event)
    requires Sound(cfg, s) && Possible(s, e) && e.call.Signup?
    ensures Serve(cfg, s, e).outcome
            == if exists u :: Holds(s, u, e.call.email) then Failed(UserAlreadyExists) else Done
  {
    if exists u :: Holds(s, u, e.call.email) {
      var u :| Holds(s, u, e.call.email);
    } else if e.call.email in s.accounts.emails {
      assert Holds(s, s.accounts.emails[e.call.email], e.call.email);
    }
  }

  /** In any possible run a signup goes through if and only if no signup before went through for its email. */
  lemma SignupSucceedsExactly(cfg: Config, es: seq<Event>, n: nat)
    requires n < |es| && PossibleRun(cfg, EMPTY, es) && es[n].call.Signup?
    ensures Answer(cfg, es, n) == Done <==> !exists u :: Owner(cfg, es, n, u, es[n].call.email)
    ensures Answer(cfg, es, n) in {Done, Failed(UserAlreadyExists)}
  {
    hide Apply, Run, Sound, Owner, Holds;
    Redemption.SoundAt(cfg, es, n);
    PrefixesArePossible(cfg, EMPTY, es, n);
    SignupDoneExactly(cfg, StateAt(cfg, es, n), es[n]);
    forall u { HoldersAreOwners(cfg, es, n, u, es[n].call.email); }
  }

  // ---------------------------------------------------------------- login

  /** The account for this email and password exists, and is neither deleted, suspended, banned nor locked. */
  predicate Welcome(s: State, e: Event, u: UserId)
    requires e.call.Login?
  {
    && Holds(s, u, e.call.email)
    && var user := s.accounts.users[u];
       && user.password == Bcrypt(e.call.password)
       && user.status !in {DELETED, SUSPENDED, BANNED}
       && (user.lockUntil.None? || user.lockUntil.value <= e.at)
  }

  lemma WelcomeIsAccepted(s: State, e: Event, u: UserId)
    requires DirectoryOk(s) && e.call.Login?
    ensures Auth.CheckLogin(Arrive(s, e), e.call.email, e.call.password) == Auth.Accepted(u) <==> Welcome(s, e, u)
  {
  }

  lemma LoginDoneExactly(cfg: Config, s: State, e: Event)
    requires Sound(cfg, s) && Possible(s, e) && e.call.Login?
    ensures Serve(cfg, s, e).outcome.LoggedIn? <==> exists u :: Welcome(s, e, u)
    ensures forall u | Welcome(s, e, u) :: Lockout.LogsIn(cfg, s, e, u)
  {
    hide Apply, Welcome, DirectoryOk, Auth.CheckLogin;
    forall u ensures Welcome(s, e, u) <==> Lockout.LogsIn(cfg, s, e, u) {
      WelcomeIsAccepted(s, e, u);
      Lockout.AcceptedLoginSucceeds(cfg, s, e, u);
    }
    if Serve(cfg, s, e).outcome.LoggedIn? {
      assert Lockout.LogsIn(cfg, s, e, Serve(cfg, s, e).outcome.user.id);
    }
  }

  /** Why a login is refused, in the order in which the reasons are looked for. */
  lemma LoginRefusals(cfg: Config, s: State, e: Event, u: UserId)
    requires Sound(cfg, s) && e.call.Login?
    ensures (forall v :: !Holds(s, v, e.call.email)) ==>
              Serve(cfg, s, e) == Reply(Arrive(s, e), Failed(InvalidCredentials))
    ensures Holds(s, u, e.call.email) && Lifecycle.Blocked(s, u, e.at) ==>
              Serve(cfg, s, e) == Reply(Arrive(s, e), Failed(
                var status := s.accounts.users[u].status;
                if status == DELETED then AccountDeleted else if status == SUSPENDED then AccountSuspended
                else if status == BANNED then AccountBanned else AccountLocked))
  {
    if e.call.email in s.accounts.emails {
      assert Holds(s, s.accounts.emails[e.call.email], e.call.email);
    }
  }

  /** The comparisons since somebody last got in have reached the limit, and the last was less than a period ago. */
  predicate LockedOut(cfg: Config, es: seq<Event>, n: nat, u: UserId, now: Time)
    requires n <= |es|
  {
    var failures := Lockout.Failures(cfg, es, n, u);
    |failures| >= Lockout.Limit(cfg) && now < failures[|failures| - 1] + cfg.lockMinutes * 60 * 1000
  }

  ghost predicate MayLogIn(cfg: Config, es: seq<Event>, n: nat, u: UserId)
    requires n < |es| && es[n].call.Login?
  {
    && Owner(cfg, es, n, u, es[n].call.email)
    && Passwords.Last(Passwords.History(cfg, EMPTY, es[..n], u)) == [es[n].call.password]
    && Latest(Statuses(cfg, es, u), n) !in {Some(DELETED), Some(SUSPENDED), Some(BANNED)}
    && !LockedOut(cfg, es, n, u, es[n].at)
  }

  lemma StatusIsTold(cfg: Config, es: seq<Event>, n: nat, u: UserId)
    requires n <= |es| && PossibleRun(cfg, EMPTY, es) && u in StateAt(cfg, es, n).accounts.users
    ensures Latest(Statuses(cfg, es, u), n) == Some(StateAt(cfg, es, n).accounts.users[u].status)
  {
    hide StateAt, Latest, PossibleRun;
    RowsAreAsTold(cfg, es, n, u);
  }

  lemma PasswordIsTold(cfg: Config, es: seq<Event>, n: nat, u: UserId)
    requires n <= |es| && u in StateAt(cfg, es, n).accounts.users
    ensures Passwords.Last(Passwords.History(cfg, EMPTY, es[..n], u))
            == [StateAt(cfg, es, n).accounts.users[u].password.password]
  {
    hide Run, Passwords.History;
    var h := Passwords.History(cfg, EMPTY, es[..n], u);
    Passwords.RunAppends(cfg, EMPTY, es[..n], u);
    assert Passwords.Present(EMPTY, u) + h == h;
  }

  lemma WelcomeMayLogIn(cfg: Config, es: seq<Event>, n: nat, u: UserId)
    requires n < |es| && PossibleRun(cfg, EMPTY, es) && es[n].call.Login?
    ensures Welcome(StateAt(cfg, es, n), es[n], u) <==> MayLogIn(cfg, es, n, u)
  {
    hide StateAt, Owner, PossibleRun, Lockout.Failures, Passwords.History, Passwords.Last, Statuses, Latest;
    HoldersAreOwners(cfg, es, n, u, es[n].call.email);
    if Holds(StateAt(cfg, es, n), u, es[n].call.email) {
      StatusIsTold(cfg, es, n, u);
      PasswordIsTold(cfg, es, n, u);
      Lockout.LockedExactly(cfg, es, n, u, es[n].at);
    }
  }

  /**
   In any possible run a login goes through if and only if some signup before made an account for its email, its
   password is the last one set there, the last status given to it is none of the barring three, and the failed
   logins since the last successful one do not lock it.
   */
  lemma LoginSucceedsExactly(cfg: Config, es: seq<Event>, n: nat)
    requires n < |es| && PossibleRun(cfg, EMPTY, es) && es[n].call.Login?
    ensures Answer(cfg, es, n).LoggedIn? <==> exists u :: MayLogIn(cfg, es, n, u)
    ensures forall u | MayLogIn(cfg, es, n, u) :: Lockout.LogsIn(cfg, StateAt(cfg, es, n), es[n], u)
  {
    hide Apply, Run, Sound, Welcome, MayLogIn, Lockout.LogsIn;
    Redemption.SoundAt(cfg, es, n);
    PrefixesArePossible(cfg, EMPTY, es, n);
    LoginDoneExactly(cfg, StateAt(cfg, es, n), es[n]);
    forall u { WelcomeMayLogIn(cfg, es, n, u); }
  }

  // ---------------------------------------------------------------- one-time tokens

  /** Whoever holds the email gets the token, nobody else does, and the answer gives nothing away. */
  lemma ForgotReaches(cfg: Config, s: State, e: Event, u: UserId)
    requires Sound(cfg, s) && Possible(s, e) && e.call.ForgotPassword?
    ensures Serve(cfg, s, e).outcome == Done
    ensures Resets.Unused(Step(cfg, s, e), Sha256Hex(e.call.raw), u) <==> Holds(s, u, e.call.email)
    ensures Redemption.AsksFor(s, e, u) <==> Holds(s, u, e.call.email)
  {
  }

  /**
   In any possible run "forgot password" issues its token to an account if and only if some signup before made that
   account for the email asked about, whatever its status and whether or not the address is verified.
   */
  lemma ForgotReachesTheOwner(cfg: Config, es: seq<Event>, n: nat, u: UserId)
    requires n < |es| && PossibleRun(cfg, EMPTY, es) && es[n].call.ForgotPassword?
    ensures Answer(cfg, es, n) == Done
    ensures Resets.Unused(StateAt(cfg, es, n + 1), Sha256Hex(es[n].call.raw), u)
            <==> Owner(cfg, es, n, u, es[n].call.email)
    ensures Redemption.AsksAt(cfg, es, n, u) <==> Owner(cfg, es, n, u, es[n].call.email)
  {
    hide Apply, Run, Sound, Owner, Holds, Resets.Unused, Redemption.AsksFor;
    Redemption.SoundAt(cfg, es, n);
    PrefixesArePossible(cfg, EMPTY, es, n);
    StateAtNext(cfg, es, n);
    ForgotReaches(cfg, StateAt(cfg, es, n), es[n], u);
    HoldersAreOwners(cfg, es, n, u, es[n].call.email);
  }

  lemma ResendDoneExactly(cfg: Config, s: State, e: Event)
    requires Sound(cfg, s) && Possible(s, e) && e.call.ResendVerification?
    ensures Serve(cfg, s, e).outcome
            == if Row(s, e.call.userId).None? then Failed(UserNotFound)
               else if Verified(s, e.call.userId) then Failed(EmailAlreadyVerified) else Done
  {
  }

  /** In any possible run a resend goes through if and only if the account exists and no token verified it yet. */
  lemma ResendSucceedsExactly(cfg: Config, es: seq<Event>, n: nat, u: UserId)
    requires n < |es| && PossibleRun(cfg, EMPTY, es) && es[n].call.ResendVerification? && es[n].call.userId == u
    ensures Answer(cfg, es, n) ==
              if !Member(cfg, es, n, u) then Failed(UserNotFound)
              else if Latest(Verifyings(cfg, es, u), n).Some? then Failed(EmailAlreadyVerified) else Done
  {
    hide Apply, Run, Sound, Told, ColumnsOf, Latest, JoinsAt;
    Redemption.SoundAt(cfg, es, n);
    PrefixesArePossible(cfg, EMPTY, es, n);
    ResendDoneExactly(cfg, StateAt(cfg, es, n), es[n]);
    RowsAreAsTold(cfg, es, n, u);
    MembersJoined(cfg, es, n, u);
  }

  lemma VerifyAnswers(cfg: Config, s: State, e: Event)
    requires Sound(cfg, s) && e.call.VerifyEmail?
    ensures var h := Sha256Hex(e.call.raw);
            Serve(cfg, s, e).outcome ==
              if h !in s.oneTime.verifications then Failed(InvalidToken)
              else if s.oneTime.verifications[h].expiresAt < e.at then Failed(TokenExpired) else Done
  {
  }

  /** In any possible run the last token mailed verifies for fifteen minutes, then is expired; any other is invalid. */
  lemma VerifyAnswersExactly(cfg: Config, es: seq<Event>, n: nat)
    requires n < |es| && PossibleRun(cfg, EMPTY, es) && es[n].call.VerifyEmail?
    ensures forall u, j: nat | Redemption.OpenMail(cfg, es, n, j, es[n].call.raw, u) ::
              Answer(cfg, es, n) == if es[n].at <= es[j].at + 15 * 60 * 1000 then Done else Failed(TokenExpired)
    ensures (forall u, j: nat :: !Redemption.OpenMail(cfg, es, n, j, es[n].call.raw, u)) ==>
              Answer(cfg, es, n) == Failed(InvalidToken)
  {
    hide Apply, StateAt, Sound, Redemption.OpenMail;
    var s, raw := StateAt(cfg, es, n), es[n].call.raw;
    Redemption.SoundAt(cfg, es, n);
    VerifyAnswers(cfg, s, es[n]);
    forall u, j: nat | Redemption.OpenMail(cfg, es, n, j, raw, u)
      ensures j < n && Redemption.MailAged(cfg, es, n, j, raw, u)
    {
      OpenMailIsEarlier(cfg, es, n, j, raw, u);
      Redemption.WaitsWhileOpen(cfg, es, n, raw, u);
    }
    if Sha256Hex(raw) in s.oneTime.verifications {
      Redemption.WaitsWhileOpen(cfg, es, n, raw, s.oneTime.verifications[Sha256Hex(raw)].userId);
    }
  }

  lemma OpenMailIsEarlier(cfg: Config, es: seq<Event>, n: nat, j: nat, raw: Draw, u: UserId)
    requires n <= |es| && Redemption.OpenMail(cfg, es, n, j, raw, u)
    ensures j < n
  {
  }

  lemma OpenResetIsEarlier(cfg: Config, es: seq<Event>, n: nat, j: nat, raw: Draw, u: UserId)
    requires n <= |es| && Redemption.OpenReset(cfg, es, n, j, raw, u)
    ensures j < n
  {
  }

  lemma ResetAnswers(cfg: Config, s: State, e: Event)
    requires Redemption.OwnersExist(s) && e.call.ResetPassword?
    ensures var h := Sha256Hex(e.call.raw);
            && (h !in s.oneTime.resets || s.oneTime.resets[h].usedAt.Some? ==>
                  Serve(cfg, s, e) == Reply(Arrive(s, e), Failed(InvalidToken)))
            && (h in s.oneTime.resets && s.oneTime.resets[h].usedAt.None? ==>
                  var u := s.oneTime.resets[h].userId;
                  && u in s.accounts.users
                  && Serve(cfg, s, e).outcome ==
                       if s.oneTime.resets[h].expiresAt < e.at then Failed(TokenExpired)
                       else if s.accounts.users[u].password.password == e.call.newPassword then Failed(SamePassword)
                       else Done)
  {
  }

  /**
   In any possible run the last token issued, while unused, resets for fifteen minutes, unless the new password is the
   last one set; then it is expired. Any other token is invalid.
   */
  lemma ResetAnswersExactly(cfg: Config, es: seq<Event>, n: nat)
    requires n < |es| && PossibleRun(cfg, EMPTY, es) && es[n].call.ResetPassword?
    ensures forall u, j: nat | Redemption.OpenReset(cfg, es, n, j, es[n].call.raw, u) ::
              Answer(cfg, es, n) ==
                if es[n].at > es[j].at + 15 * 60 * 1000 then Failed(TokenExpired)
                else if Passwords.Last(Passwords.History(cfg, EMPTY, es[..n], u)) == [es[n].call.newPassword]
                then Failed(SamePassword) else Done
    ensures (forall u, j: nat :: !Redemption.OpenReset(cfg, es, n, j, es[n].call.raw, u)) ==>
              Answer(cfg, es, n) == Failed(InvalidToken)
  {
    hide Apply, StateAt, Redemption.OpenReset, Passwords.History, Passwords.Last;
    var s, raw, h := StateAt(cfg, es, n), es[n].call.raw, Sha256Hex(es[n].call.raw);
    Redemption.OwnersExistAt(cfg, es, n);
    ResetAnswers(cfg, s, es[n]);
    forall u, j: nat | Redemption.OpenReset(cfg, es, n, j, raw, u)
      ensures j < n && Redemption.ResetAged(cfg, es, n, j, raw, u)
    {
      OpenResetIsEarlier(cfg, es, n, j, raw, u);
      Redemption.UnusedWhileOpen(cfg, es, n, raw, u);
    }
    if h in s.oneTime.resets {
      Redemption.UnusedWhileOpen(cfg, es, n, raw, s.oneTime.resets[h].userId);
      PasswordIsTold(cfg, es, n, s.oneTime.resets[h].userId);
    }
  }

  /** In any run a password change is answered by comparing with the last password set, the present one first. */
  lemma ChangeAnswersExactly(cfg: Config, es: seq<Event>, n: nat, u: UserId)
    requires n < |es| && es[n].call.ChangePassword? && es[n].call.userId == u
    ensures var last := Passwords.Last(Passwords.History(cfg, EMPTY, es[..n], u));
            Answer(cfg, es, n) ==
              if last == [] then Failed(UserNotFound)
              else if last != [es[n].call.currentPassword] then Failed(CurrentPasswordIncorrect)
              else if last == [es[n].call.newPassword] then Failed(SamePassword) else Done
  {
    hide Run, Passwords.History;
    var h := Passwords.History(cfg, EMPTY, es[..n], u);
    Passwords.RunAppends(cfg, EMPTY, es[..n], u);
    assert Passwords.Present(EMPTY, u) + h == h;
  }

  // ---------------------------------------------------------------- refresh tokens

  /** From the empty store on, a refresh token is signed exactly when a login or a rotation answers with it. */
  ghost predicate OnlyAnswersAreSigned(cfg: Config, s: State, e: Event, jwt: RefreshJwt) {
    Signed(Step(cfg, s, e), jwt) <==> Lifetimes.GivesOut(cfg, s, e, jwt) || Signed(s, jwt)
  }

  predicate Signed(s: State, jwt: RefreshJwt) {
    jwt.jti in s.grants.minted && s.grants.minted[jwt.jti] == jwt
  }

  lemma {:induction false} LoginSigns(cfg: Config, s: State, e: Event, jwt: RefreshJwt)
    requires Lifetimes.Ready(cfg, s) && Possible(s, e) && (e.call.Login? || e.call.Refresh?)
    ensures OnlyAnswersAreSigned(cfg, s, e, jwt)
  {
    TokenFacts(s.grants);
  }

  lemma {:induction false} StepSigns(cfg: Config, s: State, e: Event, jwt: RefreshJwt)
    requires Lifetimes.Ready(cfg, s) && Possible(s, e)
    ensures OnlyAnswersAreSigned(cfg, s, e, jwt)
  {
    hide Apply;
    if e.call.Login? || e.call.Refresh? {
      LoginSigns(cfg, s, e, jwt);
    } else {
      Purges.OtherCallsOnlyDrop(cfg, Arrive(s, e), e.call);
      Lifetimes.OnlyLoginAndRotationGiveOut(cfg, Arrive(s, e), e.call);
    }
  }

  lemma {:induction false} SignedWereAnswers(cfg: Config, es: seq<Event>, n: nat, jwt: RefreshJwt)
    requires n <= |es| && PossibleRun(cfg, EMPTY, es)
    ensures Signed(StateAt(cfg, es, n), jwt) <==> exists j: nat | j < n :: Lifetimes.GivenOutAt(cfg, es, j, jwt)
    decreases n
  {
    hide Apply, Lifetimes.Ready;
    if n == 0 {
    } else {
      SignedWereAnswers(cfg, es, n - 1, jwt);
      Lifetimes.ReadyAt(cfg, es, n - 1);
      PrefixesArePossible(cfg, EMPTY, es, n - 1);
      StepSigns(cfg, StateAt(cfg, es, n - 1), es[n - 1], jwt);
      StateAtNext(cfg, es, n - 1);
      assert Lifetimes.GivenOutAt(cfg, es, n - 1, jwt)
          <==> Lifetimes.GivesOut(cfg, StateAt(cfg, es, n - 1), es[n - 1], jwt);
    }
  }

  lemma RefreshRefusals(cfg: Config, s: State, e: Event)
    requires Lifetimes.Ready(cfg, s) && Possible(s, e) && e.call.Refresh?
    ensures var jwt := e.call.jwt;
            !Serve(cfg, s, e).outcome.Rotated? ==>
              Serve(cfg, s, e) == Reply(Arrive(s, e), Failed(
                if Signed(s, jwt) && Seconds(e.at) < jwt.exp then RefreshTokenInvalid else JwtInvalid))
  {
    TokenFacts(s.grants);
  }

  /**
   In any possible run a rotation that does not go through changes nothing. It calls the JWT invalid if no login or
   rotation ever gave it out or it has expired, and otherwise the token.
   */
  lemma RefreshRefusedExactly(cfg: Config, es: seq<Event>, n: nat)
    requires n < |es| && PossibleRun(cfg, EMPTY, es) && es[n].call.Refresh? && !Answer(cfg, es, n).Rotated?
    ensures StateAt(cfg, es, n + 1) == Arrive(StateAt(cfg, es, n), es[n])
    ensures var jwt := es[n].call.jwt;
            Answer(cfg, es, n) == Failed(
              if (exists j: nat | j < n :: Lifetimes.GivenOutAt(cfg, es, j, jwt)) && es[n].at / 1000 < jwt.exp
              then RefreshTokenInvalid else JwtInvalid)
  {
    hide Apply, Run, Signed, Lifetimes.Ready, Lifetimes.GivenOutAt;
    Lifetimes.ReadyAt(cfg, es, n);
    PrefixesArePossible(cfg, EMPTY, es, n);
    StateAtNext(cfg, es, n);
    RefreshRefusals(cfg, StateAt(cfg, es, n), es[n]);
    SignedWereAnswers(cfg, es, n, es[n].call.jwt);
  }

  lemma LogoutEnds(cfg: Config, s: State, e: Event, u: UserId)
    requires e.call.Logout?
    ensures Serve(cfg, s, e).outcome == Done
    ensures Purges.PurgeTarget(cfg, Arrive(s, e), e.call) == Some(u)
            <==> e.call.token.Some? && Signed(s, e.call.token.value) && e.call.token.value.id == u
                 && Seconds(e.at) < e.call.token.value.exp
  {
  }

  /**
   In any possible run a logout ends the sessions of a user if and only if it presents a token of that user that a
   login or rotation ever gave out and whose JWT has not expired: a traded token, or one already purged, will do.
   */
  lemma LogoutEndsExactly(cfg: Config, es: seq<Event>, n: nat, u: UserId)
    requires n < |es| && PossibleRun(cfg, EMPTY, es) && es[n].call.Logout?
    ensures Answer(cfg, es, n) == Done
    ensures Purges.PurgeTarget(cfg, Arrive(StateAt(cfg, es, n), es[n]), es[n].call) == Some(u)
            <==> && es[n].call.token.Some?
                 && var jwt := es[n].call.token.value;
                    && jwt.id == u && es[n].at / 1000 < jwt.exp
                    && exists j: nat | j < n :: Lifetimes.GivenOutAt(cfg, es, j, jwt)
  {
    hide Apply, StateAt, Signed, Purges.PurgeTarget, Lifetimes.GivenOutAt;
    LogoutEnds(cfg, StateAt(cfg, es, n), es[n], u);
    if es[n].call.token.Some? { SignedWereAnswers(cfg, es, n, es[n].call.token.value); }
  }

  // ---------------------------------------------------------------- calls that cannot be refused

  /** Also for an unknown id, and for a user without sessions. */
  lemma NeverRefused(cfg: Config, s: State, e: Event)
    requires e.call.RevokeAllSessions? || e.call.GetSessions? || e.call.GetAllUsers? || e.call.FlushCache?
    ensures e.call.RevokeAllSessions? || e.call.FlushCache? ==> Serve(cfg, s, e).outcome == Done
    ensures e.call.GetSessions? ==> Serve(cfg, s, e).outcome.SessionList?
    ensures e.call.GetAllUsers? ==> Serve(cfg, s, e).outcome.UserPage?
    ensures e.call.RevokeAllSessions? ==>
              Purges.PurgeTarget(cfg, Arrive(s, e), e.call) == Some(e.call.userId)
  {
  }

  // ---------------------------------------------------------------- profile, role and status

  /** Another account holds the username. */
  ghost predicate TakenIn(s: State, u: UserId, username: Option<string>) {
    username.Some? && exists v :: v != u && v in s.accounts.users && s.accounts.users[v].username == username
  }

  lemma EditDoneExactly(cfg: Config, s: State, e: Event, u: UserId)
    requires e.call.UpdateProfile? && e.call.userId == u
    ensures Edits(cfg, s, e, u) <==> Row(s, u).Some? && !TakenIn(s, u, e.call.newUsername)
    ensures TakenIn(s, u, e.call.newUsername) && e.call.newUsername != Some("") ==>
              Serve(cfg, s, e).outcome == Failed(UsernameAlreadyTaken)
    ensures !Edits(cfg, s, e, u) && !(TakenIn(s, u, e.call.newUsername) && e.call.newUsername != Some("")) ==>
              Serve(cfg, s, e).outcome == Failed(if Row(s, u).None? then RecordNotFound else UniqueViolation)
    ensures !Edits(cfg, s, e, u) ==> Step(cfg, s, e) == Arrive(s, e)
  {
  }

  /** By the events before `n`, another account holds the username. */
  ghost predicate Taken(cfg: Config, es: seq<Event>, n: nat, u: UserId, username: Option<string>)
    requires n <= |es|
  {
    username.Some? && exists v :: v != u && Latest(Usernames(cfg, es, v), n) == username
  }

  lemma UsernameIsTold(cfg: Config, es: seq<Event>, n: nat, v: UserId)
    requires n <= |es| && PossibleRun(cfg, EMPTY, es)
    ensures var s := StateAt(cfg, es, n);
            Latest(Usernames(cfg, es, v), n) == if v in s.accounts.users then s.accounts.users[v].username else None
  {
    hide StateAt, Latest, PossibleRun;
    RowsAreAsTold(cfg, es, n, v);
  }

  /**
   In any possible run a profile update goes through if and only if some signup made the account and the username it
   asks for, if any, is not the last one given to another account. The empty username is no exception.
   */
  lemma EditSucceedsExactly(cfg: Config, es: seq<Event>, n: nat, u: UserId)
    requires n < |es| && PossibleRun(cfg, EMPTY, es) && es[n].call.UpdateProfile? && es[n].call.userId == u
    ensures Edits(cfg, StateAt(cfg, es, n), es[n], u)
            <==> Member(cfg, es, n, u) && !Taken(cfg, es, n, u, es[n].call.newUsername)
    ensures Taken(cfg, es, n, u, es[n].call.newUsername) && es[n].call.newUsername != Some("") ==>
              Answer(cfg, es, n) == Failed(UsernameAlreadyTaken)
    ensures !(Taken(cfg, es, n, u, es[n].call.newUsername) && es[n].call.newUsername != Some("")) ==>
              if !Member(cfg, es, n, u) then Answer(cfg, es, n) == Failed(RecordNotFound)
              else Taken(cfg, es, n, u, Some("")) && es[n].call.newUsername == Some("") ==>
                Answer(cfg, es, n) == Failed(UniqueViolation)
  {
    hide Apply, StateAt, Edits, PossibleRun, JoinsAt, Latest, Usernames;
    EditDoneExactly(cfg, StateAt(cfg, es, n), es[n], u);
    MembersJoined(cfg, es, n, u);
    forall v { UsernameIsTold(cfg, es, n, v); }
  }

  /** After a successful update the next profile shows what was given, and what was not given as it was. */
  lemma EditShows(cfg: Config, s: State, e: Event, u: UserId, at: Time)
    requires Edits(cfg, s, e, u)
    ensures var outcome, user := Serve(cfg, Step(cfg, s, e), Event(at, GetMe(u))).outcome, s.accounts.users[u];
            && outcome.Me? && !outcome.cached
            && outcome.me.firstName == (if e.call.newFirst.Some? then e.call.newFirst.value else user.firstName)
            && outcome.me.lastName == (if e.call.newLast.Some? then e.call.newLast.value else user.lastName)
            && outcome.me.username == (if e.call.newUsername.Some? then e.call.newUsername else user.username)
            && outcome.me.email == user.email && outcome.me.role == user.role
  {
  }

  lemma PromotionDoneExactly(cfg: Config, s: State, e: Event, u: UserId)
    requires e.call.UpdateUserRole? && e.call.target == u
    ensures Promotes(cfg, s, e, u) <==> Row(s, u).Some? && s.accounts.users[u].role != e.call.role
    ensures !Promotes(cfg, s, e, u) ==>
              Serve(cfg, s, e) ==
                Reply(Arrive(s, e), Failed(if Row(s, u).None? then UserNotFound else RoleAlreadyAssigned))
  {
  }

  lemma ModerationDoneExactly(cfg: Config, s: State, e: Event, u: UserId)
    requires e.call.UpdateUserStatus? && e.call.target == u
    ensures Moderates(cfg, s, e, u) <==> Row(s, u).Some? && s.accounts.users[u].status != e.call.status
    ensures !Moderates(cfg, s, e, u) ==>
              Serve(cfg, s, e) ==
                Reply(Arrive(s, e), Failed(if Row(s, u).None? then UserNotFound else StatusAlreadyAssigned))
  {
  }

  lemma AdminDeletionDoneExactly(cfg: Config, s: State, e: Event, u: UserId)
    requires e.call == DeleteUser(u)
    ensures Lifecycle.Deletes(cfg, s, e, u) <==> Row(s, u).Some? && s.accounts.users[u].status != DELETED
    ensures !Lifecycle.Deletes(cfg, s, e, u) ==>
              Serve(cfg, s, e) ==
                Reply(Arrive(s, e), Failed(if Row(s, u).None? then UserNotFound else UserAlreadyDeleted))
  {
  }

  lemma RoleIsTold(cfg: Config, es: seq<Event>, n: nat, u: UserId)
    requires n <= |es| && PossibleRun(cfg, EMPTY, es) && u in StateAt(cfg, es, n).accounts.users
    ensures Latest(Roles(cfg, es, u), n) == Some(StateAt(cfg, es, n).accounts.users[u].role)
  {
    hide StateAt, Latest, PossibleRun;
    RowsAreAsTold(cfg, es, n, u);
  }

  /**
   In any possible run an admin's role update, status update or deletion goes through if and only if some signup
   made the account and the last role, or the last status, given to it is a different one.
   */
  lemma AdminWritesSucceedExactly(cfg: Config, es: seq<Event>, n: nat, u: UserId)
    requires n < |es| && PossibleRun(cfg, EMPTY, es)
    ensures es[n].call.UpdateUserRole? && es[n].call.target == u ==>
              if Member(cfg, es, n, u) && Latest(Roles(cfg, es, u), n) != Some(es[n].call.role)
              then Answer(cfg, es, n).Updated?
              else Answer(cfg, es, n) == Failed(if Member(cfg, es, n, u) then RoleAlreadyAssigned else UserNotFound)
    ensures es[n].call.UpdateUserStatus? && es[n].call.target == u ==>
              if Member(cfg, es, n, u) && Latest(Statuses(cfg, es, u), n) != Some(es[n].call.status)
              then Answer(cfg, es, n).Updated?
              else Answer(cfg, es, n) == Failed(if Member(cfg, es, n, u) then StatusAlreadyAssigned else UserNotFound)
    ensures es[n].call == DeleteUser(u) ==>
              Answer(cfg, es, n) ==
                if !Member(cfg, es, n, u) then Failed(UserNotFound)
                else if Latest(Statuses(cfg, es, u), n) == Some(DELETED) then Failed(UserAlreadyDeleted) else Done
  {
    hide StateAt, PossibleRun, JoinsAt, Latest, Roles, Statuses;
    var s, c := StateAt(cfg, es, n), es[n].call;
    MembersJoined(cfg, es, n, u);
    if u in s.accounts.users { RoleIsTold(cfg, es, n, u); StatusIsTold(cfg, es, n, u); }
    if c.UpdateUserRole? && c.target == u { PromotionDoneExactly(cfg, s, es[n], u); }
    if c.UpdateUserStatus? && c.target == u { ModerationDoneExactly(cfg, s, es[n], u); }
    if c == DeleteUser(u) { AdminDeletionDoneExactly(cfg, s, es[n], u); }
  }
}
