/** From when until when a refresh token can be traded in, over whole-request runs. */
module Lifetimes {
  import opened Model
  import opened GrantTables
  import opened Requests
  import opened Directory
  import opened Purges
  import opened Interleaving
  import opened Rotation
  import Self = UserService

  /** A successful login or rotation answered with this token. */
  predicate GivesOut(cfg: Config, s: State, e: Event, jwt: RefreshJwt) {
    var outcome := Serve(cfg, s, e).outcome;
    (outcome.LoggedIn? || outcome.Rotated?) && outcome.refresh == jwt
  }

  /** The token was traded in, or its user's sessions were all ended. */
  predicate Ends(cfg: Config, s: State, e: Event, jwt: RefreshJwt) {
    || (e.call.Refresh? && e.call.jwt.jti == jwt.jti && Serve(cfg, s, e).outcome.Rotated?)
    || PurgeTarget(cfg, Arrive(s, e), e.call) == Some(jwt.id)
  }

  /** The token is signed with these claims, and its row is there. */
  predicate Stands(s: State, jwt: RefreshJwt) {
    jwt.jti in s.grants.minted && s.grants.minted[jwt.jti] == jwt && Sha256Hex(jwt.jti) in s.grants.tokens
  }

  predicate OwnersExist(s: State) {
    forall j | j in s.grants.minted :: s.grants.minted[j].id in s.accounts.users
  }

  ghost predicate Ready(cfg: Config, s: State) {
    Coherent(cfg, Conc(s, map[])) && AllCurrent(s.grants) && OwnersExist(s)
  }

  /** Which rows stand after a step, and that those standing before keep their expiry. */
  ghost predicate Handled(cfg: Config, s: State, e: Event, jwt: RefreshJwt) {
    var s', h := Step(cfg, s, e), Sha256Hex(jwt.jti);
    && (Stands(s', jwt) <==> GivesOut(cfg, s, e, jwt) || (Stands(s, jwt) && !Ends(cfg, s, e, jwt)))
    && (GivesOut(cfg, s, e, jwt) ==> !Stands(s, jwt) && s'.grants.tokens[h].expiresAt == cfg.StoredExpiry(e.at)
                                     && jwt.exp == cfg.JwtExpiry(e.at))
    && (Stands(s, jwt) && Stands(s', jwt) ==> s'.grants.tokens[h].expiresAt == s.grants.tokens[h].expiresAt)
  }

  lemma {:induction false} LoginHandles(cfg: Config, s: State, e: Event, jwt: RefreshJwt)
    requires Ready(cfg, s) && Possible(s, e) && e.call.Login?
    ensures Handled(cfg, s, e, jwt)
  {
    hide Ends;
    TokenFacts(s.grants);
    LoginEndsNothing(cfg, s, e, jwt);
  }

  lemma LoginEndsNothing(cfg: Config, s: State, e: Event, jwt: RefreshJwt)
    requires e.call.Login?
    ensures !Ends(cfg, s, e, jwt)
  {
  }

  lemma {:induction false} RefreshHandles(cfg: Config, s: State, e: Event, jwt: RefreshJwt)
    requires Ready(cfg, s) && Possible(s, e) && e.call.Refresh?
    ensures Handled(cfg, s, e, jwt)
  {
    TokenFacts(s.grants);
  }

  lemma OnlyLoginAndRotationGiveOut(cfg: Config, s: State, c: Call)
    requires !c.Login? && !c.Refresh?
    ensures !Apply(cfg, s, c).outcome.LoggedIn? && !Apply(cfg, s, c).outcome.Rotated?
  {
  }

  lemma RevokingFails(s: State, u: UserId, sid: SessionId)
    requires AllCurrent(s.grants)
    ensures Self.RevokeSession(s, u, sid).outcome.Failed?
  {
  }

  lemma {:induction false} OthersHandle(cfg: Config, s: State, e: Event, jwt: RefreshJwt)
    requires Ready(cfg, s) && Possible(s, e) && !e.call.Login? && !e.call.Refresh?
    ensures Handled(cfg, s, e, jwt)
  {
    var s1, c := Arrive(s, e), e.call;
    if c.RevokeSession? { RevokingFails(s1, c.userId, c.sid); }
    assert c.RevokeSession? ==> Apply(cfg, s1, c).outcome.Failed?;
    hide Apply;
    OnlyLoginAndRotationGiveOut(cfg, s1, c);
    OtherCallsOnlyDrop(cfg, s1, c);
    TokenFacts(s.grants);
    OwnTokensGoWithTheSessions(s.grants, jwt.id);
  }

  lemma {:induction false} StepHandles(cfg: Config, s: State, e: Event, jwt: RefreshJwt)
    requires Ready(cfg, s) && Possible(s, e)
    ensures Handled(cfg, s, e, jwt)
  {
    hide Apply, Ready, Handled;
    if e.call.Login? {
      LoginHandles(cfg, s, e, jwt);
    } else if e.call.Refresh? {
      RefreshHandles(cfg, s, e, jwt);
    } else {
      OthersHandle(cfg, s, e, jwt);
    }
  }

  lemma {:induction false} LoginMintsForUsers(cfg: Config, s: State, c: Call)
    requires (c.Login? || c.Refresh?) && OwnersExist(s)
    ensures forall j | j in Apply(cfg, s, c).state.grants.minted ::
              Apply(cfg, s, c).state.grants.minted[j].id in s.accounts.users
  {
  }

  lemma {:induction false} StepKeepsOwners(cfg: Config, s: State, e: Event)
    requires OwnersExist(s) && Coherent(cfg, Conc(s, map[]))
    ensures OwnersExist(Step(cfg, s, e))
  {
    hide Apply;
    var s1 := Arrive(s, e);
    UsersOnlyJoin(cfg, s1, e.call);
    if e.call.Login? || e.call.Refresh? {
      LoginMintsForUsers(cfg, s1, e.call);
    } else {
      OtherCallsOnlyDrop(cfg, s1, e.call);
    }
  }

  lemma {:induction false} StepKeepsReady(cfg: Config, s: State, e: Event)
    requires Ready(cfg, s) && Possible(s, e)
    ensures Ready(cfg, Step(cfg, s, e))
  {
    hide Apply, Coherent, AllCurrent, OwnersExist;
    CallKeepsCoherent(cfg, s, e);
    StepKeepsOwners(cfg, s, e);
    StepKeepsAllCurrent(cfg, Conc(s, map[]), Move(e.at, Whole(e.call)));
  }

  /** With a fresh successor, the trade goes through exactly for a standing token within both lifetimes. */
  lemma {:induction false} RefreshSucceedsExactly(cfg: Config, s: State, e: Event)
    requires Ready(cfg, s) && Possible(s, e) && e.call.Refresh?
    ensures var jwt := e.call.jwt;
            Serve(cfg, s, e).outcome.Rotated?
            <==> Stands(s, jwt) && e.at <= s.grants.tokens[Sha256Hex(jwt.jti)].expiresAt && Seconds(e.at) < jwt.exp
  {
    TokenFacts(s.grants);
  }

  // ---------------------------------------------------------------- over runs

  lemma {:induction false} ReadyAt(cfg: Config, es: seq<Event>, n: nat)
    requires n <= |es| && PossibleRun(cfg, EMPTY, es)
    ensures Ready(cfg, StateAt(cfg, es, n))
    decreases n
  {
    if n == 0 {
    } else {
      hide Apply, Ready;
      ReadyAt(cfg, es, n - 1);
      PrefixesArePossible(cfg, EMPTY, es, n - 1);
      StepKeepsReady(cfg, StateAt(cfg, es, n - 1), es[n - 1]);
      StateAtNext(cfg, es, n - 1);
    }
  }

  predicate GivenOutAt(cfg: Config, es: seq<Event>, j: nat, jwt: RefreshJwt)
    requires j < |es|
  {
    GivesOut(cfg, StateAt(cfg, es, j), es[j], jwt)
  }

  predicate EndedAt(cfg: Config, es: seq<Event>, i: nat, jwt: RefreshJwt)
    requires i < |es|
  {
    Ends(cfg, StateAt(cfg, es, i), es[i], jwt)
  }

  /** Event `j` gave the token out, and none before `n` traded it in or ended its user's sessions. */
  predicate Outstanding(cfg: Config, es: seq<Event>, n: nat, j: nat, jwt: RefreshJwt)
    requires n <= |es|
  {
    j < n && GivenOutAt(cfg, es, j, jwt) && forall i | j < i < n :: !EndedAt(cfg, es, i, jwt)
  }

  ghost predicate Aged(cfg: Config, es: seq<Event>, n: nat, j: nat, jwt: RefreshJwt)
    requires n <= |es| && j < |es|
  {
    var s := StateAt(cfg, es, n);
    && Stands(s, jwt)
    && s.grants.tokens[Sha256Hex(jwt.jti)].expiresAt == cfg.StoredExpiry(es[j].at)
    && jwt.exp == cfg.JwtExpiry(es[j].at)
  }

  /** One step of the equivalence: rows stand as long as their tokens are outstanding. */
  lemma {:induction false} OutstandingStep(cfg: Config, es: seq<Event>, n: nat, next: nat, jwt: RefreshJwt)
    requires next == n + 1 && n < |es| && Handled(cfg, StateAt(cfg, es, n), es[n], jwt)
    requires StateAt(cfg, es, next) == Step(cfg, StateAt(cfg, es, n), es[n])
    requires Stands(StateAt(cfg, es, n), jwt) ==> exists j: nat :: Outstanding(cfg, es, n, j, jwt)
    requires forall j: nat | Outstanding(cfg, es, n, j, jwt) :: Aged(cfg, es, n, j, jwt)
    ensures Stands(StateAt(cfg, es, next), jwt) ==> exists j: nat :: Outstanding(cfg, es, next, j, jwt)
    ensures forall j: nat | Outstanding(cfg, es, next, j, jwt) :: Aged(cfg, es, next, j, jwt)
  {
    hide Step, StateAt, GivesOut, Ends;
    if Stands(StateAt(cfg, es, next), jwt) {
      if GivenOutAt(cfg, es, n, jwt) {
        assert Outstanding(cfg, es, next, n, jwt);
      } else {
        var j: nat :| Outstanding(cfg, es, n, j, jwt);
        assert Outstanding(cfg, es, next, j, jwt);
      }
    }
    forall j: nat | Outstanding(cfg, es, next, j, jwt) ensures Aged(cfg, es, next, j, jwt) {
      if j < n {
        assert Outstanding(cfg, es, n, j, jwt);
        assert !EndedAt(cfg, es, n, jwt);
      }
    }
  }

  lemma {:induction false} StandsWhileOutstanding(cfg: Config, es: seq<Event>, n: nat, jwt: RefreshJwt)
    requires n <= |es| && PossibleRun(cfg, EMPTY, es)
    ensures Stands(StateAt(cfg, es, n), jwt) ==> exists j: nat :: Outstanding(cfg, es, n, j, jwt)
    ensures forall j: nat | Outstanding(cfg, es, n, j, jwt) :: Aged(cfg, es, n, j, jwt)
    decreases n
  {
    hide Step, Ready, Handled;
    if n == 0 {
    } else {
      StandsWhileOutstanding(cfg, es, n - 1, jwt);
      ReadyAt(cfg, es, n - 1);
      PrefixesArePossible(cfg, EMPTY, es, n - 1);
      StepHandles(cfg, StateAt(cfg, es, n - 1), es[n - 1], jwt);
      StateAtNext(cfg, es, n - 1);
      OutstandingStep(cfg, es, n - 1, n, jwt);
    }
  }

  /** Within the lifetimes that the setting asks for: the stored one in milliseconds, the JWT's in seconds. */
  predicate InTime(cfg: Config, issued: Time, now: Time) {
    now <= issued + cfg.refreshExpiresIn && now / 1000 < issued / 1000 + cfg.refreshExpiresIn
  }

  /**
   In any possible run a rotation succeeds if and only if some login or rotation before gave its token out, none
   since traded it in, no purge since ended its user's sessions, and neither of its two lifetimes is over.
   */
  lemma RotationSucceedsExactly(cfg: Config, es: seq<Event>, n: nat)
    requires n < |es| && PossibleRun(cfg, EMPTY, es) && es[n].call.Refresh?
    ensures Serve(cfg, StateAt(cfg, es, n), es[n]).outcome.Rotated?
            <==> exists j: nat :: Outstanding(cfg, es, n, j, es[n].call.jwt) && InTime(cfg, es[j].at, es[n].at)
  {
    hide Apply, Run, Ready;
    ReadyAt(cfg, es, n);
    PrefixesArePossible(cfg, EMPTY, es, n);
    RefreshSucceedsExactly(cfg, StateAt(cfg, es, n), es[n]);
    StandsWhileOutstanding(cfg, es, n, es[n].call.jwt);
    if Stands(StateAt(cfg, es, n), es[n].call.jwt) {
      var j: nat :| Outstanding(cfg, es, n, j, es[n].call.jwt);
      assert Aged(cfg, es, n, j, es[n].call.jwt);
    }
    forall j: nat | Outstanding(cfg, es, n, j, es[n].call.jwt) ensures Aged(cfg, es, n, j, es[n].call.jwt) {}
  }
}
