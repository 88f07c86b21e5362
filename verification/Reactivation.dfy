/** How an account that an admin suspended or banned, or that was deleted, comes back. */
module Reactivation {
  import opened Model
  import opened Requests
  import opened Lifecycle
  import Auth = AuthService
  import Verification

  /** Suspended, banned or deleted. */
  predicate StatusBarred(s: State, u: UserId) {
    u in s.accounts.users && s.accounts.users[u].status in {SUSPENDED, BANNED, DELETED}
  }

  /** An admin who is not barred at that moment sets the status to ACTIVE. */
  predicate LiftedByAdmin(s: State, h: Http, u: UserId) {
    && h.call.UpdateUserStatus? && h.call.target == u && h.call.status == ACTIVE
    && h.token.Some? && IsAdmin(s, h.token.value) && !Blocked(s, h.token.value, h.at)
  }

  /** The account's address was not verified before, and is now, with a token that is still alive. */
  predicate LiftedByToken(s: State, h: Http, u: UserId) {
    && h.call.VerifyEmail?
    && var row := Auth.FindVerification(s, h.call.raw);
       row.Some? && row.value.userId == u && h.at <= row.value.expiresAt && !s.accounts.users[u].isEmailVerified
  }

  lemma {:induction false} LiftedExactly(cfg: Config, s: State, h: Http, u: UserId)
    requires StatusBarred(s, u)
    ensures u in Handle(cfg, s, h).state.accounts.users
    ensures !StatusBarred(Handle(cfg, s, h).state, u) <==> LiftedByAdmin(s, h, u) || LiftedByToken(s, h, u)
  {
    var s1 := Arrive(s, Event(h.at, h.call));
    if h.call.UpdateUserStatus? || h.call.VerifyEmail? {
      LiftingCalls(cfg, s, h, u);
    } else {
      hide Apply;
      StatusMovesExactly(cfg, s1, h.call, u);
    }
  }

  lemma {:induction false} LiftingCalls(cfg: Config, s: State, h: Http, u: UserId)
    requires StatusBarred(s, u) && (h.call.UpdateUserStatus? || h.call.VerifyEmail?)
    ensures u in Handle(cfg, s, h).state.accounts.users
    ensures !StatusBarred(Handle(cfg, s, h).state, u) <==> LiftedByAdmin(s, h, u) || LiftedByToken(s, h, u)
  {
  }

  /** The controllers take a signed-in call's user from the access token. */
  predicate Honest(h: Http) {
    RouteOf(h.call).SignedIn? && h.token.Some? ==> RouteOf(h.call).self == h.token.value
  }

  /** No verification token of `u` lives beyond the deadline. */
  predicate DeadBy(s: State, u: UserId, deadline: Time) {
    forall k | k in s.oneTime.verifications && s.oneTime.verifications[k].userId == u ::
      s.oneTime.verifications[k].expiresAt <= deadline
  }

  lemma {:induction false} MailingCallsKeepDeadline(cfg: Config, s: State, h: Http, u: UserId, deadline: Time)
    requires StatusBarred(s, u) && Honest(h) && DeadBy(s, u, deadline)
    requires h.call.Signup? || h.call.VerifyEmail? || h.call.ResendVerification?
    ensures DeadBy(Handle(cfg, s, h).state, u, deadline)
  {
  }

  /** A barred user gets no new verification token: the gate refuses the request for one. */
  lemma {:induction false} BarredGetNoToken(cfg: Config, s: State, h: Http, u: UserId, deadline: Time)
    requires StatusBarred(s, u) && Honest(h) && DeadBy(s, u, deadline)
    ensures DeadBy(Handle(cfg, s, h).state, u, deadline)
  {
    if h.call.Signup? || h.call.VerifyEmail? || h.call.ResendVerification? {
      MailingCallsKeepDeadline(cfg, s, h, u, deadline);
    } else {
      hide Apply;
      Verification.TokensUntouched(cfg, Arrive(s, Event(h.at, h.call)), h.call);
    }
  }

  predicate BarredThroughout(cfg: Config, s: State, hs: seq<Http>, u: UserId)
    decreases |hs|
  {
    StatusBarred(s, u) && (hs == [] || BarredThroughout(cfg, Handle(cfg, s, hs[0]).state, hs[1..], u))
  }

  lemma {:induction false} BarredRunsKeepDeadline(cfg: Config, s: State, hs: seq<Http>, u: UserId, deadline: Time)
    requires BarredThroughout(cfg, s, hs, u) && (forall h | h in hs :: Honest(h)) && DeadBy(s, u, deadline)
    ensures StatusBarred(HandleAll(cfg, s, hs), u) && DeadBy(HandleAll(cfg, s, hs), u, deadline)
    decreases |hs|
  {
    hide Handle, DeadBy;
    if hs == [] {
    } else {
      BarredGetNoToken(cfg, s, hs[0], u, deadline);
      BarredRunsKeepDeadline(cfg, Handle(cfg, s, hs[0]).state, hs[1..], u, deadline);
    }
  }

  /** No verification token lives longer than fifteen minutes from now. */
  predicate TokensAreYoung(s: State) {
    forall k | k in s.oneTime.verifications :: s.oneTime.verifications[k].expiresAt <= s.clock + ONE_TIME_TTL
  }

  lemma {:induction false} TokensStayYoung(cfg: Config, s: State, h: Http)
    requires TokensAreYoung(s) && s.clock <= h.at
    ensures TokensAreYoung(Handle(cfg, s, h).state)
  {
    var e := Event(h.at, h.call);
    forall k | k in Step(cfg, s, e).oneTime.verifications
      ensures Step(cfg, s, e).oneTime.verifications[k].expiresAt <= h.at + ONE_TIME_TTL
    {
      Verification.RowsComeFromMails(cfg, s, e, k);
    }
    StepKeepsTime(cfg, s, e);
  }

  lemma {:induction false} ReachableTokensAreYoung(cfg: Config, s: State, hs: seq<Http>)
    requires TokensAreYoung(s) && PossibleHttp(cfg, s, hs)
    ensures TokensAreYoung(HandleAll(cfg, s, hs))
    decreases |hs|
  {
    hide Handle, TokensAreYoung;
    if hs == [] {
    } else {
      TokensStayYoung(cfg, s, hs[0]);
      ReachableTokensAreYoung(cfg, Handle(cfg, s, hs[0]).state, hs[1..]);
    }
  }

  /**
   Once an account has stayed suspended, banned or deleted for more than fifteen minutes, whatever anybody
   requested meanwhile, a request brings it back if and only if it is an admin's update of its status to ACTIVE.
   Until then its owner can still do so by verifying the address.
   */
  lemma OnlyAdminsReactivate(cfg: Config, before: seq<Http>, hs: seq<Http>, h: Http, u: UserId)
    requires PossibleHttp(cfg, EMPTY, before) && (forall x | x in hs :: Honest(x))
    requires BarredThroughout(cfg, HandleAll(cfg, EMPTY, before), hs, u)
    requires h.at > HandleAll(cfg, EMPTY, before).clock + ONE_TIME_TTL
    ensures var s := HandleAll(cfg, HandleAll(cfg, EMPTY, before), hs);
            !StatusBarred(Handle(cfg, s, h).state, u) <==> LiftedByAdmin(s, h, u)
  {
    hide Handle, HandleAll, BarredThroughout, PossibleHttp;
    var barred := HandleAll(cfg, EMPTY, before);
    var s := HandleAll(cfg, barred, hs);
    ReachableTokensAreYoung(cfg, EMPTY, before);
    BarredRunsKeepDeadline(cfg, barred, hs, u, barred.clock + ONE_TIME_TTL);
    LiftedExactly(cfg, s, h, u);
  }
}
