/** When exactly a one-time token does its work, over whole-request runs. */
module Redemption {
  import opened Model
  import opened Requests
  import opened Directory
  import opened Invariants
  import Independence
  import Passwords
  import Resets
  import Verification

  lemma SoundAt(cfg: Config, es: seq<Event>, n: nat)
    requires n <= |es| && PossibleRun(cfg, EMPTY, es)
    ensures Sound(cfg, StateAt(cfg, es, n))
    decreases n
  {
    hide Apply, Sound;
    if n == 0 {
      EmptyIsSound(cfg);
    } else {
      SoundAt(cfg, es, n - 1);
      PrefixesArePossible(cfg, EMPTY, es, n - 1);
      StepKeepsSound(cfg, StateAt(cfg, es, n - 1), es[n - 1]);
      StateAtNext(cfg, es, n - 1);
    }
  }

  // ---------------------------------------------------------------- password reset tokens

  predicate AsksFor(s: State, e: Event, u: UserId) {
    Resets.Forgets(Arrive(s, e), e.call, u)
  }

  /** "Forgot password" for `u`, answered with this token. */
  predicate Issues(s: State, e: Event, raw: Draw, u: UserId) {
    AsksFor(s, e, u) && e.call.raw == raw
  }

  predicate OwnersExist(s: State) {
    forall h | h in s.oneTime.resets :: s.oneTime.resets[h].userId in s.accounts.users
  }

  /** Which reset tokens are unused after a step, and until when. */
  predicate ResetHandled(cfg: Config, s: State, e: Event, raw: Draw, u: UserId) {
    var s', h := Step(cfg, s, e), Sha256Hex(raw);
    && (Resets.Unused(s', h, u)
        <==> Issues(s, e, raw, u) || (Resets.Unused(s, h, u) && !AsksFor(s, e, u) && !Resets.Uses(cfg, s, e, raw)))
    && (Issues(s, e, raw, u) ==> !Resets.Unused(s, h, u) && s'.oneTime.resets[h].expiresAt == e.at + ONE_TIME_TTL)
    && (Resets.Unused(s, h, u) && Resets.Unused(s', h, u) ==>
          s'.oneTime.resets[h].expiresAt == s.oneTime.resets[h].expiresAt)
  }

  lemma {:induction false} ForgetHandles(cfg: Config, s: State, e: Event, raw: Draw, u: UserId)
    requires Independence.ResetsDrawn(s) && Possible(s, e) && e.call.ForgotPassword?
    ensures ResetHandled(cfg, s, e, raw, u)
  {
  }

  lemma {:induction false} ResetHandles(cfg: Config, s: State, e: Event, raw: Draw, u: UserId)
    requires e.call.ResetPassword?
    ensures ResetHandled(cfg, s, e, raw, u)
  {
  }

  lemma {:induction false} StepHandlesReset(cfg: Config, s: State, e: Event, raw: Draw, u: UserId)
    requires Independence.ResetsDrawn(s) && Possible(s, e)
    ensures ResetHandled(cfg, s, e, raw, u)
  {
    hide Apply;
    if e.call.ForgotPassword? {
      ForgetHandles(cfg, s, e, raw, u);
    } else if e.call.ResetPassword? {
      ResetHandles(cfg, s, e, raw, u);
    } else {
      Resets.TokensUntouched(cfg, Arrive(s, e), e.call);
    }
  }

  lemma {:induction false} StepKeepsOwners(cfg: Config, s: State, e: Event)
    requires OwnersExist(s)
    ensures OwnersExist(Step(cfg, s, e))
  {
    hide Apply;
    UsersOnlyJoin(cfg, Arrive(s, e), e.call);
    forall h | h in Step(cfg, s, e).oneTime.resets
      ensures Step(cfg, s, e).oneTime.resets[h].userId in Step(cfg, s, e).accounts.users
    {
      Resets.RowsComeFromRequests(cfg, s, e, h);
    }
  }

  lemma {:induction false} OwnersExistAt(cfg: Config, es: seq<Event>, n: nat)
    requires n <= |es|
    ensures OwnersExist(StateAt(cfg, es, n))
    decreases n
  {
    hide Apply;
    if n == 0 {
    } else {
      OwnersExistAt(cfg, es, n - 1);
      StepKeepsOwners(cfg, StateAt(cfg, es, n - 1), es[n - 1]);
      StateAtNext(cfg, es, n - 1);
    }
  }

  predicate IssuesAt(cfg: Config, es: seq<Event>, j: nat, raw: Draw, u: UserId)
    requires j < |es|
  {
    Issues(StateAt(cfg, es, j), es[j], raw, u)
  }

  predicate AsksAt(cfg: Config, es: seq<Event>, i: nat, u: UserId)
    requires i < |es|
  {
    AsksFor(StateAt(cfg, es, i), es[i], u)
  }

  predicate UsesAt(cfg: Config, es: seq<Event>, i: nat, raw: Draw)
    requires i < |es|
  {
    Resets.Uses(cfg, StateAt(cfg, es, i), es[i], raw)
  }

  /** Event `j` issued the token to `u`; before `n` no other was asked for, and this one was not used. */
  predicate OpenReset(cfg: Config, es: seq<Event>, n: nat, j: nat, raw: Draw, u: UserId)
    requires n <= |es|
  {
    && j < n && IssuesAt(cfg, es, j, raw, u)
    && forall i | j < i < n :: !AsksAt(cfg, es, i, u) && !UsesAt(cfg, es, i, raw)
  }

  predicate ResetAged(cfg: Config, es: seq<Event>, n: nat, j: nat, raw: Draw, u: UserId)
    requires n <= |es| && j < |es|
  {
    var s, h := StateAt(cfg, es, n), Sha256Hex(raw);
    Resets.Unused(s, h, u) && s.oneTime.resets[h].expiresAt == es[j].at + ONE_TIME_TTL
  }

  lemma {:induction false} OpenResetStep(cfg: Config, es: seq<Event>, n: nat, next: nat, raw: Draw, u: UserId)
    requires next == n + 1 && n < |es| && ResetHandled(cfg, StateAt(cfg, es, n), es[n], raw, u)
    requires StateAt(cfg, es, next) == Step(cfg, StateAt(cfg, es, n), es[n])
    requires Resets.Unused(StateAt(cfg, es, n), Sha256Hex(raw), u) ==>
               exists j: nat :: OpenReset(cfg, es, n, j, raw, u)
    requires forall j: nat | OpenReset(cfg, es, n, j, raw, u) :: ResetAged(cfg, es, n, j, raw, u)
    ensures Resets.Unused(StateAt(cfg, es, next), Sha256Hex(raw), u) ==>
              exists j: nat :: OpenReset(cfg, es, next, j, raw, u)
    ensures forall j: nat | OpenReset(cfg, es, next, j, raw, u) :: ResetAged(cfg, es, next, j, raw, u)
  {
    hide Step, StateAt, Issues, AsksFor, Resets.Uses;
    if Resets.Unused(StateAt(cfg, es, next), Sha256Hex(raw), u) {
      if IssuesAt(cfg, es, n, raw, u) {
        assert OpenReset(cfg, es, next, n, raw, u);
      } else {
        var j: nat :| OpenReset(cfg, es, n, j, raw, u);
        assert OpenReset(cfg, es, next, j, raw, u);
      }
    }
    forall j: nat | OpenReset(cfg, es, next, j, raw, u) ensures ResetAged(cfg, es, next, j, raw, u) {
      if j < n {
        assert OpenReset(cfg, es, n, j, raw, u);
        assert !AsksAt(cfg, es, n, u) && !UsesAt(cfg, es, n, raw);
      }
    }
  }

  lemma {:induction false} UnusedWhileOpen(cfg: Config, es: seq<Event>, n: nat, raw: Draw, u: UserId)
    requires n <= |es| && PossibleRun(cfg, EMPTY, es)
    ensures Resets.Unused(StateAt(cfg, es, n), Sha256Hex(raw), u) ==>
              exists j: nat :: OpenReset(cfg, es, n, j, raw, u)
    ensures forall j: nat | OpenReset(cfg, es, n, j, raw, u) :: ResetAged(cfg, es, n, j, raw, u)
    decreases n
  {
    hide Step, ResetHandled, IssuesAt, AsksAt, UsesAt;
    if n == 0 {
    } else {
      UnusedWhileOpen(cfg, es, n - 1, raw, u);
      SoundAt(cfg, es, n - 1);
      PrefixesArePossible(cfg, EMPTY, es, n - 1);
      StepHandlesReset(cfg, StateAt(cfg, es, n - 1), es[n - 1], raw, u);
      StateAtNext(cfg, es, n - 1);
      OpenResetStep(cfg, es, n - 1, n, raw, u);
    }
  }

  lemma {:induction false} ResetDoneExactly(cfg: Config, s: State, e: Event, u: UserId)
    requires OwnersExist(s) && e.call.ResetPassword?
    ensures Resets.Resets(cfg, Arrive(s, e), e.call, u)
            <==> && Resets.Unused(s, Sha256Hex(e.call.raw), u)
                 && e.at <= s.oneTime.resets[Sha256Hex(e.call.raw)].expiresAt
                 && Passwords.Present(s, u) != [e.call.newPassword]
  {
  }

  /**
   In any possible run a token resets the password of `u` if and only if some request issued it to `u` at most
   fifteen minutes before, `u` has asked for no other since, it was not used since, and the new password is not
   the last one set.
   */
  lemma ResetSucceedsExactly(cfg: Config, es: seq<Event>, n: nat, u: UserId)
    requires n < |es| && PossibleRun(cfg, EMPTY, es) && es[n].call.ResetPassword?
    ensures var h := Passwords.History(cfg, EMPTY, es[..n], u);
            Resets.Resets(cfg, Arrive(StateAt(cfg, es, n), es[n]), es[n].call, u)
            <==> && (exists j: nat ::
                       OpenReset(cfg, es, n, j, es[n].call.raw, u) && es[n].at <= es[j].at + 15 * 60 * 1000)
                 && Passwords.Last(h) != [es[n].call.newPassword]
  {
    hide Apply, Run, IssuesAt, AsksAt, UsesAt, Passwords.History, Resets.Resets, Sound;
    var raw := es[n].call.raw;
    OwnersExistAt(cfg, es, n);
    ResetDoneExactly(cfg, StateAt(cfg, es, n), es[n], u);
    UnusedWhileOpen(cfg, es, n, raw, u);
    if Resets.Unused(StateAt(cfg, es, n), Sha256Hex(raw), u) {
      var j: nat :| OpenReset(cfg, es, n, j, raw, u);
      assert ResetAged(cfg, es, n, j, raw, u);
    }
    forall j: nat | OpenReset(cfg, es, n, j, raw, u) ensures ResetAged(cfg, es, n, j, raw, u) {}
    var h := Passwords.History(cfg, EMPTY, es[..n], u);
    Passwords.RunAppends(cfg, EMPTY, es[..n], u);
    assert Passwords.Present(EMPTY, u) + h == h;
  }

  function UsedAt(s: State, raw: Draw): Option<Time> {
    if Sha256Hex(raw) in s.oneTime.resets then s.oneTime.resets[Sha256Hex(raw)].usedAt else None
  }

  lemma {:induction false} StepStampsTheUse(cfg: Config, s: State, e: Event, raw: Draw)
    requires Independence.ResetsDrawn(s) && Possible(s, e)
    ensures UsedAt(Step(cfg, s, e), raw) == if Resets.Uses(cfg, s, e, raw) then Some(e.at) else UsedAt(s, raw)
    ensures Resets.Uses(cfg, s, e, raw) ==> UsedAt(s, raw).None?
  {
    if !e.call.ForgotPassword? && !e.call.ResetPassword? { Resets.TokensUntouched(cfg, Arrive(s, e), e.call); }
  }

  /** A spent reset token stays, stamped with the moment of its one use. */
  lemma {:induction false} SpentTokensRecordTheirUse(cfg: Config, es: seq<Event>, n: nat, raw: Draw, t: Time)
    requires n <= |es| && PossibleRun(cfg, EMPTY, es)
    ensures UsedAt(StateAt(cfg, es, n), raw) == Some(t)
            <==> exists j: nat | j < n :: UsesAt(cfg, es, j, raw) && es[j].at == t
    decreases n
  {
    hide Step, Apply, UsedAt, Resets.Uses;
    if n == 0 {
      assert StateAt(cfg, es, 0) == EMPTY;
      NothingIsUsedYet(raw);
    } else {
      SpentTokensRecordTheirUse(cfg, es, n - 1, raw, t);
      SoundAt(cfg, es, n - 1);
      PrefixesArePossible(cfg, EMPTY, es, n - 1);
      StepStampsTheUse(cfg, StateAt(cfg, es, n - 1), es[n - 1], raw);
      StateAtNext(cfg, es, n - 1);
      if UsesAt(cfg, es, n - 1, raw) && UsedAt(StateAt(cfg, es, n), raw) != Some(t) {
        forall j: nat | j < n && UsesAt(cfg, es, j, raw) ensures es[j].at != t {
          assert j == n - 1 || es[j].at != t;
        }
      }
    }
  }

  lemma NothingIsUsedYet(raw: Draw)
    ensures UsedAt(EMPTY, raw).None?
  {
  }

  // ---------------------------------------------------------------- email verification tokens

  /** A signup of `u` or a resend to `u` went through. */
  predicate MailsTo(cfg: Config, s: State, e: Event, u: UserId) {
    && Serve(cfg, s, e).outcome == Done
    && ((e.call.Signup? && e.call.uid == u) || (e.call.ResendVerification? && e.call.userId == u))
  }

  predicate MailsToken(cfg: Config, s: State, e: Event, raw: Draw, u: UserId) {
    MailsTo(cfg, s, e, u) && e.call.raw == raw
  }

  predicate VerifiesWith(cfg: Config, s: State, e: Event, raw: Draw) {
    e.call.VerifyEmail? && e.call.raw == raw && Serve(cfg, s, e).outcome == Done
  }

  predicate Waits(s: State, raw: Draw, u: UserId) {
    Sha256Hex(raw) in s.oneTime.verifications && s.oneTime.verifications[Sha256Hex(raw)].userId == u
  }

  /** Which verification tokens wait after a step, and until when. */
  predicate MailHandled(cfg: Config, s: State, e: Event, raw: Draw, u: UserId) {
    var s', h := Step(cfg, s, e), Sha256Hex(raw);
    && (Waits(s', raw, u)
        <==> MailsToken(cfg, s, e, raw, u)
             || (Waits(s, raw, u) && !MailsTo(cfg, s, e, u) && !VerifiesWith(cfg, s, e, raw)))
    && (MailsToken(cfg, s, e, raw, u) ==>
          !Waits(s, raw, u) && s'.oneTime.verifications[h].expiresAt == e.at + ONE_TIME_TTL)
    && (Waits(s, raw, u) && Waits(s', raw, u) ==>
          s'.oneTime.verifications[h].expiresAt == s.oneTime.verifications[h].expiresAt)
  }

  lemma {:induction false} MailingHandles(cfg: Config, s: State, e: Event, raw: Draw, u: UserId)
    requires Verification.VerificationsDrawn(s) && Verification.OneTokenWhileUnverified(s) && Possible(s, e)
    requires e.call.Signup? || e.call.ResendVerification?
    ensures MailHandled(cfg, s, e, raw, u)
  {
  }

  lemma {:induction false} VerifyingHandles(cfg: Config, s: State, e: Event, raw: Draw, u: UserId)
    requires e.call.VerifyEmail?
    ensures MailHandled(cfg, s, e, raw, u)
  {
  }

  lemma {:induction false} StepHandlesMail(cfg: Config, s: State, e: Event, raw: Draw, u: UserId)
    requires Verification.VerificationsDrawn(s) && Verification.OneTokenWhileUnverified(s) && Possible(s, e)
    ensures MailHandled(cfg, s, e, raw, u)
  {
    hide Apply;
    if e.call.Signup? || e.call.ResendVerification? {
      MailingHandles(cfg, s, e, raw, u);
    } else if e.call.VerifyEmail? {
      VerifyingHandles(cfg, s, e, raw, u);
    } else {
      Verification.TokensUntouched(cfg, Arrive(s, e), e.call);
    }
  }

  predicate MailsTokenAt(cfg: Config, es: seq<Event>, j: nat, raw: Draw, u: UserId)
    requires j < |es|
  {
    MailsToken(cfg, StateAt(cfg, es, j), es[j], raw, u)
  }

  predicate MailsAt(cfg: Config, es: seq<Event>, i: nat, u: UserId)
    requires i < |es|
  {
    MailsTo(cfg, StateAt(cfg, es, i), es[i], u)
  }

  predicate VerifiesAt(cfg: Config, es: seq<Event>, i: nat, raw: Draw)
    requires i < |es|
  {
    VerifiesWith(cfg, StateAt(cfg, es, i), es[i], raw)
  }

  /** Event `j` mailed the token to `u`; before `n` no other was mailed, and this one did not verify. */
  predicate OpenMail(cfg: Config, es: seq<Event>, n: nat, j: nat, raw: Draw, u: UserId)
    requires n <= |es|
  {
    && j < n && MailsTokenAt(cfg, es, j, raw, u)
    && forall i | j < i < n :: !MailsAt(cfg, es, i, u) && !VerifiesAt(cfg, es, i, raw)
  }

  predicate MailAged(cfg: Config, es: seq<Event>, n: nat, j: nat, raw: Draw, u: UserId)
    requires n <= |es| && j < |es|
  {
    var s, h := StateAt(cfg, es, n), Sha256Hex(raw);
    Waits(s, raw, u) && s.oneTime.verifications[h].expiresAt == es[j].at + ONE_TIME_TTL
  }

  lemma {:induction false} OpenMailStep(cfg: Config, es: seq<Event>, n: nat, next: nat, raw: Draw, u: UserId)
    requires next == n + 1 && n < |es| && MailHandled(cfg, StateAt(cfg, es, n), es[n], raw, u)
    requires StateAt(cfg, es, next) == Step(cfg, StateAt(cfg, es, n), es[n])
    requires Waits(StateAt(cfg, es, n), raw, u) ==> exists j: nat :: OpenMail(cfg, es, n, j, raw, u)
    requires forall j: nat | OpenMail(cfg, es, n, j, raw, u) :: MailAged(cfg, es, n, j, raw, u)
    ensures Waits(StateAt(cfg, es, next), raw, u) ==> exists j: nat :: OpenMail(cfg, es, next, j, raw, u)
    ensures forall j: nat | OpenMail(cfg, es, next, j, raw, u) :: MailAged(cfg, es, next, j, raw, u)
  {
    hide Step, StateAt, MailsToken, MailsTo, VerifiesWith;
    if Waits(StateAt(cfg, es, next), raw, u) {
      if MailsTokenAt(cfg, es, n, raw, u) {
        assert OpenMail(cfg, es, next, n, raw, u);
      } else {
        var j: nat :| OpenMail(cfg, es, n, j, raw, u);
        assert OpenMail(cfg, es, next, j, raw, u);
      }
    }
    forall j: nat | OpenMail(cfg, es, next, j, raw, u) ensures MailAged(cfg, es, next, j, raw, u) {
      if j < n {
        assert OpenMail(cfg, es, n, j, raw, u);
        assert !MailsAt(cfg, es, n, u) && !VerifiesAt(cfg, es, n, raw);
      }
    }
  }

  lemma {:induction false} WaitsWhileOpen(cfg: Config, es: seq<Event>, n: nat, raw: Draw, u: UserId)
    requires n <= |es| && PossibleRun(cfg, EMPTY, es)
    ensures Waits(StateAt(cfg, es, n), raw, u) ==> exists j: nat :: OpenMail(cfg, es, n, j, raw, u)
    ensures forall j: nat | OpenMail(cfg, es, n, j, raw, u) :: MailAged(cfg, es, n, j, raw, u)
    decreases n
  {
    hide Step, MailHandled, MailsTokenAt, MailsAt, VerifiesAt;
    if n == 0 {
    } else {
      WaitsWhileOpen(cfg, es, n - 1, raw, u);
      SoundAt(cfg, es, n - 1);
      PrefixesArePossible(cfg, EMPTY, es, n - 1);
      StepHandlesMail(cfg, StateAt(cfg, es, n - 1), es[n - 1], raw, u);
      StateAtNext(cfg, es, n - 1);
      OpenMailStep(cfg, es, n - 1, n, raw, u);
    }
  }

  /** The token verifies the address of `u`. */
  predicate Verifies(cfg: Config, s: State, e: Event, u: UserId) {
    e.call.VerifyEmail? && Serve(cfg, s, e).outcome == Done && Target(s, e.call) == Some(u)
  }

  lemma {:induction false} VerifyDoneExactly(cfg: Config, s: State, e: Event, u: UserId)
    requires Verification.OneTokenWhileUnverified(s) && e.call.VerifyEmail?
    ensures Verifies(cfg, s, e, u)
            <==> Waits(s, e.call.raw, u) && e.at <= s.oneTime.verifications[Sha256Hex(e.call.raw)].expiresAt
  {
  }

  /**
   In any possible run a token verifies the address of `u` if and only if it is the last one mailed to `u`, at most
   fifteen minutes ago, and did not verify before.
   */
  lemma VerificationSucceedsExactly(cfg: Config, es: seq<Event>, n: nat, u: UserId)
    requires n < |es| && PossibleRun(cfg, EMPTY, es) && es[n].call.VerifyEmail?
    ensures Verifies(cfg, StateAt(cfg, es, n), es[n], u)
            <==> exists j: nat :: OpenMail(cfg, es, n, j, es[n].call.raw, u) && es[n].at <= es[j].at + 15 * 60 * 1000
  {
    hide Apply, StateAt, MailsTokenAt, MailsAt, VerifiesAt, Verifies;
    var raw := es[n].call.raw;
    SoundAt(cfg, es, n);
    VerifyDoneExactly(cfg, StateAt(cfg, es, n), es[n], u);
    WaitsWhileOpen(cfg, es, n, raw, u);
    if Waits(StateAt(cfg, es, n), raw, u) {
      var j: nat :| OpenMail(cfg, es, n, j, raw, u);
      assert MailAged(cfg, es, n, j, raw, u);
    }
    forall j: nat | OpenMail(cfg, es, n, j, raw, u) ensures MailAged(cfg, es, n, j, raw, u) {}
  }
}
