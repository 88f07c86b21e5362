/** Email verification tokens over whole-request runs. */
module Verification {
  import opened Model
  import opened Requests
  import opened Directory
  import Auth = AuthService

  ghost predicate Awaits(s: State, h: TokenHash, u: UserId) {
    h in s.oneTime.verifications && s.oneTime.verifications[h].userId == u
  }

  /** An unverified user has exactly one verification token, a verified user has none. */
  ghost predicate OneTokenWhileUnverified(s: State) {
    && (forall h | h in s.oneTime.verifications ::
          && s.oneTime.verifications[h].userId in s.accounts.users
          && !s.accounts.users[s.oneTime.verifications[h].userId].isEmailVerified)
    && (forall h, k | h in s.oneTime.verifications && k in s.oneTime.verifications
                      && s.oneTime.verifications[h].userId == s.oneTime.verifications[k].userId :: h == k)
    && (forall u | u in s.accounts.users && !s.accounts.users[u].isEmailVerified :: exists h :: Awaits(s, h, u))
  }

  lemma OthersKeepVerified(cfg: Config, s: State, c: Call, u: UserId)
    requires u in s.accounts.users && !c.VerifyEmail?
    ensures u in Apply(cfg, s, c).state.accounts.users
    ensures Apply(cfg, s, c).state.accounts.users[u].isEmailVerified == s.accounts.users[u].isEmailVerified
  {
  }

  lemma VerifyingSetsVerified(cfg: Config, s: State, c: Call, u: UserId)
    requires u in s.accounts.users && c.VerifyEmail?
    ensures u in Apply(cfg, s, c).state.accounts.users
    ensures Apply(cfg, s, c).state.accounts.users[u].isEmailVerified
            <==> s.accounts.users[u].isEmailVerified || (Apply(cfg, s, c).outcome == Done && Target(s, c) == Some(u))
  {
  }

  /** Only a successful verification sets the flag, and nothing clears it. */
  lemma VerifiedColumn(cfg: Config, s: State, c: Call, u: UserId)
    requires u in s.accounts.users
    ensures var s' := Apply(cfg, s, c).state;
            && u in s'.accounts.users
            && (s'.accounts.users[u].isEmailVerified <==>
                  || s.accounts.users[u].isEmailVerified
                  || (c.VerifyEmail? && Apply(cfg, s, c).outcome == Done && Target(s, c) == Some(u)))
  {
    hide Apply;
    if c.VerifyEmail? {
      VerifyingSetsVerified(cfg, s, c, u);
    } else {
      OthersKeepVerified(cfg, s, c, u);
    }
  }

  lemma TokensUntouched(cfg: Config, s: State, c: Call)
    requires !c.Signup? && !c.VerifyEmail? && !c.ResendVerification?
    ensures Apply(cfg, s, c).state.oneTime.verifications == s.oneTime.verifications
  {
  }

  predicate VerificationsDrawn(s: State) {
    forall h | h in s.oneTime.verifications :: h.preimage in s.drawn
  }

  lemma {:induction false} SignupKeepsOneToken(cfg: Config, s: State, c: Call)
    requires c.Signup? && OneTokenWhileUnverified(s)
    ensures OneTokenWhileUnverified(Apply(cfg, s, c).state)
  {
    var s' := Apply(cfg, s, c).state;
    forall u | u in s'.accounts.users && !s'.accounts.users[u].isEmailVerified ensures exists h :: Awaits(s', h, u) {
      if u in s.accounts.users {
        var h :| Awaits(s, h, u);
        assert Awaits(s', h, u);
      } else {
        assert Awaits(s', Sha256Hex(c.raw), u);
      }
    }
  }

  lemma {:induction false} VerifyingKeepsOneToken(cfg: Config, s: State, c: Call)
    requires c.VerifyEmail? && OneTokenWhileUnverified(s)
    ensures OneTokenWhileUnverified(Apply(cfg, s, c).state)
  {
    var s' := Apply(cfg, s, c).state;
    forall u | u in s'.accounts.users && !s'.accounts.users[u].isEmailVerified ensures exists h :: Awaits(s', h, u) {
      var h :| Awaits(s, h, u);
      assert Awaits(s', h, u);
    }
  }

  lemma {:induction false} ResendingKeepsOneToken(cfg: Config, s: State, c: Call)
    requires c.ResendVerification? && OneTokenWhileUnverified(s) && Sha256Hex(c.raw) !in s.oneTime.verifications
    ensures OneTokenWhileUnverified(Apply(cfg, s, c).state)
  {
    var s' := Apply(cfg, s, c).state;
    forall u | u in s'.accounts.users && !s'.accounts.users[u].isEmailVerified ensures exists h :: Awaits(s', h, u) {
      if c.userId == u {
        assert Awaits(s', Sha256Hex(c.raw), u);
      } else {
        var h :| Awaits(s, h, u);
        assert Awaits(s', h, u);
      }
    }
  }

  lemma {:induction false} OtherCallsKeepOneToken(cfg: Config, s: State, c: Call)
    requires !c.Signup? && !c.VerifyEmail? && !c.ResendVerification? && OneTokenWhileUnverified(s)
    ensures OneTokenWhileUnverified(Apply(cfg, s, c).state)
  {
    var s' := Apply(cfg, s, c).state;
    TokensUntouched(cfg, s, c);
    FixedTables(cfg, s, c);
    forall u | u in s.accounts.users ensures s'.accounts.users[u].isEmailVerified
        == s.accounts.users[u].isEmailVerified {
      VerifiedColumn(cfg, s, c, u);
    }
    Carry(s, s');
  }

  lemma Carry(s: State, s': State)
    requires OneTokenWhileUnverified(s) && s'.oneTime.verifications == s.oneTime.verifications
    requires s'.accounts.users.Keys == s.accounts.users.Keys
    requires forall u | u in s.accounts.users ::
        s'.accounts.users[u].isEmailVerified == s.accounts.users[u].isEmailVerified
    ensures OneTokenWhileUnverified(s')
  {
    forall u | u in s'.accounts.users && !s'.accounts.users[u].isEmailVerified ensures exists h :: Awaits(s', h, u) {
      var h :| Awaits(s, h, u);
      assert Awaits(s', h, u);
    }
  }

  lemma {:induction false} StepKeepsOneToken(cfg: Config, s: State, e: Event)
    requires OneTokenWhileUnverified(s) && VerificationsDrawn(s) && Possible(s, e)
    ensures OneTokenWhileUnverified(Step(cfg, s, e)) && VerificationsDrawn(Step(cfg, s, e))
  {
    var s1 := Arrive(s, e);
    Carry(s, s1);
    if e.call.Signup? { SignupKeepsOneToken(cfg, s1, e.call); }
    else if e.call.VerifyEmail? { VerifyingKeepsOneToken(cfg, s1, e.call); }
    else if e.call.ResendVerification? { ResendingKeepsOneToken(cfg, s1, e.call); }
    else { OtherCallsKeepOneToken(cfg, s1, e.call); }
    StepKeepsDrawn(cfg, s, e);
  }

  lemma StepKeepsDrawn(cfg: Config, s: State, e: Event)
    requires VerificationsDrawn(s)
    ensures VerificationsDrawn(Step(cfg, s, e))
  {
    var s1 := Arrive(s, e);
    if !e.call.Signup? && !e.call.VerifyEmail? && !e.call.ResendVerification? { TokensUntouched(cfg, s1, e.call); }
    StepKeepsTime(cfg, s, e);
  }

  /** Its guard is there, but no reachable state makes `verifyEmail` answer "already verified". */
  lemma AlreadyVerifiedNeverHappens(cfg: Config, s: State, raw: Draw, now: Time)
    requires OneTokenWhileUnverified(s)
    ensures Auth.VerifyEmail(s.(clock := now), raw).outcome != Failed(EmailAlreadyVerified)
  {
  }

  /** Once verified, verified for the rest of any run. */
  lemma {:induction false} VerifiedForever(cfg: Config, s: State, es: seq<Event>, u: UserId)
    requires u in s.accounts.users && s.accounts.users[u].isEmailVerified
    ensures u in Run(cfg, s, es).accounts.users && Run(cfg, s, es).accounts.users[u].isEmailVerified
    decreases |es|
  {
    if es == [] {
    } else {
      VerifiedColumn(cfg, Arrive(s, es[0]), es[0].call, u);
      VerifiedForever(cfg, Step(cfg, s, es[0]), es[1..], u);
    }
  }

  // ---------------------------------------------------------------- every token was mailed, and is young

  /** The call mails a verification token to `u`: at signup, or when asked again. */
  predicate Mails(c: Call, raw: Draw, u: UserId) {
    (c.Signup? && c.uid == u && c.raw == raw) || (c.ResendVerification? && c.userId == u && c.raw == raw)
  }

  ghost predicate MailedAt(es: seq<Event>, j: nat, raw: Draw, u: UserId, expiresAt: Time)
    requires j < |es|
  {
    Mails(es[j].call, raw, u) && expiresAt == es[j].at + ONE_TIME_TTL
  }

  ghost predicate WasMailed(es: seq<Event>, n: nat, h: TokenHash, row: VerificationToken)
    requires n <= |es|
  {
    exists j: nat | j < n :: MailedAt(es, j, h.preimage, row.userId, row.expiresAt)
  }

  lemma {:induction false} RowsComeFromMails(cfg: Config, s: State, e: Event, h: TokenHash)
    requires h in Step(cfg, s, e).oneTime.verifications
    ensures var row := Step(cfg, s, e).oneTime.verifications[h];
            || (h in s.oneTime.verifications && s.oneTime.verifications[h] == row)
            || (Mails(e.call, h.preimage, row.userId) && row.expiresAt == e.at + ONE_TIME_TTL)
  {
    if !e.call.Signup? && !e.call.VerifyEmail? && !e.call.ResendVerification? {
      TokensUntouched(cfg, Arrive(s, e), e.call);
    }
  }

  lemma {:induction false} EveryRowWasMailed(cfg: Config, es: seq<Event>, n: nat, h: TokenHash)
    requires n <= |es| && h in Run(cfg, EMPTY, es[..n]).oneTime.verifications
    ensures WasMailed(es, n, h, Run(cfg, EMPTY, es[..n]).oneTime.verifications[h])
    decreases n
  {
    hide Apply;
    if n == 0 {
    } else {
      var before := Run(cfg, EMPTY, es[..n - 1]);
      assert es[..n] == es[..n - 1] + [es[n - 1]];
      RunSnoc(cfg, EMPTY, es[..n - 1], es[n - 1]);
      RowsComeFromMails(cfg, before, es[n - 1], h);
      var row := Run(cfg, EMPTY, es[..n]).oneTime.verifications[h];
      if h in before.oneTime.verifications && before.oneTime.verifications[h] == row {
        EveryRowWasMailed(cfg, es, n - 1, h);
      } else {
        assert MailedAt(es, n - 1, h.preimage, row.userId, row.expiresAt);
      }
    }
  }

  /**
   Whenever a token verifies the address of `u`, that very token was mailed to `u` by a signup or a resend
   earlier in the run, at most fifteen minutes before.
   */
  lemma VerificationsAnswerARecentMail(cfg: Config, es: seq<Event>, n: nat, u: UserId)
    requires n < |es| && es[n].call.VerifyEmail?
    requires Serve(cfg, Run(cfg, EMPTY, es[..n]), es[n]).outcome == Done
    requires Target(Run(cfg, EMPTY, es[..n]), es[n].call) == Some(u)
    ensures exists j: nat | j < n ::
        MailedAt(es, j, es[n].call.raw, u, es[j].at + ONE_TIME_TTL) && es[n].at <= es[j].at + ONE_TIME_TTL
  {
    var s := Run(cfg, EMPTY, es[..n]);
    var h := Sha256Hex(es[n].call.raw);
    EveryRowWasMailed(cfg, es, n, h);
    var j: nat :| j < n && MailedAt(es, j, h.preimage, u, s.oneTime.verifications[h].expiresAt);
    assert MailedAt(es, j, es[n].call.raw, u, es[j].at + ONE_TIME_TTL);
  }
}
